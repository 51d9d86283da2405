/** The scheduler: a binary heap of cells by the time they are due. */
module Scheduling {
  import opened Outcomes
  import opened Framing

  class CellItem {
    const cell: Cell
    const priority: int
    var index: int
    constructor (cell: Cell, priority: int)
      ensures this.cell == cell && this.priority == priority
    {
      this.cell, this.priority, index := cell, priority, 0;
    }
  }

  // ---------- heaps ----------

  function Parent(k: nat): (p: nat)
    requires k >= 1
    ensures p < k
  {
    (k - 1) / 2
  }

  ghost predicate Heap(q: seq<CellItem>) {
    forall k :: 1 <= k < |q| ==> q[Parent(k)].priority <= q[k].priority
  }

  /** A heap but for the item at j, which may be too small for its place. */
  ghost predicate HeapBut(q: seq<CellItem>, j: nat) {
    && (forall k :: 1 <= k < |q| && k != j ==> q[Parent(k)].priority <= q[k].priority)
    && (forall k :: 1 <= k < |q| && j >= 1 && Parent(k) == j && Parent(j) < |q| ==> q[Parent(j)].priority <= q[k].priority)
  }

  /** A heap in its first n places but for the item at i, which may be too large for its place. */
  ghost predicate HeapAbove(q: seq<CellItem>, i: nat, n: nat)
    requires n <= |q|
  {
    && (forall k :: 1 <= k < n && Parent(k) != i ==> q[Parent(k)].priority <= q[k].priority)
    && (forall k :: 1 <= k < n && i >= 1 && Parent(k) == i && Parent(i) < n ==> q[Parent(i)].priority <= q[k].priority)
  }

  lemma {:induction false} RootIsLeast(q: seq<CellItem>, k: nat)
    requires Heap(q) && k < |q|
    ensures q[0].priority <= q[k].priority
    decreases k
  {
    if k > 0 {
      RootIsLeast(q, Parent(k));
    }
  }

  function Swapped<T>(q: seq<T>, i: nat, j: nat): (r: seq<T>)
    requires i < |q| && j < |q|
    ensures |r| == |q|
  {
    q[i := q[j]][j := q[i]]
  }

  lemma SwappedIs<T>(q: seq<T>, i: nat, j: nat)
    requires i < |q| && j < |q|
    ensures multiset(Swapped(q, i, j)) == multiset(q)
    ensures forall x :: x in Swapped(q, i, j) ==> x in q
    ensures forall k :: 0 <= k < |q| ==> Swapped(q, i, j)[k] == if k == i then q[j] else if k == j then q[i] else q[k]
  {
  }

  /** Moving an item up past a larger parent. */
  lemma UpStep(q: seq<CellItem>, j: nat)
    requires 1 <= j < |q| && HeapBut(q, j) && q[j].priority < q[Parent(j)].priority
    ensures HeapBut(Swapped(q, Parent(j), j), Parent(j))
  {
    var i := Parent(j);
    var r := Swapped(q, i, j);
    SwappedIs(q, i, j);
    forall k | 1 <= k < |r| && k != i ensures r[Parent(k)].priority <= r[k].priority {
      if k == j {
      } else if Parent(k) == j {
      } else if Parent(k) == i {
        assert q[i].priority <= q[k].priority;
      }
    }
    forall k | 1 <= k < |r| && i >= 1 && Parent(k) == i && Parent(i) < |r| ensures r[Parent(i)].priority <= r[k].priority {
      assert q[Parent(i)].priority <= q[i].priority;
    }
  }

  /** Moving an item down past its smaller child. */
  lemma DownStep(q: seq<CellItem>, i: nat, j: nat, n: nat)
    requires i < j < n <= |q| && Parent(j) == i && HeapAbove(q, i, n) && q[j].priority < q[i].priority
    requires forall k :: 1 <= k < n && Parent(k) == i ==> q[j].priority <= q[k].priority
    ensures HeapAbove(Swapped(q, i, j), j, n)
  {
    var r := Swapped(q, i, j);
    SwappedIs(q, i, j);
    forall k | 1 <= k < n && Parent(k) != j ensures r[Parent(k)].priority <= r[k].priority {
      if k == i {
        assert q[Parent(i)].priority <= q[j].priority;
      } else if Parent(k) == i && k != j {
        assert q[j].priority <= q[k].priority;
      }
    }
    forall k | 1 <= k < n && j >= 1 && Parent(k) == j && Parent(j) < n ensures r[Parent(j)].priority <= r[k].priority {
      assert q[Parent(k)].priority <= q[k].priority;
    }
  }

  // ---------- what a scheduler holds, in the order of scheduling ----------

  datatype Entry = Entry(cell: Cell, priority: int)

  function Taken(pending: seq<Entry>, k: nat): seq<Entry>
    requires k < |pending|
  {
    pending[..k] + pending[k + 1..]
  }

  /** GetNextCell may answer with the k-th entry: it is due, and none has a lower priority. */
  ghost predicate MayTake(pending: seq<Entry>, now: int, k: nat) {
    && k < |pending| && pending[k].priority <= now
    && forall j :: 0 <= j < |pending| ==> pending[k].priority <= pending[j].priority
  }

  /** It answers nil exactly when nothing is due. */
  ghost predicate NoneDue(pending: seq<Entry>, now: int) {
    forall j :: 0 <= j < |pending| ==> now < pending[j].priority
  }

  // ---------- the object ----------

  class Scheduler {
    var queue: seq<CellItem>
    var probingInterval: int
    const clock: nat -> int
    var tick: nat
    ghost var items: seq<CellItem>      // the same items, in the order they were scheduled

    ghost predicate Indexed()
      reads this, queue
    {
      forall i :: 0 <= i < |queue| ==> queue[i].index == i
    }

    ghost predicate Valid()
      reads this, queue
    {
      Indexed() && Heap(queue) && multiset(items) == multiset(queue)
    }

    ghost function Pending(): (p: seq<Entry>)
      reads this
      ensures |p| == |items|
    {
      seq(|items|, i requires 0 <= i < |items| reads this => Entry(items[i].cell, items[i].priority))
    }

    constructor (clock: nat -> int, probingInterval: int)
      ensures Valid() && items == [] && Pending() == [] && tick == 0 && this.clock == clock && this.probingInterval == probingInterval
    {
      this.clock, this.probingInterval, tick := clock, probingInterval, 0;
      queue, items := [], [];
    }

    method Less(i: nat, j: nat) returns (r: bool)
      requires i < |queue| && j < |queue|
      ensures r <==> queue[i].priority < queue[j].priority
    {
      r := queue[i].priority < queue[j].priority;
    }

    method Swap(i: nat, j: nat, ghost repr: set<CellItem>)
      requires i < |queue| && j < |queue| && Indexed() && Within(queue, repr)
      modifies this`queue, repr
      ensures queue == Swapped(old(queue), i, j) && Indexed()
    {
      SwappedIs(queue, i, j);
      queue := Swapped(queue, i, j);
      queue[i].index := i;
      queue[j].index := j;
    }

    /** All in order but the item at j, which may have to rise. */
    ghost predicate Rising(j: nat, before: seq<CellItem>, repr: set<CellItem>)
      reads this, queue
    {
      j < |queue| && Indexed() && HeapBut(queue, j) && multiset(queue) == multiset(before) && Within(queue, repr)
    }

    method Rise(j: nat, ghost before: seq<CellItem>, ghost repr: set<CellItem>)
      requires j >= 1 && Rising(j, before, repr) && queue[j].priority < queue[Parent(j)].priority
      modifies this`queue, repr
      ensures Rising(Parent(j), before, repr)
    {
      UpStep(queue, j);
      SwappedIs(queue, Parent(j), j);
      Swap(Parent(j), j, repr);
    }

    /** up of container/heap. */
    method Up(start: nat, ghost repr: set<CellItem>)
      requires start < |queue| && Indexed() && HeapBut(queue, start) && Within(queue, repr)
      modifies this`queue, repr
      ensures Indexed() && Heap(queue) && multiset(queue) == multiset(old(queue)) && Within(queue, repr)
    {
      var j: nat := start;
      while j > 0
        invariant Rising(j, old(queue), repr)
        decreases j
      {
        var less := Less(j, Parent(j));
        if !less {
          break;
        }
        Rise(j, old(queue), repr);
        j := Parent(j);
      }
    }

    /** The smaller child of a place; none when it is a leaf. */
    method SmallerChild(i: nat, n: nat) returns (j: nat)
      requires i < n <= |queue|
      ensures j > i && (j < n ==> Parent(j) == i)
      ensures j >= n ==> forall k :: 1 <= k < n ==> Parent(k) != i
      ensures j < n ==> forall k :: 1 <= k < n && Parent(k) == i ==> queue[j].priority <= queue[k].priority
    {
      j := 2 * i + 1;
      if j >= n {
        return;
      }
      if j + 1 < n {
        var less := Less(j + 1, j);
        if less {
          j := j + 1;
        }
      }
    }

    /** All in order in the first n places but the item at i, which may have to sink; the one at n stays. */
    ghost predicate Sinking(i: nat, n: nat, before: seq<CellItem>, repr: set<CellItem>)
      reads this, queue
    {
      && n < |queue| && n < |before| && Indexed() && HeapAbove(queue, i, n)
      && multiset(queue) == multiset(before) && Within(queue, repr) && queue[n] == before[n]
    }

    method Sink(i: nat, j: nat, n: nat, ghost before: seq<CellItem>, ghost repr: set<CellItem>)
      requires Sinking(i, n, before, repr) && i < j < n && Parent(j) == i && queue[j].priority < queue[i].priority
      requires forall k :: 1 <= k < n && Parent(k) == i ==> queue[j].priority <= queue[k].priority
      modifies this`queue, repr
      ensures Sinking(j, n, before, repr)
    {
      DownStep(queue, i, j, n);
      SwappedIs(queue, i, j);
      Swap(i, j, repr);
    }

    /** down of container/heap, over the first n places. */
    method Down(n: nat, ghost repr: set<CellItem>)
      requires n < |queue| && Indexed() && HeapAbove(queue, 0, n) && Within(queue, repr)
      modifies this`queue, repr
      ensures Indexed() && |queue| > n && Heap(queue[..n]) && multiset(queue) == multiset(old(queue)) && queue[n] == old(queue[n])
      ensures Within(queue, repr)
    {
      var i: nat := 0;
      while i < n
        invariant Sinking(i, n, old(queue), repr)
        decreases n - i
      {
        var j := SmallerChild(i, n);
        if j >= n {
          break;
        }
        var less := Less(j, i);
        if !less {
          break;
        }
        Sink(i, j, n, old(queue), repr);
        i := j;
      }
    }

    /** heap.Push */
    method Push(item: CellItem)
      requires Valid() && item !in queue
      modifies this`queue, this`items, queue, item
      ensures Valid() && items == old(items) + [item] && Within(queue, (set x | x in old(queue)) + {item})
    {
      ghost var repr := (set x | x in queue) + {item};
      item.index := |queue|;
      queue := queue + [item];
      items := items + [item];
      Up(|queue| - 1, repr);
    }

    /** The root trades places with the last item, and the new root sinks. */
    method RootToEnd(n: nat, ghost repr: set<CellItem>)
      requires n + 1 == |queue| && Indexed() && Heap(queue) && Within(queue, repr)
      modifies this`queue, repr
      ensures Indexed() && |queue| > n && Heap(queue[..n]) && multiset(queue) == multiset(old(queue)) && Within(queue, repr)
      ensures |queue| == n + 1 && queue[n] == old(queue[0])
    {
      ghost var start := queue;
      SwappedIs(queue, 0, n);
      Swap(0, n, repr);
      SwappedHeap(start, n);
      Down(n, repr);
      SameLength(queue, start);
    }

    /** heap.Pop; k is where the popped item stood in the order of scheduling. */
    method Pop() returns (item: CellItem, ghost k: nat)
      requires Valid() && |queue| > 0
      modifies this`queue, this`items, queue
      ensures Valid() && item == old(queue[0]) && item.index == -1
      ensures k < |old(items)| && old(items)[k] == item && items == old(items[..k]) + old(items[k + 1..])
      ensures Within(queue, set x | x in old(queue))
    {
      var n := |queue| - 1;
      ghost var repr := set x | x in queue;
      k := Find(items, queue, 0);
      RootToEnd(n, repr);
      ghost var whole := queue;
      item := CutLast();
      assert whole == queue + [item];
      PopIs(items, k, queue);
      items := items[..k] + items[k + 1..];
    }

    /** Pop of the queue itself: the last item leaves, its index set to -1. */
    method CutLast() returns (item: CellItem)
      requires queue != [] && Indexed()
      modifies this`queue, queue[|queue| - 1]
      ensures item == old(queue[|queue| - 1]) && item.index == -1 && queue == old(queue[..|queue| - 1]) && Indexed()
    {
      var n := |queue| - 1;
      item := queue[n];
      assert forall i :: 0 <= i < n ==> queue[i].index != queue[n].index;
      item.index := -1;
      queue := queue[..n];
    }

    method Time() returns (now: int)
      modifies this`tick
      ensures now == clock(old(tick)) && tick == old(tick) + 1
    {
      now := clock(tick);
      tick := tick + 1;
    }

    /** A dummy is due only after the probing interval; its clock is read a second time. */
    method ScheduleCell(cell: Cell)
      requires Valid()
      modifies this`queue, this`items, this`tick, queue
      ensures Valid() && forall x :: x in queue ==> x in old(queue) || fresh(x)
      ensures tick == old(tick) + (if cell.typ == TYPE_DUMMY then 2 else 1)
      ensures Pending() == old(Pending()) + [Entry(cell, clock(tick - 1) + if cell.typ == TYPE_DUMMY then probingInterval else 0)]
    {
      var priority := Time();
      if cell.typ == TYPE_DUMMY {
        priority := Time();
        priority := priority + probingInterval;
      }
      var item := new CellItem(cell, priority);
      Push(item);
    }

    /** The root, if it is due. */
    method GetNextCell() returns (r: Option<Cell>)
      requires Valid()
      modifies this`queue, this`items, this`tick, queue
      ensures Valid() && forall x :: x in queue ==> x in old(queue)
      ensures tick == if old(items) == [] then old(tick) else old(tick) + 1
      ensures match r
        case None => Pending() == old(Pending()) && NoneDue(Pending(), clock(old(tick)))
        case Some(cell) =>
          exists k: nat ::
            MayTake(old(Pending()), clock(old(tick)), k) && cell == old(Pending())[k].cell && Pending() == Taken(old(Pending()), k)
    {
      ghost var before := Pending();
      SameLength(items, queue);
      if |queue| == 0 {
        return None;
      }
      var item := queue[0];
      var now := Time();
      if now < item.priority {
        NothingDue(queue, items, now);
        return None;
      }
      LeastOfAll(queue, items);
      var popped, k := Pop();
      assert before[k] == Entry(item.cell, item.priority);
      assert MayTake(before, now, k);
      assert Pending() == Taken(before, k);
      return Some(item.cell);
    }
  }

  ghost predicate Within(q: seq<CellItem>, repr: set<CellItem>) { forall i :: 0 <= i < |q| ==> q[i] in repr }

  lemma SameObjects(a: seq<CellItem>, b: seq<CellItem>)
    requires multiset(a) == multiset(b)
    ensures forall x :: x in a <==> x in b
  {
    assert forall x :: x in a <==> x in multiset(a);
    assert forall x :: x in b <==> x in multiset(b);
  }

  lemma SameLength(a: seq<CellItem>, b: seq<CellItem>)
    requires multiset(a) == multiset(b)
    ensures |a| == |b|
  {
    assert |multiset(a)| == |a| && |multiset(b)| == |b|;
  }

  /** Where an item of the heap stands in the order of scheduling. */
  lemma Find(items: seq<CellItem>, q: seq<CellItem>, i: nat) returns (k: nat)
    requires i < |q| && multiset(items) == multiset(q)
    ensures k < |items| && items[k] == q[i]
  {
    SameObjects(items, q);
    assert q[i] in q;
    assert q[i] in items;
    k :| 0 <= k < |items| && items[k] == q[i];
  }

  /** With the root at the end, the rest is a heap but for its new root. */
  lemma SwappedHeap(q: seq<CellItem>, n: nat)
    requires Heap(q) && n + 1 == |q|
    ensures HeapAbove(Swapped(q, 0, n), 0, n)
  {
    SwappedIs(q, 0, n);
  }

  /** One item leaves the heap; the same one is cut out of the other list. */
  lemma PopIs(items: seq<CellItem>, k: nat, rest: seq<CellItem>)
    requires k < |items| && multiset(items) == multiset(rest + [items[k]])
    ensures multiset(items[..k] + items[k + 1..]) == multiset(rest)
  {
    var x := items[k];
    assert items == items[..k] + [x] + items[k + 1..];
    assert multiset(items) == multiset(items[..k] + items[k + 1..]) + multiset{x};
    assert multiset(rest + [x]) == multiset(rest) + multiset{x};
    assert multiset(items[..k] + items[k + 1..]) == multiset(items) - multiset{x};
    assert multiset(rest) == multiset(rest + [x]) - multiset{x};
  }

  lemma LeastOfAll(q: seq<CellItem>, items: seq<CellItem>)
    requires Heap(q) && q != [] && multiset(items) == multiset(q)
    ensures forall j :: 0 <= j < |items| ==> q[0].priority <= items[j].priority
  {
    SameObjects(items, q);
    forall j | 0 <= j < |items| ensures q[0].priority <= items[j].priority {
      assert items[j] in q;
      var k :| 0 <= k < |q| && q[k] == items[j];
      RootIsLeast(q, k);
    }
  }

  lemma NothingDue(q: seq<CellItem>, items: seq<CellItem>, now: int)
    requires Heap(q) && q != [] && multiset(items) == multiset(q) && now < q[0].priority
    ensures forall j :: 0 <= j < |items| ==> now < items[j].priority
  {
    LeastOfAll(q, items);
  }
}
