/** The client's session cache with least-recently-used eviction (lruSessionCache). */
module LruCache {
  import opened Outcomes

  const DEFAULT_CAPACITY: nat := 64

  /** What the cache holds, most recently used first. None stands for a nil state. */
  datatype Item<S> = Item(key: string, state: Option<S>)
  type Contents<S> = seq<Item<S>>

  /** Where a key stands; the length when it is absent. */
  function Position<S>(c: Contents<S>, key: string): (i: nat)
    ensures i <= |c| && (i < |c| ==> c[i].key == key) && forall j :: 0 <= j < i ==> c[j].key != key
  {
    if c == [] then 0 else if c[0].key == key then 0 else 1 + Position(c[1..], key)
  }

  predicate Has<S>(c: Contents<S>, key: string) { Position(c, key) < |c| }


  function Dropped<T>(s: seq<T>, i: nat): seq<T>
    requires i < |s|
  {
    s[..i] + s[i + 1..]
  }

  function Moved<T>(s: seq<T>, i: nat): seq<T>
    requires i < |s|
  {
    [s[i]] + Dropped(s, i)
  }

  /**
    Put. Only a key that is present can be removed: with nil for an absent key the source adds an
    entry that holds nil, evicting another one if the cache is full.
   */
  function PutInto<S>(c: Contents<S>, capacity: nat, key: string, state: Option<S>): Contents<S>
    requires capacity >= 1 && |c| <= capacity
  {
    var i := Position(c, key);
    if i < |c| then if state.None? then Dropped(c, i) else [Item(key, state)] + Dropped(c, i)
    else [Item(key, state)] + if |c| < capacity then c else c[..|c| - 1]
  }

  /** Get makes what it finds the most recently used. */
  function GetFrom<S>(c: Contents<S>, key: string): (Contents<S>, Option<Option<S>>) {
    var i := Position(c, key);
    if i < |c| then ([c[i]] + Dropped(c, i), Some(c[i].state)) else (c, None)
  }

  /** What Get would answer. */
  function Find<S>(c: Contents<S>, key: string): Option<Option<S>> { GetFrom(c, key).1 }

  ghost predicate DistinctKeys<S>(c: Contents<S>) { forall i, j :: 0 <= i < j < |c| ==> c[i].key != c[j].key }

  lemma PositionIs<S>(c: Contents<S>, key: string, i: nat)
    requires DistinctKeys(c) && i < |c| && c[i].key == key
    ensures Position(c, key) == i
  {
    var k := Position(c, key);
    assert k <= i;
  }

  /** The documentation says nil removes the entry; it is gone afterwards exactly when it was there before. */
  lemma NilRemovesOnlyPresentKeys<S>(c: Contents<S>, capacity: nat, key: string)
    requires capacity >= 1 && |c| <= capacity && DistinctKeys(c)
    ensures Find(PutInto(c, capacity, key, None), key) == None <==> Has(c, key)
    ensures !Has(c, key) ==> Find(PutInto(c, capacity, key, None), key) == Some(None)
  {
    var c1 := PutInto(c, capacity, key, None);
    var i := Position(c, key);
    if i < |c| {
      forall j | 0 <= j < |c1| ensures c1[j].key != key {
        assert c1[j] == if j < i then c[j] else c[j + 1];
      }
      assert Position(c1, key) == |c1|;
    } else {
      assert c1[0].key == key;
    }
  }

  /** What Put stores is found, at the front. */
  lemma PutStores<S>(c: Contents<S>, capacity: nat, key: string, state: S)
    requires capacity >= 1 && |c| <= capacity
    ensures var c1 := PutInto(c, capacity, key, Some(state));
      c1 != [] && c1[0] == Item(key, Some(state)) && Find(c1, key) == Some(Some(state))
  {
  }

  // ---------- runs ----------

  datatype Operation<S> = DoPut(key: string, state: Option<S>) | DoGet(key: string)

  function Do<S>(c: Contents<S>, capacity: nat, op: Operation<S>): Contents<S>
    requires capacity >= 1 && |c| <= capacity
  {
    match op
    case DoPut(key, state) => PutInto(c, capacity, key, state)
    case DoGet(key) => GetFrom(c, key).0
  }

  lemma DoKeeps<S>(c: Contents<S>, capacity: nat, op: Operation<S>)
    requires capacity >= 1 && |c| <= capacity && DistinctKeys(c)
    ensures |Do(c, capacity, op)| <= capacity && DistinctKeys(Do(c, capacity, op))
  {
    var i := Position(c, op.key);
    if i < |c| {
      WithoutDistinct(c, i);
      FrontDistinct(if op.DoPut? then Item(op.key, op.state) else c[i], Dropped(c, i));
    } else if op.DoPut? {
      FrontDistinct(Item(op.key, op.state), if |c| < capacity then c else c[..|c| - 1]);
    }
  }

  lemma WithoutDistinct<S>(c: Contents<S>, i: nat)
    requires DistinctKeys(c) && i < |c|
    ensures DistinctKeys(Dropped(c, i)) && forall j :: 0 <= j < |Dropped(c, i)| ==> Dropped(c, i)[j].key != c[i].key
  {
    var r := Dropped(c, i);
    forall j, k | 0 <= j < k < |r| ensures r[j].key != r[k].key {
      assert r[j] == c[if j < i then j else j + 1] && r[k] == c[if k < i then k else k + 1];
    }
  }

  lemma FrontDistinct<S>(item: Item<S>, c: Contents<S>)
    requires DistinctKeys(c) && forall j :: 0 <= j < |c| ==> c[j].key != item.key
    ensures DistinctKeys([item] + c)
  {
  }

  /** The cache after a run, which never grows beyond its capacity. */
  function Run<S>(c: Contents<S>, capacity: nat, ops: seq<Operation<S>>): (r: Contents<S>)
    requires capacity >= 1 && |c| <= capacity && DistinctKeys(c)
    ensures |r| <= capacity && DistinctKeys(r)
    decreases |ops|
  {
    if ops == [] then c
    else
      DoKeeps(c, capacity, ops[0]);
      Run(Do(c, capacity, ops[0]), capacity, ops[1..])
  }

  function Touched<S>(ops: seq<Operation<S>>): set<string> { set i | 0 <= i < |ops| :: ops[i].key }

  /** Only keys of this set stand in front of position i. */
  ghost predicate BehindOnly<S>(c: Contents<S>, i: nat, keys: set<string>)
    requires i <= |c|
  {
    forall j :: 0 <= j < i ==> c[j].key in keys
  }

  /** Distinct keys in front are no more than the set has. */
  lemma {:induction false} FewInFront<S>(c: Contents<S>, i: nat, keys: set<string>)
    requires DistinctKeys(c) && i <= |c| && BehindOnly(c, i, keys)
    ensures i <= |keys|
    decreases i
  {
    if i > 0 {
      FewInFront(c, i - 1, keys - {c[i - 1].key});
    }
  }

  /** Another key's operation: the item moves back by at most that key, and is not evicted while fewer keys than the capacity have passed it. */
  lemma OthersPass<S>(c: Contents<S>, capacity: nat, op: Operation<S>, i: nat, keys: set<string>) returns (i1: nat)
    requires capacity >= 1 && |c| <= capacity && DistinctKeys(c)
    requires i < |c| && op.key != c[i].key && BehindOnly(c, i, keys) && |keys + {op.key}| < capacity
    ensures var c1 := Do(c, capacity, op);
      i1 < |c1| && c1[i1] == c[i] && BehindOnly(c1, i1, keys + {op.key})
  {
    var p := Position(c, op.key);
    if p == |c| {
      if op.DoPut? {
        NewKey(c, i, keys, op.key);
        i1 := PassedByNew(c, Item(op.key, op.state), i, keys, if |c| < capacity then c else c[..|c| - 1]);
      } else {
        i1 := i;
      }
    } else if op.DoPut? && op.state.None? {
      i1 := PassedByRemoval(c, i, p, keys + {op.key});
    } else {
      i1 := PassedByMove(c, i, p, if op.DoPut? then Item(op.key, op.state) else c[p], keys);
    }
  }

  lemma PassedByNew<S>(c: Contents<S>, item: Item<S>, i: nat, keys: set<string>, rest: Contents<S>) returns (i1: nat)
    requires i < |rest| <= |c| && rest == c[..|rest|] && BehindOnly(c, i, keys)
    ensures i1 == i + 1 && ([item] + rest)[i1] == c[i] && BehindOnly([item] + rest, i1, keys + {item.key})
  {
    i1 := i + 1;
    var c1 := [item] + rest;
    forall j | 0 <= j < i1 ensures c1[j].key in keys + {item.key} {
      assert j > 0 ==> c1[j] == c[j - 1];
    }
  }

  lemma PassedByRemoval<S>(c: Contents<S>, i: nat, p: nat, keys: set<string>) returns (i1: nat)
    requires i < |c| && p < |c| && p != i && forall j :: 0 <= j < i && j != p ==> c[j].key in keys
    ensures i1 < |c| - 1 && Dropped(c, p)[i1] == c[i] && BehindOnly(Dropped(c, p), i1, keys)
  {
    i1 := if p < i then i - 1 else i;
    var c1 := Dropped(c, p);
    forall j | 0 <= j < i1 ensures c1[j].key in keys {
      assert c1[j] == if j < p then c[j] else c[j + 1];
    }
  }

  lemma PassedByMove<S>(c: Contents<S>, i: nat, p: nat, item: Item<S>, keys: set<string>) returns (i1: nat)
    requires i < |c| && p < |c| && p != i && BehindOnly(c, i, keys)
    ensures i1 < |c| && ([item] + Dropped(c, p))[i1] == c[i] && BehindOnly([item] + Dropped(c, p), i1, keys + {item.key})
  {
    var i0 := PassedByRemoval(c, i, p, keys);
    i1 := i0 + 1;
    var c0 := Dropped(c, p);
    forall j | 0 <= j < i1 ensures ([item] + c0)[j].key in keys + {item.key} {
      assert j > 0 ==> ([item] + c0)[j] == c0[j - 1];
    }
  }

  /** A key that is not in the cache is not among those in front either, so the set has one more than i. */
  lemma NewKey<S>(c: Contents<S>, i: nat, keys: set<string>, key: string)
    requires DistinctKeys(c) && i < |c| && BehindOnly(c, i, keys) && Position(c, key) == |c|
    ensures i + 1 <= |keys + {key}|
  {
    var front := keys - {key};
    assert BehindOnly(c, i, front);
    FewInFront(c, i, front);
    assert keys + {key} == front + {key};
  }

  /**
    A session stays, with its state, through any run that leaves its key alone and touches fewer
    other keys than the cache has room for beside it.
   */
  lemma {:induction false} Retained<S>(c: Contents<S>, capacity: nat, ops: seq<Operation<S>>, i: nat, keys: set<string>)
    requires capacity >= 1 && |c| <= capacity && DistinctKeys(c)
    requires i < |c| && BehindOnly(c, i, keys)
    requires c[i].key !in Touched(ops) && |keys + Touched(ops)| < capacity
    ensures Find(Run(c, capacity, ops), c[i].key) == Some(c[i].state)
    decreases |ops|
  {
    if ops == [] {
      PositionIs(c, c[i].key, i);
    } else {
      TouchedSplits(ops);
      Smaller(keys + {ops[0].key}, keys + Touched(ops));
      var i1 := OthersPass(c, capacity, ops[0], i, keys);
      DoKeeps(c, capacity, ops[0]);
      assert keys + {ops[0].key} + Touched(ops[1..]) == keys + Touched(ops);
      Retained(Do(c, capacity, ops[0]), capacity, ops[1..], i1, keys + {ops[0].key});
    }
  }

  lemma TouchedSplits<S>(ops: seq<Operation<S>>)
    requires ops != []
    ensures Touched(ops) == {ops[0].key} + Touched(ops[1..])
  {
    assert forall k :: 0 <= k < |ops| - 1 ==> ops[1..][k].key == ops[k + 1].key;
    forall x | x in Touched(ops) ensures x in {ops[0].key} + Touched(ops[1..]) {
      var k :| 0 <= k < |ops| && ops[k].key == x;
      assert k > 0 ==> ops[1..][k - 1].key == x;
    }
  }

  lemma {:induction false} Smaller(a: set<string>, b: set<string>)
    requires a <= b
    ensures |a| <= |b|
  {
    if a != {} {
      var x :| x in a;
      Smaller(a - {x}, b - {x});
    }
  }

  /** The same from the Put that stored it. */
  lemma StoredSessionsStay<S>(c: Contents<S>, capacity: nat, key: string, state: S, ops: seq<Operation<S>>)
    requires capacity >= 1 && |c| <= capacity && DistinctKeys(c)
    requires key !in Touched(ops) && |Touched(ops)| < capacity
    ensures Find(Run(c, capacity, [DoPut(key, Some(state))] + ops), key) == Some(Some(state))
  {
    var all := [DoPut(key, Some(state))] + ops;
    assert all[0] == DoPut(key, Some(state)) && all[1..] == ops;
    DoKeeps(c, capacity, all[0]);
    var c1 := PutInto(c, capacity, key, Some(state));
    PutStores(c, capacity, key, state);
    assert {} + Touched(ops) == Touched(ops);
    Retained(c1, capacity, ops, 0, {});
  }

  // ---------- the object ----------

  /** A list element; the cache reuses it when it evicts. */
  class Entry<S> {
    var sessionKey: string
    var state: Option<S>
    constructor (sessionKey: string, state: Option<S>)
      ensures this.sessionKey == sessionKey && this.state == state
    {
      this.sessionKey, this.state := sessionKey, state;
    }
  }

  /** Where the j-th element of what is left was. */
  function Before(i: nat, j: nat): nat { if j < i then j else j + 1 }

  lemma DroppedIs<T>(s: seq<T>, i: nat)
    requires i < |s|
    ensures forall j :: 0 <= j < |s| - 1 ==> Dropped(s, i)[j] == s[Before(i, j)]
    ensures forall x :: x in Dropped(s, i) ==> x in s
    ensures forall x :: x in s && x != s[i] ==> x in Dropped(s, i)
  {
    forall x | x in s && x != s[i] ensures x in Dropped(s, i) {
      var j :| 0 <= j < |s| && s[j] == x;
      assert Dropped(s, i)[if j < i then j else j - 1] == x;
    }
  }

  lemma MovedIs<T>(s: seq<T>, i: nat)
    requires i < |s|
    ensures Moved(s, i)[0] == s[i]
    ensures forall j :: 1 <= j < |s| ==> Moved(s, i)[j] == s[Before(i, j - 1)]
    ensures forall x :: x in s <==> x in Moved(s, i)
  {
    DroppedIs(s, i);
    forall j | 1 <= j < |s| ensures Moved(s, i)[j] == s[Before(i, j - 1)] {
      assert Moved(s, i)[j] == Dropped(s, i)[j - 1];
    }
  }

  class LruSessionCache<S> {
    var m: map<string, Entry<S>>
    var q: seq<Entry<S>>          // front first
    const capacity: nat
    ghost var contents: Contents<S>

    /** The list holds what it should, and the map points at exactly its elements. */
    ghost predicate Valid()
      reads this, q
    {
      && capacity >= 1 && |q| <= capacity && |contents| == |q|
      && (forall i, j :: 0 <= i < j < |q| ==> q[i] != q[j])
      && (forall i :: 0 <= i < |q| ==> contents[i] == Item(q[i].sessionKey, q[i].state))
      && (forall i :: 0 <= i < |q| ==> q[i].sessionKey in m && m[q[i].sessionKey] == q[i])
      && (forall k :: k in m ==> m[k] in q && m[k].sessionKey == k)
    }

    constructor (capacity: int)
      ensures Valid() && contents == [] && this.capacity == if capacity < 1 then DEFAULT_CAPACITY else capacity
    {
      this.capacity := if capacity < 1 then DEFAULT_CAPACITY else capacity;
      m, q, contents := map[], [], [];
    }

    lemma Distinct()
      requires Valid()
      ensures DistinctKeys(contents)
    {
    }

    /** Finds an element of the list that the map points at; that is where its key stands. */
    method Locate(key: string) returns (i: nat)
      requires Valid() && key in m
      ensures i < |q| && q[i] == m[key] && Position(contents, key) == i
    {
      ghost var k :| 0 <= k < |q| && q[k] == m[key];
      i := 0;
      while q[i] != m[key]
        invariant i <= k && forall j :: 0 <= j < i ==> q[j] != m[key]
        decreases k - i
      {
        i := i + 1;
      }
      Distinct();
      PositionIs(contents, key, i);
    }

    lemma Missing(key: string)
      requires Valid() && key !in m
      ensures Position(contents, key) == |q|
    {
      assert forall i :: 0 <= i < |q| ==> contents[i].key in m;
    }

    method MoveToFront(i: nat)
      requires Valid() && i < |q|
      modifies this`q, this`contents
      ensures Valid() && contents == Moved(old(contents), i)
      ensures forall e :: e in q <==> e in old(q)
    {
      MovedIs(q, i);
      MovedIs(contents, i);
      q := Moved(q, i);
      contents := Moved(contents, i);
    }

    method Remove(i: nat)
      requires Valid() && i < |q|
      modifies this
      ensures Valid() && contents == Dropped(old(contents), i)
      ensures forall e :: e in q ==> e in old(q)
    {
      DroppedIs(q, i);
      DroppedIs(contents, i);
      m := m - {q[i].sessionKey};
      q := Dropped(q, i);
      contents := Dropped(contents, i);
    }

    method SetState(i: nat, state: Option<S>)
      requires Valid() && i < |q|
      modifies this`contents, q[i]
      ensures Valid() && contents == old(contents)[i := Item(old(contents[i]).key, state)]
    {
      q[i].state := state;
      contents := contents[i := Item(contents[i].key, state)];
    }

    method Insert(sessionKey: string, cs: Option<S>)
      requires Valid() && sessionKey !in m && |q| < capacity
      modifies this
      ensures Valid() && contents == [Item(sessionKey, cs)] + old(contents)
      ensures forall e :: e in q ==> e in old(q) || fresh(e)
    {
      var entry := new Entry(sessionKey, cs);
      q := [entry] + q;
      m := m[sessionKey := entry];
      contents := [Item(sessionKey, cs)] + contents;
    }

    /** The last element of a full list is given the new key and state. */
    method Reuse(sessionKey: string, cs: Option<S>)
      requires Valid() && sessionKey !in m && |q| == capacity
      modifies this`m, this`contents, q
      ensures Valid() && contents == old(contents)[|q| - 1 := Item(sessionKey, cs)]
    {
      var elem := q[|q| - 1];
      m := m - {elem.sessionKey};
      elem.sessionKey := sessionKey;
      elem.state := cs;
      m := m[sessionKey := elem];
      contents := contents[|q| - 1 := Item(sessionKey, cs)];
    }

    method Update(i: nat, state: Option<S>)
      requires Valid() && i < |q|
      modifies this`q, this`contents, q[i]
      ensures Valid() && contents == [Item(old(contents[i]).key, state)] + Dropped(old(contents), i)
      ensures forall e :: e in q <==> e in old(q)
    {
      ghost var before := contents;
      SetState(i, state);
      MoveToFront(i);
      assert Dropped(before[i := Item(before[i].key, state)], i) == Dropped(before, i);
    }

    method Evict(sessionKey: string, cs: Option<S>)
      requires Valid() && sessionKey !in m && |q| == capacity
      modifies this, q
      ensures Valid() && contents == [Item(sessionKey, cs)] + old(contents)[..|old(contents)| - 1]
      ensures forall e :: e in q <==> e in old(q)
    {
      ghost var before := contents;
      Reuse(sessionKey, cs);
      MoveToFront(|q| - 1);
      assert Dropped(before[|before| - 1 := Item(sessionKey, cs)], |before| - 1) == before[..|before| - 1];
    }

    method Put(sessionKey: string, cs: Option<S>)
      requires Valid()
      modifies this, q
      ensures Valid() && contents == PutInto(old(contents), capacity, sessionKey, cs)
      ensures forall e :: e in q ==> e in old(q) || fresh(e)
    {
      if sessionKey in m {
        var i := Locate(sessionKey);
        if cs.None? {
          Remove(i);
        } else {
          Update(i, cs);
        }
        return;
      }
      Missing(sessionKey);
      if |q| < capacity {
        Insert(sessionKey, cs);
        return;
      }
      Evict(sessionKey, cs);
    }

    method Get(sessionKey: string) returns (state: Option<S>, found: bool)
      requires Valid()
      modifies this`q, this`contents
      ensures Valid() && contents == GetFrom(old(contents), sessionKey).0
      ensures Find(old(contents), sessionKey) == if found then Some(state) else None
      ensures forall e :: e in q <==> e in old(q)
    {
      if sessionKey in m {
        var i := Locate(sessionKey);
        state, found := m[sessionKey].state, true;
        MoveToFront(i);
        return;
      }
      Missing(sessionKey);
      return None, false;
    }
  }
}
