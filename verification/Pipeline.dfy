/**
  One manager drained into another: messages are cut into cells, scheduled, sent, decoded, put
  together and read. The cells of cover traffic come in between. headerLen is the number of octets
  the decoder takes for the header; the source takes CELL_HEADER_LEN.
 */
module Pipeline {
  import opened Outcomes
  import opened Octets
  import opened Framing
  import opened Scheduling
  import opened Reassembly

  /** What the surroundings supply: samples, identifiers, clock readings. */
  datatype World = World(draw: nat -> Sample, ids: nat -> nat, clock: nat -> int, probingInterval: int)

  ghost predicate Sane(w: World) {
    && (forall i :: Usable(w.draw(i))) && (forall i :: w.ids(i) < UINT16)
    && (forall i: nat, j: nat :: i < j ==> w.clock(i) < w.clock(j))
  }

  /** The receiver's reassembler and what it has ready to be read. */
  datatype Receiver = Receiver(streams: Streams, inbound: bytes)

  datatype State = State(
    samples: nat, messages: nat, seqNo: nat,      // the sender's framer
    pending: seq<Entry>, tick: nat,               // its scheduler
    wire: seq<Cell>,                              // sent and not yet processed
    receiver: Receiver,
    queued: bytes, got: bytes)                    // all that was queued, all that was read

  datatype Event = Queue(data: bytes) | Cover(cell: Cell) | Send(choice: nat) | Deliver | Read

  const START: State := State(0, 0, 0, [], 0, [], Receiver(map[], []), [], [])

  function CellsFor(w: World, s: State, data: bytes): seq<Cell>
    requires Sane(w)
  {
    Fragment(w.draw, s.samples, w.ids(s.messages), s.seqNo, data)
  }

  /** Cells of data scheduled one after the other, each at the reading of that moment. */
  function ScheduleAll(w: World, pending: seq<Entry>, tick: nat, cells: seq<Cell>): seq<Entry>
    decreases |cells|
  {
    if cells == [] then pending
    else ScheduleAll(w, pending + [Entry(cells[0], w.clock(tick))], tick + 1, cells[1..])
  }

  /** ProcessInboundTraffic: only data goes to the reassembler; errors change nothing. */
  function Accept(headerLen: nat, r: Receiver, c: Cell): Receiver
    requires c.offset <= |c.padding|
  {
    match DecodeFrom(headerLen, Encode(c))
    case Fail(_) => r
    case Ok(cell) => if cell.typ != TYPE_DATA then r else AcceptData(r, cell)
  }

  function AcceptData(r: Receiver, cell: Cell): Receiver {
    match Process(r.streams, cell)
    case Rejected => r
    case Pending(streams) => Receiver(streams, r.inbound)
    case Complete(streams, payload) => Receiver(streams, r.inbound + payload)
  }

  /** What a receiver makes of an encoded cell, for every header length. */
  lemma Accepted(headerLen: nat, r: Receiver, c: Cell)
    requires Consistent(c)
    ensures Accept(headerLen, r, c) == if headerLen == ENCODED_HEADER_LEN && c.typ == TYPE_DATA then AcceptData(r, c) else r
  {
    DecodeUndoesEncode(headerLen, c);
  }

  /**
    Cover stands for the cover traffic loop. Send(k) is a call of GetOutboundTraffic for which the
    heap yields the k-th pending entry; one that yields nothing only reads the clock.
   */
  ghost function Step(w: World, headerLen: nat, s: State, e: Event): State
    requires Sane(w) && Encodable(s.wire)
  {
    match e
    case Queue(data) =>
      var cells := CellsFor(w, s, data);
      s.(samples := s.samples + |cells|, messages := s.messages + 1, seqNo := (s.seqNo + |cells|) % UINT32,
         pending := ScheduleAll(w, s.pending, s.tick, cells), tick := s.tick + |cells|, queued := s.queued + data)
    case Cover(cell) =>
      s.(pending := s.pending + [Entry(cell, w.clock(s.tick + 1) + w.probingInterval)], tick := s.tick + 2)
    case Send(k) =>
      if MayTake(s.pending, w.clock(s.tick), k)
      then s.(pending := Taken(s.pending, k), tick := s.tick + 1, wire := s.wire + [s.pending[k].cell])
      else s.(tick := s.tick + 1)
    case Deliver => if s.wire == [] then s else s.(wire := s.wire[1..], receiver := Accept(headerLen, s.receiver, s.wire[0]))
    case Read => s.(receiver := Receiver(s.receiver.streams, []), got := s.got + s.receiver.inbound)
  }

  ghost predicate Encodable(cells: seq<Cell>) { forall i :: 0 <= i < |cells| ==> Consistent(cells[i]) }

  /**
    The hypotheses about what is queued: every message is flagged, because its last sampled length
    overshoots, and every window offset lies in its padding. Cover cells are dummies that can be encoded.
   */
  ghost predicate Allowed(w: World, s: State, e: Event)
    requires Sane(w)
  {
    match e
    case Queue(data) => OffsetsFit(CellsFor(w, s, data)) && (data == [] || Flagged(CellsFor(w, s, data)))
    case Cover(cell) => cell.typ == TYPE_DUMMY && Consistent(cell)
    case _ => true
  }

  /** Whatever is scheduled or sent can be encoded. */
  ghost predicate Sound(s: State) { s.seqNo < UINT32 && AllPending(s.pending) && Encodable(s.wire) }

  ghost predicate AllPending(pending: seq<Entry>) { forall i :: 0 <= i < |pending| ==> Consistent(pending[i].cell) }

  lemma {:induction false} ScheduledPending(w: World, pending: seq<Entry>, tick: nat, cells: seq<Cell>)
    requires AllPending(pending) && Encodable(cells)
    ensures AllPending(ScheduleAll(w, pending, tick, cells))
    decreases |cells|
  {
    if cells != [] {
      ScheduledPending(w, pending + [Entry(cells[0], w.clock(tick))], tick + 1, cells[1..]);
    }
  }

  /** No allowed event puts a cell on the way that cannot be encoded. */
  lemma StepSound(w: World, headerLen: nat, s: State, e: Event)
    requires Sane(w) && Sound(s) && Allowed(w, s, e)
    ensures Sound(Step(w, headerLen, s, e))
  {
    if e.Queue? {
      CellsAreConsistent(w.draw, s.samples, w.ids(s.messages), s.seqNo, e.data);
      ScheduledPending(w, s.pending, s.tick, CellsFor(w, s, e.data));
    }
  }

  ghost predicate Reaches(w: World, headerLen: nat, s: State, events: seq<Event>, end: State)
    requires Sane(w) && Sound(s)
    decreases |events|
  {
    if events == [] then end == s
    else
      Allowed(w, s, events[0])
      && (StepSound(w, headerLen, s, events[0]);
          Reaches(w, headerLen, Step(w, headerLen, s, events[0]), events[1..], end))
  }

  // ---------- data in order ----------

  function DataOf(pending: seq<Entry>): seq<Cell> {
    if pending == [] then []
    else (if pending[0].cell.typ == TYPE_DATA then [pending[0].cell] else []) + DataOf(pending[1..])
  }

  function DataIn(cells: seq<Cell>): seq<Cell> {
    if cells == [] then [] else (if cells[0].typ == TYPE_DATA then [cells[0]] else []) + DataIn(cells[1..])
  }

  lemma {:induction false} DataOfAppend(a: seq<Entry>, b: seq<Entry>)
    ensures DataOf(a + b) == DataOf(a) + DataOf(b)
  {
    if a == [] {
      assert a + b == b;
    } else {
      assert (a + b)[1..] == a[1..] + b;
      DataOfAppend(a[1..], b);
      Regroup(if a[0].cell.typ == TYPE_DATA then [a[0].cell] else [], DataOf(a[1..]), DataOf(b));
    }
  }

  lemma {:induction false} DataInAppend(a: seq<Cell>, b: seq<Cell>)
    ensures DataIn(a + b) == DataIn(a) + DataIn(b)
  {
    if a == [] {
      assert a + b == b;
    } else {
      assert (a + b)[1..] == a[1..] + b;
      DataInAppend(a[1..], b);
      Regroup(if a[0].typ == TYPE_DATA then [a[0]] else [], DataIn(a[1..]), DataIn(b));
    }
  }

  lemma Regroup(a: seq<Cell>, b: seq<Cell>, c: seq<Cell>)
    ensures a + b + c == a + (b + c)
  {
  }

  /** Entries of data stand in the order of their priorities, all from readings already made. */
  ghost predicate Ordered(w: World, pending: seq<Entry>, tick: nat) {
    && (forall i, j :: 0 <= i < j < |pending| && pending[i].cell.typ == TYPE_DATA && pending[j].cell.typ == TYPE_DATA ==>
          pending[i].priority < pending[j].priority)
    && (forall i :: 0 <= i < |pending| && pending[i].cell.typ == TYPE_DATA ==> tick > 0 && pending[i].priority <= w.clock(tick - 1))
  }

  /** With no data in front of it, the taken cell of data is the first of all data. */
  lemma {:induction false} FirstData(pending: seq<Entry>, k: nat)
    requires k < |pending| && pending[k].cell.typ == TYPE_DATA
    requires forall i :: 0 <= i < k ==> pending[i].cell.typ != TYPE_DATA
    ensures DataOf(pending) == [pending[k].cell] + DataOf(Taken(pending, k))
    decreases k
  {
    if k > 0 {
      FirstData(pending[1..], k - 1);
      assert Taken(pending, k)[0] == pending[0] && Taken(pending, k)[1..] == Taken(pending[1..], k - 1);
    } else {
      assert Taken(pending, 0) == pending[1..];
    }
  }

  lemma {:induction false} DummyTaken(pending: seq<Entry>, k: nat)
    requires k < |pending| && pending[k].cell.typ != TYPE_DATA
    ensures DataOf(pending) == DataOf(Taken(pending, k))
    decreases k
  {
    if k > 0 {
      DummyTaken(pending[1..], k - 1);
      assert Taken(pending, k)[0] == pending[0] && Taken(pending, k)[1..] == Taken(pending[1..], k - 1);
    } else {
      assert Taken(pending, 0) == pending[1..];
    }
  }

  /** The scheduler yields data first in, first out. */
  lemma TakenInOrder(w: World, pending: seq<Entry>, tick: nat, now: int, k: nat)
    requires Ordered(w, pending, tick) && MayTake(pending, now, k)
    ensures DataOf(pending) == DataIn([pending[k].cell]) + DataOf(Taken(pending, k))
    ensures Ordered(w, Taken(pending, k), tick)
  {
    assert DataIn([pending[k].cell]) == if pending[k].cell.typ == TYPE_DATA then [pending[k].cell] else [];
    if pending[k].cell.typ == TYPE_DATA {
      FirstData(pending, k);
    } else {
      DummyTaken(pending, k);
    }
    var r := Taken(pending, k);
    assert forall i :: 0 <= i < |r| ==> r[i] == pending[if i < k then i else i + 1];
  }

  lemma LaterTick(w: World, pending: seq<Entry>, tick: nat, later: nat)
    requires Sane(w) && Ordered(w, pending, tick) && tick <= later
    ensures Ordered(w, pending, later)
  {
    assert tick > 0 && tick < later ==> w.clock(tick - 1) < w.clock(later - 1);
  }

  lemma StillOrdered(w: World, pending: seq<Entry>, tick: nat, e: Entry, later: nat)
    requires Sane(w) && Ordered(w, pending, tick) && tick < later
    requires e.cell.typ == TYPE_DATA ==> e.priority == w.clock(tick)
    ensures Ordered(w, pending + [e], later)
  {
    assert tick > 0 ==> w.clock(tick - 1) < w.clock(tick);
    assert tick < later - 1 ==> w.clock(tick) < w.clock(later - 1);
  }

  lemma OneMore(pending: seq<Entry>, e: Entry)
    ensures DataOf(pending + [e]) == DataOf(pending) + DataIn([e.cell])
  {
    DataOfAppend(pending, [e]);
    assert DataOf([e]) == DataIn([e.cell]);
  }

  lemma {:induction false} ScheduledOrdered(w: World, pending: seq<Entry>, tick: nat, cells: seq<Cell>)
    requires Sane(w) && Ordered(w, pending, tick)
    ensures Ordered(w, ScheduleAll(w, pending, tick, cells), tick + |cells|)
    decreases |cells|
  {
    if cells != [] {
      var e := Entry(cells[0], w.clock(tick));
      StillOrdered(w, pending, tick, e, tick + 1);
      ScheduledOrdered(w, pending + [e], tick + 1, cells[1..]);
    }
  }

  lemma {:induction false} ScheduledData(w: World, pending: seq<Entry>, tick: nat, cells: seq<Cell>)
    requires forall i :: 0 <= i < |cells| ==> cells[i].typ == TYPE_DATA
    ensures DataOf(ScheduleAll(w, pending, tick, cells)) == DataOf(pending) + cells
    decreases |cells|
  {
    if cells == [] {
      assert DataOf(pending) + [] == DataOf(pending);
    } else {
      var e := Entry(cells[0], w.clock(tick));
      OneMore(pending, e);
      assert DataIn([cells[0]]) == [cells[0]];
      ScheduledData(w, pending + [e], tick + 1, cells[1..]);
      assert DataOf(pending) + [cells[0]] + cells[1..] == DataOf(pending) + cells;
    }
  }

  lemma AllScheduled(w: World, pending: seq<Entry>, tick: nat, cells: seq<Cell>)
    requires Sane(w) && Ordered(w, pending, tick) && AllPending(pending) && Encodable(cells)
    requires forall i :: 0 <= i < |cells| ==> cells[i].typ == TYPE_DATA
    ensures var r := ScheduleAll(w, pending, tick, cells);
      Ordered(w, r, tick + |cells|) && AllPending(r) && DataOf(r) == DataOf(pending) + cells
  {
    ScheduledOrdered(w, pending, tick, cells);
    ScheduledPending(w, pending, tick, cells);
    ScheduledData(w, pending, tick, cells);
  }

  /** When the scheduler answers that nothing is due, no cell of data is left in it: only cover traffic waits. */
  lemma {:induction false} NothingDueMeansNoData(w: World, pending: seq<Entry>, tick: nat)
    requires Sane(w) && Ordered(w, pending, tick) && NoneDue(pending, w.clock(tick))
    ensures DataOf(pending) == []
  {
    forall i | 0 <= i < |pending| ensures pending[i].cell.typ != TYPE_DATA {
      assert tick > 0 ==> w.clock(tick - 1) < w.clock(tick);
    }
    NoData(pending);
  }

  lemma {:induction false} NoData(pending: seq<Entry>)
    requires forall i :: 0 <= i < |pending| ==> pending[i].cell.typ != TYPE_DATA
    ensures DataOf(pending) == []
  {
    if pending != [] {
      NoData(pending[1..]);
    }
  }

  // ---------- what the receiver makes of the data ----------

  /** The receiver of cells that were not lost in decoding. */
  datatype Heard = Heard(streams: Streams, delivered: bytes)

  function Hear(h: Heard, c: Cell): Heard {
    match Process(h.streams, c)
    case Rejected => h
    case Pending(streams) => Heard(streams, h.delivered)
    case Complete(streams, payload) => Heard(streams, h.delivered + payload)
  }

  function HearAll(h: Heard, cells: seq<Cell>): Heard
    decreases |cells|
  {
    if cells == [] then h else HearAll(Hear(h, cells[0]), cells[1..])
  }

  lemma {:induction false} HearAppend(h: Heard, a: seq<Cell>, b: seq<Cell>)
    ensures HearAll(h, a + b) == HearAll(HearAll(h, a), b)
    decreases |a|
  {
    if a == [] {
      assert a + b == b;
    } else {
      assert (a + b)[1..] == a[1..] + b;
      HearAppend(Hear(h, a[0]), a[1..], b);
    }
  }

  lemma {:induction false} HearOnlyAdds(h: Heard, cells: seq<Cell>)
    ensures h.delivered <= HearAll(h, cells).delivered
    decreases |cells|
  {
    if cells != [] {
      HearOnlyAdds(Hear(h, cells[0]), cells[1..]);
    }
  }

  /** One cell of a stream, at its turn. */
  lemma CellHeard(streams: Streams, delivered: bytes, buffer: bytes, c: Cell)
    requires c.seqNo < UINT32 && c.id !in streams
    ensures Hear(Heard(streams[c.id := Stream(buffer, Before(c.seqNo))], delivered), c) ==
      if EndsMessage(c) then Heard(streams, delivered + (buffer + c.payload))
      else Heard(streams[c.id := Stream(buffer + c.payload, Before(After(c.seqNo)))], delivered)
  {
    NextSeq(c.seqNo);
    assert streams[c.id := Stream(buffer, Before(c.seqNo))] - {c.id} == streams;
  }

  /** The rest of a flagged message completes its stream and removes it. */
  lemma {:induction false} RestHeard(streams: Streams, delivered: bytes, buffer: bytes, cells: seq<Cell>, id: nat, seqNo: nat)
    requires seqNo < UINT32 && Numbered(cells, id, seqNo) && Flagged(cells) && id !in streams
    ensures HearAll(Heard(streams[id := Stream(buffer, Before(seqNo))], delivered), cells)
      == Heard(streams, delivered + (buffer + Payloads(cells)))
    decreases |cells|
  {
    var c, rest := cells[0], cells[1..];
    var h := Heard(streams[id := Stream(buffer, Before(seqNo))], delivered);
    assert c.id == id && c.seqNo == seqNo;
    CellHeard(streams, delivered, buffer, c);
    if |cells| == 1 {
      assert HearAll(h, cells) == HearAll(Hear(h, c), []);
      assert Payloads(rest) == [] && c.payload + [] == c.payload;
    } else {
      assert c.flags == 0;
      RestNumbered(cells, id, seqNo);
      NextSeq(seqNo);
      RestHeard(streams, delivered, buffer + c.payload, rest, id, After(seqNo));
      Joined(buffer, c.payload, Payloads(rest));
    }
  }

  lemma Joined(a: bytes, b: bytes, c: bytes)
    ensures a + b + c == a + (b + c)
  {
  }

  /** A whole message, heard with nothing between its cells, is delivered and leaves nothing behind. */
  lemma MessageHeard(delivered: bytes, cells: seq<Cell>, id: nat, seqNo: nat)
    requires seqNo < UINT32 && Numbered(cells, id, seqNo) && Flagged(cells)
    ensures HearAll(Heard(map[], delivered), cells) == Heard(map[], delivered + Payloads(cells))
  {
    var c := cells[0];
    NextSeq(seqNo);
    assert c.id == id && c.seqNo == seqNo;
    RestHeard(map[], delivered, [], cells, id, seqNo);
    assert Hear(Heard(map[], delivered), c) == Hear(Heard(map[id := Stream([], Before(seqNo))], delivered), c) by {
      assert map[id := Stream([], Before(seqNo))] - {id} == map[] - {id};
      assert map[id := Stream([], Before(seqNo))][id := Stream(c.payload, c.seqNo)] == map[id := Stream(c.payload, c.seqNo)];
    }
    assert [] + Payloads(cells) == Payloads(cells);
  }

  // ---------- the invariant ----------

  ghost predicate SenderInv(w: World, s: State) {
    Ordered(w, s.pending, s.tick) && Sound(s)
  }

  /**
    All data cells queued so far, in order: the ones processed, and the ones on the way. Heard as a
    whole, they would deliver all that was queued.
   */
  ghost predicate Flow(done: seq<Cell>, way: seq<Cell>, r: Receiver, queued: bytes, got: bytes) {
    && HearAll(Heard(map[], []), done) == Heard(r.streams, got + r.inbound)
    && HearAll(Heard(map[], []), done + way) == Heard(map[], queued)
  }

  function OnTheWay(s: State): seq<Cell> { DataIn(s.wire) + DataOf(s.pending) }

  ghost predicate Inv(w: World, s: State, done: seq<Cell>) {
    SenderInv(w, s) && Flow(done, OnTheWay(s), s.receiver, s.queued, s.got)
  }

  /** The cells of a message, behind all the others, would be delivered behind all that was queued. */
  lemma QueuedHeard(w: World, s: State, data: bytes, before: seq<Cell>)
    requires Sane(w) && s.seqNo < UINT32 && (data == [] || Flagged(CellsFor(w, s, data)))
    requires HearAll(Heard(map[], []), before) == Heard(map[], s.queued)
    ensures HearAll(Heard(map[], []), before + CellsFor(w, s, data)) == Heard(map[], s.queued + data)
  {
    var cells := CellsFor(w, s, data);
    FragmentIs(w.draw, s.samples, w.ids(s.messages), s.seqNo, data);
    HearAppend(Heard(map[], []), before, cells);
    if cells != [] {
      MessageHeard(s.queued, cells, w.ids(s.messages), s.seqNo);
    }
  }

  lemma DataCells(w: World, s: State, data: bytes)
    requires Sane(w) && s.seqNo < UINT32 && OffsetsFit(CellsFor(w, s, data))
    ensures Encodable(CellsFor(w, s, data))
    ensures forall i :: 0 <= i < |CellsFor(w, s, data)| ==> CellsFor(w, s, data)[i].typ == TYPE_DATA
  {
    FragmentIs(w.draw, s.samples, w.ids(s.messages), s.seqNo, data);
    CellsAreConsistent(w.draw, s.samples, w.ids(s.messages), s.seqNo, data);
  }

  /** Queued cells join those on the way. */
  lemma QueueSender(w: World, headerLen: nat, s: State, data: bytes)
    requires Sane(w) && SenderInv(w, s) && OffsetsFit(CellsFor(w, s, data))
    ensures var s1 := Step(w, headerLen, s, Queue(data));
      SenderInv(w, s1) && OnTheWay(s1) == OnTheWay(s) + CellsFor(w, s, data)
  {
    var cells := CellsFor(w, s, data);
    DataCells(w, s, data);
    AllScheduled(w, s.pending, s.tick, cells);
    Regroup(DataIn(s.wire), DataOf(s.pending), cells);
  }

  lemma QueueKeeps(w: World, headerLen: nat, s: State, data: bytes, done: seq<Cell>)
    requires Sane(w) && Inv(w, s, done) && Allowed(w, s, Queue(data))
    ensures Inv(w, Step(w, headerLen, s, Queue(data)), done)
  {
    QueueSender(w, headerLen, s, data);
    QueueFlow(w, s, data, done, OnTheWay(s));
  }

  lemma QueueFlow(w: World, s: State, data: bytes, done: seq<Cell>, way: seq<Cell>)
    requires Sane(w) && s.seqNo < UINT32 && (data == [] || Flagged(CellsFor(w, s, data)))
    requires Flow(done, way, s.receiver, s.queued, s.got)
    ensures Flow(done, way + CellsFor(w, s, data), s.receiver, s.queued + data, s.got)
  {
    QueuedHeard(w, s, data, done + way);
    Regroup(done, way, CellsFor(w, s, data));
  }

  lemma SendKeeps(w: World, headerLen: nat, s: State, k: nat, done: seq<Cell>)
    requires Sane(w) && Inv(w, s, done)
    ensures Inv(w, Step(w, headerLen, s, Send(k)), done)
  {
    if MayTake(s.pending, w.clock(s.tick), k) {
      var c := s.pending[k].cell;
      TakenInOrder(w, s.pending, s.tick, w.clock(s.tick), k);
      LaterTick(w, Taken(s.pending, k), s.tick, s.tick + 1);
      DataInAppend(s.wire, [c]);
      Regroup(DataIn(s.wire), DataIn([c]), DataOf(Taken(s.pending, k)));
    } else {
      LaterTick(w, s.pending, s.tick, s.tick + 1);
    }
  }

  lemma CoverSender(w: World, headerLen: nat, s: State, cell: Cell)
    requires Sane(w) && SenderInv(w, s) && cell.typ == TYPE_DUMMY && Consistent(cell)
    ensures var s1 := Step(w, headerLen, s, Cover(cell));
      SenderInv(w, s1) && OnTheWay(s1) == OnTheWay(s)
  {
    var e := Entry(cell, w.clock(s.tick + 1) + w.probingInterval);
    StillOrdered(w, s.pending, s.tick, e, s.tick + 2);
    OneMore(s.pending, e);
    assert DataIn([cell]) == [] && DataOf(s.pending) + [] == DataOf(s.pending);
  }

  lemma CoverKeeps(w: World, headerLen: nat, s: State, cell: Cell, done: seq<Cell>)
    requires Sane(w) && Inv(w, s, done) && Allowed(w, s, Cover(cell))
    ensures Inv(w, Step(w, headerLen, s, Cover(cell)), done)
  {
    CoverSender(w, headerLen, s, cell);
  }

  lemma DeliverSender(w: World, s: State)
    requires Sane(w) && SenderInv(w, s) && s.wire != []
    ensures var s1 := Step(w, ENCODED_HEADER_LEN, s, Deliver);
      && SenderInv(w, s1) && OnTheWay(s) == DataIn([s.wire[0]]) + DataIn(s1.wire) + DataOf(s1.pending)
      && s1.queued == s.queued && s1.got == s.got
      && s1.receiver == if s.wire[0].typ == TYPE_DATA then AcceptData(s.receiver, s.wire[0]) else s.receiver
  {
    DataSplits(s.wire);
    Accepted(ENCODED_HEADER_LEN, s.receiver, s.wire[0]);
  }

  lemma DataSplits(cells: seq<Cell>)
    requires cells != []
    ensures DataIn(cells) == DataIn([cells[0]]) + DataIn(cells[1..])
  {
    assert cells == [cells[0]] + cells[1..];
    DataInAppend([cells[0]], cells[1..]);
  }

  /** A cell that is decoded as it was encoded is heard; a dummy is not. */
  lemma DeliverKeeps(w: World, s: State, done: seq<Cell>)
    requires Sane(w) && Inv(w, s, done) && s.wire != []
    ensures Inv(w, Step(w, ENCODED_HEADER_LEN, s, Deliver), done + DataIn([s.wire[0]]))
  {
    DeliverSender(w, s);
    var s1 := Step(w, ENCODED_HEADER_LEN, s, Deliver);
    MovesOn(done, s.wire[0], DataIn(s1.wire), DataOf(s1.pending), s.receiver, s.queued, s.got);
  }

  lemma MovesOn(done: seq<Cell>, c: Cell, rest: seq<Cell>, pending: seq<Cell>, r: Receiver, queued: bytes, got: bytes)
    requires Flow(done, DataIn([c]) + rest + pending, r, queued, got)
    ensures Flow(done + DataIn([c]), rest + pending, if c.typ == TYPE_DATA then AcceptData(r, c) else r, queued, got)
  {
    Regroup(DataIn([c]), rest, pending);
    Regroup(done, DataIn([c]), rest + pending);
    HearAppend(Heard(map[], []), done, DataIn([c]));
    HeardAs(r, c, got);
  }

  lemma HeardAs(r: Receiver, c: Cell, got: bytes)
    ensures var r1 := if c.typ == TYPE_DATA then AcceptData(r, c) else r;
      HearAll(Heard(r.streams, got + r.inbound), DataIn([c])) == Heard(r1.streams, got + r1.inbound)
  {
    assert DataIn([c]) == if c.typ == TYPE_DATA then [c] else [];
    if c.typ == TYPE_DATA {
      assert [c][1..] == [];
      match Process(r.streams, c)
      case Rejected =>
      case Pending(_) =>
      case Complete(_, payload) => assert got + r.inbound + payload == got + (r.inbound + payload);
    }
  }

  lemma ReadKeeps(w: World, s: State, done: seq<Cell>)
    requires Sane(w) && Inv(w, s, done)
    ensures Inv(w, Step(w, ENCODED_HEADER_LEN, s, Read), done)
  {
    assert s.got + s.receiver.inbound + [] == s.got + s.receiver.inbound;
  }

  lemma StepKeeps(w: World, s: State, e: Event, done: seq<Cell>) returns (done1: seq<Cell>)
    requires Sane(w) && Inv(w, s, done) && Allowed(w, s, e)
    ensures Inv(w, Step(w, ENCODED_HEADER_LEN, s, e), done1)
  {
    done1 := done;
    match e
    case Queue(data) => QueueKeeps(w, ENCODED_HEADER_LEN, s, data, done);
    case Cover(cell) => CoverKeeps(w, ENCODED_HEADER_LEN, s, cell, done);
    case Send(k) => SendKeeps(w, ENCODED_HEADER_LEN, s, k, done);
    case Deliver =>
      if s.wire != [] {
        DeliverKeeps(w, s, done);
        done1 := done + DataIn([s.wire[0]]);
      }
    case Read => ReadKeeps(w, s, done);
  }

  lemma {:induction false} RunKeeps(w: World, s: State, events: seq<Event>, end: State, done: seq<Cell>) returns (done1: seq<Cell>)
    requires Sane(w) && Inv(w, s, done) && Reaches(w, ENCODED_HEADER_LEN, s, events, end)
    ensures Inv(w, end, done1)
    decreases |events|
  {
    if events == [] {
      done1 := done;
    } else {
      var next := StepKeeps(w, s, events[0], done);
      done1 := RunKeeps(w, Step(w, ENCODED_HEADER_LEN, s, events[0]), events[1..], end, next);
    }
  }

  /**
    With a decoder that skips as many octets as the encoder writes: whatever was queued, sent,
    delayed or mixed with cover traffic, what is read is always the beginning of what was queued,
    and all of it once no cell of data is left on the way.
   */
  lemma EverythingArrivesInOrder(w: World, events: seq<Event>, end: State)
    requires Sane(w) && Reaches(w, ENCODED_HEADER_LEN, START, events, end)
    ensures end.got + end.receiver.inbound <= end.queued
    ensures OnTheWay(end) == [] ==> end.got + end.receiver.inbound == end.queued
  {
    StartInv(w);
    var done := RunKeeps(w, START, events, end, []);
    DeliveredSoFar(w, end, done);
  }

  lemma StartInv(w: World)
    requires Sane(w)
    ensures Inv(w, START, [])
  {
    assert DataIn([]) == [] && DataOf([]) == [];
  }

  lemma DeliveredSoFar(w: World, s: State, done: seq<Cell>)
    requires Sane(w) && Inv(w, s, done)
    ensures s.got + s.receiver.inbound <= s.queued
    ensures OnTheWay(s) == [] ==> s.got + s.receiver.inbound == s.queued
  {
    HearAppend(Heard(map[], []), done, OnTheWay(s));
    HearOnlyAdds(HearAll(Heard(map[], []), done), OnTheWay(s));
    assert done + [] == done;
  }

  // ---------- the source's header length ----------

  /** With any other header length nothing arrives at all. */
  lemma {:induction false} NothingArrives(w: World, headerLen: nat, s: State, events: seq<Event>, end: State)
    requires Sane(w) && Sound(s) && headerLen != ENCODED_HEADER_LEN && s.got == [] && s.receiver.inbound == []
    requires Reaches(w, headerLen, s, events, end)
    ensures end.got == [] && end.receiver.inbound == []
    decreases |events|
  {
    if events != [] {
      if events[0].Deliver? && s.wire != [] {
        Accepted(headerLen, s.receiver, s.wire[0]);
      }
      StepSound(w, headerLen, s, events[0]);
      NothingArrives(w, headerLen, Step(w, headerLen, s, events[0]), events[1..], end);
    }
  }

  /** As the source stands, a drained pipeline has delivered what was queued exactly when that was nothing. */
  lemma SourceDeliversOnlyNothing(w: World, events: seq<Event>, end: State)
    requires Sane(w) && Reaches(w, CELL_HEADER_LEN, START, events, end)
    ensures end.got + end.receiver.inbound == end.queued <==> end.queued == []
  {
    NothingArrives(w, CELL_HEADER_LEN, START, events, end);
  }
}
