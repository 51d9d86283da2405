/** Putting messages together from the cells of any number of streams (Reassembler). */
module Reassembly {
  import opened Outcomes
  import opened Octets
  import opened Framing

  datatype Stream = Stream(buffer: bytes, lastSeq: nat)
  type Streams = map<nat, Stream>

  /** Rejected leaves everything as it was. */
  datatype Received = Rejected | Pending(streams: Streams) | Complete(streams: Streams, payload: bytes)

  /** seq - 1 and seq + 1 in 32 bits. */
  function Before(seqNo: nat): nat { (seqNo + UINT32 - 1) % UINT32 }
  function After(seqNo: nat): nat { (seqNo + 1) % UINT32 }

  /** The stream of a cell; a new one takes the number of its first cell for granted. */
  function StreamFor(s: Streams, c: Cell): Stream { if c.id in s then s[c.id] else Stream([], Before(c.seqNo)) }

  predicate EndsMessage(c: Cell) { c.flags % 2 == 1 }

  function Process(s: Streams, c: Cell): Received {
    var stream := StreamFor(s, c);
    if c.seqNo != After(stream.lastSeq) then Rejected
    else if EndsMessage(c) then Complete(s - {c.id}, stream.buffer + c.payload)
    else Pending(s[c.id := Stream(stream.buffer + c.payload, c.seqNo)])
  }

  // ---------- runs ----------

  datatype Message = Message(id: nat, payload: bytes)

  datatype Run = Run(streams: Streams, messages: seq<Message>, rejected: nat)

  function Next(r: Run, c: Cell): Run {
    match Process(r.streams, c)
    case Rejected => r.(rejected := r.rejected + 1)
    case Pending(s) => r.(streams := s)
    case Complete(s, payload) => Run(s, r.messages + [Message(c.id, payload)], r.rejected)
  }

  function ProcessAll(r: Run, cells: seq<Cell>): Run
    decreases |cells|
  {
    if cells == [] then r else ProcessAll(Next(r, cells[0]), cells[1..])
  }

  /** The cells of one stream, in order. */
  function Of(cells: seq<Cell>, id: nat): seq<Cell>
    decreases |cells|
  {
    if cells == [] then [] else (if cells[0].id == id then [cells[0]] else []) + Of(cells[1..], id)
  }

  /** The messages of one stream, in order. */
  function MessagesOf(ms: seq<Message>, id: nat): seq<Message> {
    if ms == [] then [] else (if ms[0].id == id then [ms[0]] else []) + MessagesOf(ms[1..], id)
  }

  lemma {:induction false} MessagesOfAppend(a: seq<Message>, b: seq<Message>, id: nat)
    ensures MessagesOf(a + b, id) == MessagesOf(a, id) + MessagesOf(b, id)
  {
    if a == [] {
      assert a + b == b;
    } else {
      assert (a + b)[1..] == a[1..] + b;
      MessagesOfAppend(a[1..], b, id);
      Regroup(if a[0].id == id then [a[0]] else [], MessagesOf(a[1..], id), MessagesOf(b, id));
    }
  }

  lemma Regroup(a: seq<Message>, b: seq<Message>, c: seq<Message>)
    ensures a + b + c == a + (b + c)
  {
  }

  // ---------- a stream on its own ----------

  /** What has been received of one stream and what it has delivered. */
  datatype Lane = Lane(stream: Option<Stream>, messages: seq<Message>, rejected: bool)

  function LaneOf(r: Run, id: nat): Lane {
    Lane(if id in r.streams then Some(r.streams[id]) else None, MessagesOf(r.messages, id), false)
  }

  function LaneNext(l: Lane, c: Cell): Lane {
    var stream := if l.stream.Some? then l.stream.value else Stream([], Before(c.seqNo));
    if c.seqNo != After(stream.lastSeq) then l.(rejected := true)
    else if EndsMessage(c) then Lane(None, l.messages + [Message(c.id, stream.buffer + c.payload)], l.rejected)
    else l.(stream := Some(Stream(stream.buffer + c.payload, c.seqNo)))
  }

  function LaneAll(l: Lane, cells: seq<Cell>): Lane
    decreases |cells|
  {
    if cells == [] then l else LaneAll(LaneNext(l, cells[0]), cells[1..])
  }

  /** A cell acts on its own stream as if there were no other, and not at all on the others. */
  lemma NextOnLane(r: Run, c: Cell, id: nat)
    ensures var l, l1 := LaneOf(r, id), LaneOf(Next(r, c), id);
      if c.id == id then l1 == LaneNext(l, c).(rejected := false) else l1 == l
  {
    match Process(r.streams, c)
    case Rejected =>
    case Pending(_) =>
    case Complete(s, payload) =>
      MessagesOfAppend(r.messages, [Message(c.id, payload)], id);
      assert MessagesOf([], id) == [];
      assert [Message(c.id, payload)][1..] == [];
      assert MessagesOf(r.messages, id) + [] == MessagesOf(r.messages, id);
  }

  /** However the cells of the streams are interleaved, each stream sees only its own. */
  lemma {:induction false} Projected(r: Run, cells: seq<Cell>, id: nat)
    ensures LaneOf(ProcessAll(r, cells), id) == LaneAll(LaneOf(r, id), Of(cells, id)).(rejected := false)
    decreases |cells|
  {
    if cells != [] {
      NextOnLane(r, cells[0], id);
      Projected(Next(r, cells[0]), cells[1..], id);
      if cells[0].id == id {
        OfFirst(cells, id);
        IgnoresFlag(LaneNext(LaneOf(r, id), cells[0]), Of(cells[1..], id));
      } else {
        assert Of(cells, id) == Of(cells[1..], id);
      }
    }
  }

  lemma OfFirst(cells: seq<Cell>, id: nat)
    requires cells != [] && cells[0].id == id
    ensures Of(cells, id)[0] == cells[0] && Of(cells, id)[1..] == Of(cells[1..], id)
  {
  }

  lemma {:induction false} IgnoresFlag(l: Lane, cells: seq<Cell>)
    ensures LaneAll(l.(rejected := false), cells).(rejected := false) == LaneAll(l, cells).(rejected := false)
    decreases |cells|
  {
    if cells != [] {
      IgnoresFlag(LaneNext(l, cells[0]), cells[1..]);
      IgnoresFlag(LaneNext(l.(rejected := false), cells[0]), cells[1..]);
      assert LaneNext(l.(rejected := false), cells[0]).(rejected := false) == LaneNext(l, cells[0]).(rejected := false);
    }
  }

  /** The consecutively numbered cells of a message, taken up from what came before them. */
  lemma {:induction false} LaneDelivers(l: Lane, cells: seq<Cell>, id: nat, seqNo: nat)
    requires seqNo < UINT32 && Numbered(cells, id, seqNo)
    requires l.stream.None? || l.stream.value.lastSeq == Before(seqNo)
    ensures var buffered := if l.stream.Some? then l.stream.value.buffer else [];
      var l1 := LaneAll(l, cells);
      && l1.rejected == l.rejected
      && if Flagged(cells) then l1.stream == None && l1.messages == l.messages + [Message(id, buffered + Payloads(cells))]
         else l1.messages == l.messages && (cells != [] ==>
           l1.stream == Some(Stream(buffered + Payloads(cells), (seqNo + |cells| - 1) % UINT32)))
    decreases |cells|
  {
    if cells != [] {
      var c, rest := cells[0], cells[1..];
      var buffered := if l.stream.Some? then l.stream.value.buffer else [];
      NextSeq(seqNo);
      assert c.seqNo == seqNo && c.id == id;
      if EndsMessage(c) {
        assert |cells| == 1 && Payloads(rest) == [];
        assert buffered + (c.payload + []) == buffered + c.payload;
      } else {
        RestNumbered(cells, id, seqNo);
        LaneDelivers(LaneNext(l, c), rest, id, After(seqNo));
        assert buffered + c.payload + Payloads(rest) == buffered + Payloads(cells);
        if rest == [] {
          assert buffered + (c.payload + []) == buffered + c.payload;
        }
      }
    }
  }

  lemma NextSeq(seqNo: nat)
    requires seqNo < UINT32
    ensures After(Before(seqNo)) == seqNo && Before(After(seqNo)) == seqNo && After(seqNo) < UINT32
  {
  }

  lemma RestNumbered(cells: seq<Cell>, id: nat, seqNo: nat)
    requires cells != [] && seqNo < UINT32 && Numbered(cells, id, seqNo)
    ensures Numbered(cells[1..], id, After(seqNo)) && (|cells| > 1 ==> (Flagged(cells[1..]) <==> Flagged(cells)))
  {
    var rest := cells[1..];
    forall i | 0 <= i < |rest|
      ensures rest[i].id == id && rest[i].typ == TYPE_DATA && rest[i].seqNo == (After(seqNo) + i) % UINT32
      ensures rest[i].flags != 0 ==> rest[i].flags == END_FLAG && i == |rest| - 1
    {
      assert rest[i] == cells[i + 1];
      NextNumber(seqNo, i);
    }
  }

  // ---------- the theorem ----------

  /** A message as the framer numbered it. */
  datatype Sent = Sent(id: nat, seqNo: nat, cells: seq<Cell>)

  ghost predicate Whole(m: Sent) { m.seqNo < UINT32 && Numbered(m.cells, m.id, m.seqNo) && Flagged(m.cells) }

  /**
    Any interleaving of the cells of flagged messages with distinct identifiers, each kept in its
    own order, delivers of every message exactly its payload, once, and leaves no stream behind.
   */
  lemma InterleavedMessagesArrive(wire: seq<Cell>, messages: seq<Sent>, k: nat)
    requires forall i :: 0 <= i < |messages| ==> Whole(messages[i])
    requires forall i, j :: 0 <= i < j < |messages| ==> messages[i].id != messages[j].id
    requires forall i :: 0 <= i < |messages| ==> Of(wire, messages[i].id) == messages[i].cells
    requires k < |messages|
    ensures var r := ProcessAll(Run(map[], [], 0), wire);
      && MessagesOf(r.messages, messages[k].id) == [Message(messages[k].id, Payloads(messages[k].cells))]
      && messages[k].id !in r.streams
  {
    var m := messages[k];
    var start := Run(map[], [], 0);
    Projected(start, wire, m.id);
    assert Of(wire, m.id) == m.cells;
    LaneDelivers(LaneOf(start, m.id), m.cells, m.id, m.seqNo);
    assert [] + Payloads(m.cells) == Payloads(m.cells);
  }

  /** And nothing is delivered that was not sent. */
  lemma OnlySentMessagesArrive(wire: seq<Cell>, id: nat)
    requires Of(wire, id) == []
    ensures MessagesOf(ProcessAll(Run(map[], [], 0), wire).messages, id) == []
    ensures id !in ProcessAll(Run(map[], [], 0), wire).streams
  {
    Projected(Run(map[], [], 0), wire, id);
  }

  /** A message whose last cell is not flagged is never delivered; its stream stays behind. */
  lemma UnflaggedMessagesStay(wire: seq<Cell>, m: Sent)
    requires m.seqNo < UINT32 && Numbered(m.cells, m.id, m.seqNo) && m.cells != [] && Of(wire, m.id) == m.cells
    ensures var r := ProcessAll(Run(map[], [], 0), wire);
      MessagesOf(r.messages, m.id) == [] <==> !Flagged(m.cells)
    ensures m.id in ProcessAll(Run(map[], [], 0), wire).streams <==> !Flagged(m.cells)
  {
    var start := Run(map[], [], 0);
    Projected(start, wire, m.id);
    LaneDelivers(LaneOf(start, m.id), m.cells, m.id, m.seqNo);
  }

  // ---------- the object ----------

  class ReassemblyStream {
    var buffer: bytes
    var lastSeq: nat
    constructor (lastSeq: nat)
      ensures buffer == [] && this.lastSeq == lastSeq
    {
      buffer, this.lastSeq := [], lastSeq;
    }
  }

  class Reassembler {
    var streams: map<nat, ReassemblyStream>

    /** Every stream has an object of its own. */
    ghost predicate Valid()
      reads this
    {
      forall i, j :: i in streams && j in streams && i != j ==> streams[i] != streams[j]
    }

    ghost function Value(): Streams
      reads this, streams.Values
    {
      map id | id in streams :: Stream(streams[id].buffer, streams[id].lastSeq)
    }

    constructor ()
      ensures Valid() && streams == map[]
    {
      streams := map[];
    }

    /** The stream of a cell, created when it is the first of its identifier. */
    method StreamOf(cell: Cell) returns (stream: ReassemblyStream)
      requires Valid() && cell.seqNo < UINT32
      modifies this
      ensures Valid() && cell.id in streams && streams[cell.id] == stream
      ensures Stream(stream.buffer, stream.lastSeq) == StreamFor(old(Value()), cell)
      ensures Value() == old(Value())[cell.id := StreamFor(old(Value()), cell)]
      ensures cell.id in old(streams) ==> Value() == old(Value())
      ensures cell.id !in old(streams) ==> fresh(stream) && cell.seqNo == After(stream.lastSeq)
      ensures forall x :: x in streams.Values ==> x in old(streams.Values) || fresh(x)
    {
      if cell.id in streams {
        stream := streams[cell.id];
        assert Value() == old(Value())[cell.id := StreamFor(old(Value()), cell)];
      } else {
        stream := new ReassemblyStream((cell.seqNo + UINT32 - 1) % UINT32);
        streams := streams[cell.id := stream];
      }
    }

    method Forget(id: nat)
      requires Valid()
      modifies this
      ensures Valid() && Value() == old(Value()) - {id}
      ensures forall x :: x in streams.Values ==> x in old(streams.Values)
    {
      ghost var full := Value();
      streams := streams - {id};
      assert forall k :: k in Value() <==> k in full && k != id;
    }

    /** Adds a cell to its stream. */
    method Append(stream: ReassemblyStream, cell: Cell)
      requires Valid() && cell.id in streams && streams[cell.id] == stream
      modifies stream
      ensures Value() == old(Value())[cell.id := Stream(old(stream.buffer) + cell.payload, cell.seqNo)]
      ensures stream.buffer == old(stream.buffer) + cell.payload
    {
      stream.buffer := stream.buffer + cell.payload;
      stream.lastSeq := cell.seqNo;
    }

    /** The cell is the next of its stream: it is added, and the message handed out if it is the last. */
    method Add(stream: ReassemblyStream, cell: Cell) returns (payload: Option<bytes>)
      requires Valid() && cell.id in streams && streams[cell.id] == stream
      modifies this, stream
      ensures Valid() && forall x :: x in streams.Values ==> x in old(streams.Values)
      ensures if EndsMessage(cell)
        then payload == Some(old(stream.buffer) + cell.payload) && Value() == old(Value()) - {cell.id}
        else payload == None && Value() == old(Value())[cell.id := Stream(old(stream.buffer) + cell.payload, cell.seqNo)]
    {
      ghost var before := Value();
      Append(stream, cell);
      if cell.flags % 2 == 1 {
        payload := Some(stream.buffer);
        Forget(cell.id);
        assert before[cell.id := Stream(stream.buffer, cell.seqNo)] - {cell.id} == before - {cell.id};
        return;
      }
      return None;
    }

    method ProcessCell(cell: Cell) returns (ok: bool, payload: Option<bytes>)
      requires Valid() && cell.seqNo < UINT32
      modifies this, streams.Values
      ensures Valid() && forall x :: x in streams.Values ==> x in old(streams.Values) || fresh(x)
      ensures match Process(old(Value()), cell)
        case Rejected => !ok && payload == None && Value() == old(Value())
        case Pending(s) => ok && payload == None && Value() == s
        case Complete(s, data) => ok && payload == Some(data) && Value() == s
    {
      ghost var before := Value();
      var stream := StreamOf(cell);
      if cell.seqNo != (stream.lastSeq + 1) % UINT32 {
        return false, None;
      }
      assert before[cell.id := StreamFor(before, cell)] - {cell.id} == before - {cell.id};
      payload := Add(stream, cell);
      return true, payload;
    }
  }
}
