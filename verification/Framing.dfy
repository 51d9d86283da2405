/** Cells: cutting messages into them, and their encoding with a payload window inside the padding. */
module Framing {
  import opened Outcomes
  import opened Octets
  import opened Codec

  /** The length the source gives for the header. */
  const CELL_HEADER_LEN: nat := 20

  /** The length of what EncodeCell writes in front of the content. */
  const ENCODED_HEADER_LEN: nat := 22

  const TYPE_DATA: nat := 1
  const TYPE_DUMMY: nat := 4
  const END_FLAG: nat := 1
  const UINT16: nat := 65536
  const UINT32: nat := 0x1_0000_0000
  const INT64_LIMIT: int := 0x8000_0000_0000_0000

  datatype Cell = Cell(
    id: nat, typ: nat, flags: nat, seqNo: nat, timestamp: int,
    payloadLen: nat, paddingLen: nat, offset: nat, payload: bytes, padding: bytes)

  /** Fields within their widths, lengths that are those of the data, and a window that lies in the cell. */
  predicate Consistent(c: Cell) {
    && c.id < UINT16 && c.typ < 256 && c.flags < 256 && c.seqNo < UINT32 && -INT64_LIMIT <= c.timestamp < INT64_LIMIT
    && c.payloadLen == |c.payload| && c.paddingLen == |c.padding| && c.payloadLen + c.paddingLen < UINT16
    && c.offset <= c.paddingLen
  }

  // ---------- EncodeCell ----------

  function PutInt64(t: int): bytes { BigEndian(t % (2 * INT64_LIMIT), 8) }

  function PutLengths(c: Cell): bytes { BigEndian(c.payloadLen, 2) + (BigEndian(c.paddingLen, 2) + BigEndian(c.offset, 2)) }

  function PutHeader(c: Cell): (h: bytes)
    ensures |h| == ENCODED_HEADER_LEN
  {
    BigEndian(c.id, 2) + (BigEndian(c.typ, 1) + (BigEndian(c.flags, 1) + (BigEndian(c.seqNo, 4) + (PutInt64(c.timestamp) + PutLengths(c)))))
  }

  function Content(c: Cell): bytes
    requires c.offset <= |c.padding|
  {
    c.padding[..c.offset] + c.payload + c.padding[c.offset..]
  }

  function Encode(c: Cell): bytes
    requires c.offset <= |c.padding|
  {
    PutHeader(c) + Content(c)
  }

  // ---------- DecodeCell ----------

  /** OutOfRange stands for the panic of a slice beyond its bounds. */
  datatype DecodeError = TooShort | HeaderCut | LengthMismatch | OutOfRange

  /** The fields in front of the content; lengths and offset are read but the content is not. */
  function ReadHeader(data: bytes): Option<Cell> {
    if |data| < ENCODED_HEADER_LEN then None
    else
      var t := Value(data[8..16]);
      Some(Cell(Value(data[..2]), Value(data[2..3]), Value(data[3..4]), Value(data[4..8]),
                if t >= INT64_LIMIT then t - 2 * INT64_LIMIT else t,
                Value(data[16..18]), Value(data[18..20]), Value(data[20..22]), [], []))
  }

  /** DecodeCell, for a decoder that takes the content to begin after headerLen octets. */
  function DecodeFrom(headerLen: nat, data: bytes): Outcome<Cell, DecodeError> {
    if |data| < headerLen then Fail(TooShort)
    else
      match ReadHeader(data)
      case None => Fail(HeaderCut)
      case Some(c) => Split(c, data[headerLen..])
  }

  /** The content is cut at the window; lengths are added in 16 bits. */
  function Split(c: Cell, content: bytes): Outcome<Cell, DecodeError> {
    if |content| != (c.payloadLen + c.paddingLen) % UINT16 then Fail(LengthMismatch)
    else
      var end := (c.offset + c.payloadLen) % UINT16;
      if !(c.offset <= end <= |content| && c.offset <= c.paddingLen) then Fail(OutOfRange)
      else Ok(c.(payload := Copied(c.payloadLen, content[c.offset..end]),
                 padding := content[..c.offset] + Copied(c.paddingLen - c.offset, content[end..])))
  }

  /** copy into n fresh octets. */
  function Copied(n: nat, s: bytes): (r: bytes)
    ensures |r| == n
  {
    if |s| >= n then s[..n] else s + seq(n - |s|, _ => 0)
  }

  function Decode(data: bytes): Outcome<Cell, DecodeError> { DecodeFrom(CELL_HEADER_LEN, data) }

  // ---------- what decoding makes of encoding ----------

  lemma TimestampBack(t: int)
    requires -INT64_LIMIT <= t < INT64_LIMIT
    ensures var v := Value(PutInt64(t));
      t == if v >= INT64_LIMIT then v - 2 * INT64_LIMIT else v
  {
    Pow256Of8();
    ValueOfBigEndian(t % (2 * INT64_LIMIT), 8);
  }

  lemma ValuesBack(c: Cell)
    requires Consistent(c)
    ensures Value(BigEndian(c.id, 2)) == c.id && Value(BigEndian(c.typ, 1)) == c.typ && Value(BigEndian(c.flags, 1)) == c.flags
    ensures Value(BigEndian(c.seqNo, 4)) == c.seqNo && Value(BigEndian(c.payloadLen, 2)) == c.payloadLen
    ensures Value(BigEndian(c.paddingLen, 2)) == c.paddingLen && Value(BigEndian(c.offset, 2)) == c.offset
  {
    Pow256Of8();
    ValueOfBigEndian(c.id, 2);
    ValueOfBigEndian(c.typ, 1);
    ValueOfBigEndian(c.flags, 1);
    ValueOfBigEndian(c.seqNo, 4);
    ValueOfBigEndian(c.payloadLen, 2);
    ValueOfBigEndian(c.paddingLen, 2);
    ValueOfBigEndian(c.offset, 2);
  }

  lemma ReadHeaderBack(c: Cell, rest: bytes)
    requires Consistent(c)
    ensures ReadHeader(PutHeader(c) + rest) == Some(c.(payload := [], padding := []))
  {
    HeaderPieces(BigEndian(c.id, 2), BigEndian(c.typ, 1), BigEndian(c.flags, 1), BigEndian(c.seqNo, 4), PutInt64(c.timestamp),
                 BigEndian(c.payloadLen, 2), BigEndian(c.paddingLen, 2), BigEndian(c.offset, 2), rest);
    ValuesBack(c);
    TimestampBack(c.timestamp);
  }

  lemma HeaderPieces(id: bytes, typ: bytes, flags: bytes, seqNo: bytes, time: bytes, l1: bytes, l2: bytes, l3: bytes, rest: bytes)
    requires |id| == 2 && |typ| == 1 && |flags| == 1 && |seqNo| == 4 && |time| == 8 && |l1| == |l2| == |l3| == 2
    ensures var d := id + (typ + (flags + (seqNo + (time + (l1 + (l2 + l3)))))) + rest;
      && |d| == 22 + |rest| && d[..2] == id && d[2..3] == typ && d[3..4] == flags && d[4..8] == seqNo && d[8..16] == time
      && d[16..18] == l1 && d[18..20] == l2 && d[20..22] == l3 && d[22..] == rest
  {
  }

  lemma SplitBack(c: Cell)
    requires Consistent(c)
    ensures |Content(c)| == c.payloadLen + c.paddingLen
    ensures Split(c.(payload := [], padding := []), Content(c)) == Ok(c)
  {
    var content := Content(c);
    var end := c.offset + c.payloadLen;
    assert content[c.offset..end] == c.payload && content[..c.offset] == c.padding[..c.offset] && content[end..] == c.padding[c.offset..];
    assert c.padding[..c.offset] + c.padding[c.offset..] == c.padding;
    assert Copied(c.payloadLen, c.payload) == c.payload;
    assert Copied(c.paddingLen - c.offset, c.padding[c.offset..]) == c.padding[c.offset..];
  }

  /** The decoder undoes the encoder exactly when it skips as many octets as the encoder wrote. */
  lemma DecodeUndoesEncode(headerLen: nat, c: Cell)
    requires Consistent(c)
    ensures DecodeFrom(headerLen, Encode(c)) == Ok(c) <==> headerLen == ENCODED_HEADER_LEN
    ensures DecodeFrom(headerLen, Encode(c)).Fail? <==> headerLen != ENCODED_HEADER_LEN
  {
    ReadHeaderBack(c, Content(c));
    SplitBack(c);
    var data := Encode(c);
    if headerLen <= |data| {
      assert |data[headerLen..]| == ENCODED_HEADER_LEN + |Content(c)| - headerLen;
      if headerLen == ENCODED_HEADER_LEN {
        assert data[headerLen..] == Content(c);
      }
    }
  }

  /** As the source stands, every cell that EncodeCell writes is refused by DecodeCell. */
  lemma EncodedCellsAreRefused(c: Cell)
    requires Consistent(c)
    ensures Decode(Encode(c)) == Fail(LengthMismatch)
  {
    ReadHeaderBack(c, Content(c));
    SplitBack(c);
  }

  // ---------- Fragment ----------

  /** What the profile and the random source yield for one cell. */
  datatype Sample = Sample(length: nat, cellSize: int, offset: nat, timestamp: int, fill: nat -> byte)

  /** The lengths a profile draws, and the hypotheses under which cells can be encoded. */
  predicate Usable(s: Sample) {
    && 1 <= s.length <= 1380 && CELL_HEADER_LEN <= s.cellSize < 32768 && -INT64_LIMIT <= s.timestamp < INT64_LIMIT
  }

  function PaddingFor(s: Sample, payloadLen: nat): nat {
    if s.cellSize - CELL_HEADER_LEN - payloadLen < 0 then 0 else s.cellSize - CELL_HEADER_LEN - payloadLen
  }

  /** n octets of padding. */
  function Filled(fill: nat -> byte, n: nat): (r: bytes)
    ensures |r| == n
  {
    if n == 0 then [] else Filled(fill, n - 1) + [fill(n - 1)]
  }

  /** One cell of a message: the end flag is set only when the length drawn exceeds what is left. */
  function MakeCell(id: nat, seqNo: nat, s: Sample, rest: bytes): Cell {
    var payload := if s.length > |rest| then rest else rest[..s.length];
    var n := PaddingFor(s, |payload|);
    Cell(id, TYPE_DATA, if s.length > |rest| then END_FLAG else 0, seqNo, s.timestamp, |payload| % UINT16, n % UINT16, s.offset,
         payload, Filled(s.fill, n))
  }

  /** How the next cell is made, from the number of its sample, its own number and the rest of the data. */
  type Maker = (nat, nat, bytes) -> Cell

  ghost predicate Makes(make: Maker) {
    forall k: nat, seqNo: nat, rest: bytes :: rest != [] ==> 1 <= |make(k, seqNo, rest).payload| <= |rest|
  }

  function Cut(make: Maker, k: nat, seqNo: nat, data: bytes): seq<Cell>
    requires Makes(make)
    decreases |data|
  {
    if data == [] then []
    else
      var c := make(k, seqNo, data);
      [c] + Cut(make, k + 1, (seqNo + 1) % UINT32, data[|c.payload|..])
  }

  function MakerOf(draw: nat -> Sample, id: nat): Maker {
    (k: nat, seqNo: nat, rest: bytes) => MakeCell(id, seqNo, draw(k), rest)
  }

  lemma MakerOfMakes(draw: nat -> Sample, id: nat)
    requires forall i :: Usable(draw(i))
    ensures Makes(MakerOf(draw, id))
  {
  }

  /** The cells of a message; draw(k) is the k-th sample. */
  function Fragment(draw: nat -> Sample, k: nat, id: nat, seqNo: nat, data: bytes): seq<Cell>
    requires forall i :: Usable(draw(i))
  {
    MakerOfMakes(draw, id);
    Cut(MakerOf(draw, id), k, seqNo, data)
  }

  function Payloads(cells: seq<Cell>): bytes {
    if cells == [] then [] else cells[0].payload + Payloads(cells[1..])
  }

  /** Numbered one after the other, modulo 2^32, with one id, and an end flag nowhere but on the last. */
  ghost predicate Numbered(cells: seq<Cell>, id: nat, seqNo: nat) {
    forall i :: 0 <= i < |cells| ==>
      && cells[i].id == id && cells[i].typ == TYPE_DATA && cells[i].seqNo == (seqNo + i) % UINT32
      && (cells[i].flags != 0 ==> cells[i].flags == END_FLAG && i == |cells| - 1)
  }

  predicate Flagged(cells: seq<Cell>) { cells != [] && cells[|cells| - 1].flags != 0 }

  /** The first cell of a message and those of the rest. */
  lemma FirstCell(draw: nat -> Sample, k: nat, id: nat, seqNo: nat, data: bytes) returns (c: Cell, rest: bytes, more: seq<Cell>)
    requires data != [] && forall i :: Usable(draw(i))
    ensures Fragment(draw, k, id, seqNo, data) == [c] + more
    ensures more == Fragment(draw, k + 1, id, (seqNo + 1) % UINT32, rest)
    ensures c.id == id && c.typ == TYPE_DATA && c.seqNo == seqNo && c.flags == (if draw(k).length > |data| then END_FLAG else 0)
    ensures c.timestamp == draw(k).timestamp
    ensures 1 <= |c.payload| <= 1380 && c.payloadLen == |c.payload| && c.paddingLen == |c.padding| < 32768
    ensures id < UINT16 && seqNo < UINT32 && c.offset <= |c.padding| ==> Consistent(c)
    ensures data == c.payload + rest && |rest| < |data| && (more == [] <==> rest == [])
    ensures rest == if draw(k).length >= |data| then [] else data[draw(k).length..]
  {
    c := MakeCell(id, seqNo, draw(k), data);
    rest := data[|c.payload|..];
    more := Fragment(draw, k + 1, id, (seqNo + 1) % UINT32, rest);
  }

  /** The cells carry the message, in order and completely, no payload empty. */
  lemma {:induction false} FragmentIs(draw: nat -> Sample, k: nat, id: nat, seqNo: nat, data: bytes)
    requires seqNo < UINT32 && forall i :: Usable(draw(i))
    ensures var cells := Fragment(draw, k, id, seqNo, data);
      && Payloads(cells) == data && Numbered(cells, id, seqNo) && (cells == [] <==> data == [])
      && AllNonEmpty(cells)
    decreases |data|
  {
    if data != [] {
      var c, rest, more := FirstCell(draw, k, id, seqNo, data);
      FragmentIs(draw, k + 1, id, (seqNo + 1) % UINT32, rest);
      InFront(c, more, id, seqNo);
    }
  }

  ghost predicate AllNonEmpty(cells: seq<Cell>) { forall i :: 0 <= i < |cells| ==> 1 <= |cells[i].payload| <= 1380 }

  lemma InFront(c: Cell, more: seq<Cell>, id: nat, seqNo: nat)
    requires Numbered(more, id, (seqNo + 1) % UINT32) && AllNonEmpty(more) && 1 <= |c.payload| <= 1380 && seqNo < UINT32
    requires c.id == id && c.typ == TYPE_DATA && c.seqNo == seqNo && (c.flags != 0 ==> c.flags == END_FLAG && more == [])
    ensures Numbered([c] + more, id, seqNo) && AllNonEmpty([c] + more)
    ensures Payloads([c] + more) == c.payload + Payloads(more)
  {
    var cells := [c] + more;
    assert cells[1..] == more;
    forall i | 1 <= i < |cells|
      ensures cells[i].id == id && cells[i].typ == TYPE_DATA && cells[i].seqNo == (seqNo + i) % UINT32
      ensures cells[i].flags != 0 ==> cells[i].flags == END_FLAG && i == |cells| - 1
    {
      assert cells[i] == more[i - 1];
      NextNumber(seqNo, i - 1);
    }
  }

  lemma NextNumber(seqNo: nat, i: nat)
    ensures ((seqNo + 1) % UINT32 + i) % UINT32 == (seqNo + i + 1) % UINT32
  {
  }

  /** The sampled length that ends the message exceeds what was left of it then. */
  predicate Overshot(draw: nat -> Sample, k: nat, data: bytes)
    requires forall i :: Usable(draw(i))
    decreases |data|
  {
    if draw(k).length >= |data| then draw(k).length > |data| else Overshot(draw, k + 1, data[draw(k).length..])
  }

  /** A message is flagged exactly when its last sampled length is longer than what was left; an exact fit is not. */
  lemma {:induction false} FlaggedWhenOvershot(draw: nat -> Sample, k: nat, id: nat, seqNo: nat, data: bytes)
    requires data != [] && forall i :: Usable(draw(i))
    ensures Flagged(Fragment(draw, k, id, seqNo, data)) <==> Overshot(draw, k, data)
    decreases |data|
  {
    var next := (seqNo + 1) % UINT32;
    var c, rest, more := FirstCell(draw, k, id, seqNo, data);
    if draw(k).length >= |data| {
      LastOf(c, more);
    } else {
      assert Flagged(Fragment(draw, k, id, seqNo, data)) <==> Flagged(more) by { LastOf(c, more); }
      assert Overshot(draw, k, data) <==> Overshot(draw, k + 1, rest) by { RestOvershot(draw, k, data, rest); }
      FlaggedWhenOvershot(draw, k + 1, id, next, rest);
    }
  }

  lemma RestOvershot(draw: nat -> Sample, k: nat, data: bytes, rest: bytes)
    requires forall i :: Usable(draw(i))
    requires rest != [] && rest == if draw(k).length >= |data| then [] else data[draw(k).length..]
    ensures Overshot(draw, k, data) == Overshot(draw, k + 1, rest)
  {
  }

  lemma LastOf(c: Cell, more: seq<Cell>)
    ensures Flagged([c] + more) <==> if more == [] then c.flags != 0 else Flagged(more)
  {
    var cells := [c] + more;
    assert more != [] ==> cells[|cells| - 1] == more[|more| - 1];
  }

  /** Every cell can be encoded when every offset drawn lies in the padding of its cell. */
  ghost predicate OffsetsFit(cells: seq<Cell>) { forall i :: 0 <= i < |cells| ==> cells[i].offset <= |cells[i].padding| }

  ghost predicate AllConsistent(cells: seq<Cell>) { forall i :: 0 <= i < |cells| ==> Consistent(cells[i]) }

  lemma {:induction false} CellsAreConsistent(draw: nat -> Sample, k: nat, id: nat, seqNo: nat, data: bytes)
    requires id < UINT16 && seqNo < UINT32 && forall i :: Usable(draw(i))
    requires OffsetsFit(Fragment(draw, k, id, seqNo, data))
    ensures AllConsistent(Fragment(draw, k, id, seqNo, data))
    decreases |data|
  {
    if data != [] {
      var next := (seqNo + 1) % UINT32;
      var c, rest, more := FirstCell(draw, k, id, seqNo, data);
      FitsSplit(c, more);
      CellsAreConsistent(draw, k + 1, id, next, rest);
      ConsistentJoin(c, more);
    }
  }

  lemma FitsSplit(c: Cell, more: seq<Cell>)
    requires OffsetsFit([c] + more)
    ensures c.offset <= |c.padding| && OffsetsFit(more)
  {
    assert ([c] + more)[0] == c;
    assert forall i :: 0 <= i < |more| ==> more[i] == ([c] + more)[i + 1];
  }

  lemma ConsistentJoin(c: Cell, more: seq<Cell>)
    requires Consistent(c) && AllConsistent(more)
    ensures AllConsistent([c] + more)
  {
  }
}
