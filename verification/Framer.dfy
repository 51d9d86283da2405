/** The framer as the object that numbers cells and writes their content in place. */
module CellFramer {
  import opened Outcomes
  import opened Octets
  import opened Framing

  class Framer {
    const draw: nat -> Sample
    const ids: nat -> nat
    var seqNo: nat
    var samples: nat       // samples drawn so far
    var messages: nat      // identifiers drawn so far

    ghost predicate Valid()
      reads this
    {
      seqNo < UINT32 && (forall i :: Usable(draw(i))) && forall i :: ids(i) < UINT16
    }

    constructor (draw: nat -> Sample, ids: nat -> nat)
      requires (forall i :: Usable(draw(i))) && forall i :: ids(i) < UINT16
      ensures Valid() && seqNo == 0 && samples == 0 && messages == 0 && this.draw == draw && this.ids == ids
    {
      this.draw, this.ids, seqNo, samples, messages := draw, ids, 0, 0, 0;
    }

    /** One pass of the loop: a payload, its flag, its number, its padding. */
    method MakeOne(id: nat, data: bytes, payloadOffset: nat) returns (cell: Cell)
      requires Valid() && payloadOffset < |data|
      modifies this`seqNo, this`samples
      ensures cell == MakeCell(id, old(seqNo), draw(old(samples)), data[payloadOffset..])
      ensures seqNo == (old(seqNo) + 1) % UINT32 && samples == old(samples) + 1
    {
      var s := draw(samples);
      samples := samples + 1;
      var flags := 0;
      var payloadLen := s.length;
      if payloadOffset + payloadLen > |data| {
        payloadLen := |data| - payloadOffset;
        flags := END_FLAG;
      }
      var payload := data[payloadOffset..payloadOffset + payloadLen];
      assert payload == if s.length > |data| - payloadOffset then data[payloadOffset..] else data[payloadOffset..][..s.length];
      var paddingLen := s.cellSize - CELL_HEADER_LEN - payloadLen;
      if paddingLen < 0 {
        paddingLen := 0;
      }
      var padding := Filled(s.fill, paddingLen);
      cell := Cell(id, TYPE_DATA, flags, seqNo, s.timestamp, payloadLen % UINT16, paddingLen % UINT16, s.offset, payload, padding);
      seqNo := (seqNo + 1) % UINT32;
    }

    /** The cells still to come when the data has been read up to a point. */
    ghost function ToCome(data: bytes, at: nat, make: Maker): seq<Cell>
      requires Makes(make) && at <= |data|
      reads this
    {
      Cut(make, samples, seqNo, data[at..])
    }

    /** One pass of the loop: the first of the cells to come is made. */
    method Pass(id: nat, data: bytes, payloadOffset: nat, ghost make: Maker) returns (cell: Cell)
      requires Valid() && payloadOffset < |data| && make == MakerOf(draw, id) && Makes(make)
      modifies this`seqNo, this`samples
      ensures Valid() && 1 <= |cell.payload| <= |data| - payloadOffset
      ensures samples == old(samples) + 1 && seqNo == (old(seqNo) + 1) % UINT32
      ensures old(ToCome(data, payloadOffset, make)) == [cell] + ToCome(data, payloadOffset + |cell.payload|, make)
    {
      Unfolds(make, samples, seqNo, data, payloadOffset);
      cell := MakeOne(id, data, payloadOffset);
      assert cell == make(old(samples), old(seqNo), data[payloadOffset..]);
    }

    /** The same, seen from the whole of the data. */
    method NextCell(id: nat, data: bytes, payloadOffset: nat, ghost make: Maker, ghost cells: seq<Cell>, ghost start: nat,
        ghost whole: seq<Cell>) returns (cell: Cell)
      requires Valid() && payloadOffset < |data| && make == MakerOf(draw, id) && Makes(make)
      requires cells + ToCome(data, payloadOffset, make) == whole && Counts(start, |cells|, seqNo)
      modifies this`seqNo, this`samples
      ensures Valid() && 1 <= |cell.payload| <= |data| - payloadOffset
      ensures samples == old(samples) + 1 && Counts(start, |cells + [cell]|, seqNo)
      ensures cells + [cell] + ToCome(data, payloadOffset + |cell.payload|, make) == whole
    {
      CountsOn(start, |cells|, seqNo);
      cell := Pass(id, data, payloadOffset, make);
      Joined(cells, cell, ToCome(data, payloadOffset + |cell.payload|, make));
    }

    method Fragment(data: bytes) returns (cells: seq<Cell>)
      requires Valid()
      modifies this
      ensures Valid() && messages == old(messages) + 1
      ensures cells == Framing.Fragment(draw, old(samples), ids(old(messages)), old(seqNo), data)
      ensures samples == old(samples) + |cells| && Counts(old(seqNo), |cells|, seqNo)
    {
      var id := ids(messages);
      messages := messages + 1;
      MakerOfMakes(draw, id);
      assert data[0..] == data;
      cells := Loop(id, data, MakerOf(draw, id));
    }

    /** The loop: until the payload offset reaches the end of the data. */
    method Loop(id: nat, data: bytes, ghost make: Maker) returns (cells: seq<Cell>)
      requires Valid() && make == MakerOf(draw, id) && Makes(make)
      modifies this`seqNo, this`samples
      ensures Valid() && cells == old(ToCome(data, 0, make))
      ensures samples == old(samples) + |cells| && Counts(old(seqNo), |cells|, seqNo)
    {
      cells := [];
      var payloadOffset := 0;
      ghost var start, whole := seqNo, ToCome(data, 0, make);
      while payloadOffset < |data|
        invariant Valid() && payloadOffset <= |data|
        invariant cells + ToCome(data, payloadOffset, make) == whole
        invariant samples == old(samples) + |cells| && Counts(start, |cells|, seqNo)
        decreases |data| - payloadOffset
      {
        var cell := NextCell(id, data, payloadOffset, make, cells, start, whole);
        cells := cells + [cell];
        payloadOffset := payloadOffset + |cell.payload|;
      }
      assert data[payloadOffset..] == [];
    }

    /** The content of a cell: the payload at its window, the padding around it. */
    method FillContent(cell: Cell) returns (content: array<byte>)
      requires Consistent(cell)
      ensures fresh(content) && content[..] == Content(cell)
    {
      content := new byte[(cell.payloadLen + cell.paddingLen) % UINT16](_ => 0);
      Copy(content, cell.offset, cell.payload);
      Surround(content, cell.offset, cell.payload, cell.padding[..cell.offset], cell.padding[cell.offset..]);
    }

    /** The padding before and after the window; the payload in it stays. */
    method Surround(content: array<byte>, offset: nat, payload: bytes, before: bytes, after: bytes)
      requires content.Length == |before| + |payload| + |after| && offset == |before|
      requires content[offset..offset + |payload|] == payload
      modifies content
      ensures content[..] == before + payload + after
    {
      ghost var window := content[offset..];
      assert window[..|payload|] == payload;
      Copy(content, 0, before);
      assert content[offset..offset + |payload|] == content[offset..][..|payload|] == payload;
      Copy(content, offset + |payload|, after);
      assert content[..offset + |payload|] == content[..offset] + content[offset..offset + |payload|];
      assert content[..] == content[..offset + |payload|] + content[offset + |payload|..];
    }

    method EncodeCell(cell: Cell) returns (encoded: bytes)
      requires Consistent(cell)
      ensures encoded == Encode(cell)
    {
      var content := FillContent(cell);
      encoded := PutHeader(cell) + content[..];
    }

    method DecodeCell(data: bytes) returns (r: Outcome<Cell, DecodeError>)
      ensures r == Decode(data)
    {
      if |data| < CELL_HEADER_LEN {
        return Fail(TooShort);
      }
      var header := ReadHeader(data);
      if header.None? {
        return Fail(HeaderCut);
      }
      var cell := header.value;
      var content := data[CELL_HEADER_LEN..];
      if |content| != (cell.payloadLen + cell.paddingLen) % UINT16 {
        return Fail(LengthMismatch);
      }
      r := Split(cell, content);
    }
  }

  /** The first of the cells to come, and the others. */
  lemma Unfolds(make: Maker, k: nat, seqNo: nat, data: bytes, at: nat)
    requires Makes(make) && at < |data|
    ensures var c := make(k, seqNo, data[at..]);
      && 1 <= |c.payload| <= |data| - at
      && Cut(make, k, seqNo, data[at..]) == [c] + Cut(make, k + 1, (seqNo + 1) % UINT32, data[at + |c.payload|..])
  {
    var c := make(k, seqNo, data[at..]);
    assert data[at..][|c.payload|..] == data[at + |c.payload|..];
  }

  lemma Joined(cells: seq<Cell>, cell: Cell, rest: seq<Cell>)
    ensures cells + ([cell] + rest) == cells + [cell] + rest
  {
  }

  /** After n cells the counter stands at now, modulo 2^32. */
  ghost predicate Counts(start: nat, n: nat, now: nat) { now == (start + n) % UINT32 }

  lemma CountsOn(start: nat, n: nat, now: nat)
    requires Counts(start, n, now)
    ensures Counts(start, n + 1, (now + 1) % UINT32)
  {
  }

  /** copy into an array from a position on; everything else stays. */
  method Copy(x: array<byte>, at: nat, s: bytes)
    requires at + |s| <= x.Length
    modifies x
    ensures x[at..at + |s|] == s && x[..at] == old(x[..at]) && x[at + |s|..] == old(x[at + |s|..])
  {
    for i := 0 to |s|
      invariant x[at..at + i] == s[..i] && x[..at] == old(x[..at]) && x[at + |s|..] == old(x[at + |s|..])
    {
      x[at + i] := s[i];
    }
  }
}
