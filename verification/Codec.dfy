/** Length-prefixed formats: what the message builders append and what the parsers read back. */
module Codec {
  import opened Outcomes
  import opened Octets

  /** A value and what is left of the input after it. */
  type Read<T> = Option<(T, bytes)>

  /** x behind its length in width octets. */
  function Prefixed(x: bytes, width: nat): (s: bytes)
    ensures |s| == width + |x|
  {
    BigEndian(|x|, width) + x
  }

  function ReadUint(s: bytes, width: nat): Read<nat> {
    if |s| < width then None else Some((Value(s[..width]), s[width..]))
  }

  function ReadBytes(s: bytes, n: nat): Read<bytes> {
    if |s| < n then None else Some((s[..n], s[n..]))
  }

  function ReadPrefixed(s: bytes, width: nat): (r: Read<bytes>)
    ensures r.Some? ==> |s| == width + |r.value.0| + |r.value.1|
  {
    match ReadUint(s, width)
    case None => None
    case Some((n, rest)) => ReadBytes(rest, n)
  }

  lemma ReadBytesBack(x: bytes, rest: bytes)
    ensures ReadBytes(x + rest, |x|) == Some((x, rest))
  {
  }

  lemma ReadUintBack(n: nat, width: nat, rest: bytes)
    requires n < Pow256(width)
    ensures ReadUint(BigEndian(n, width) + rest, width) == Some((n, rest))
  {
    ValueOfBigEndian(n, width);
    ReadBytesBack(BigEndian(n, width), rest);
  }

  lemma ReadPrefixedBack(x: bytes, width: nat, rest: bytes)
    requires |x| < Pow256(width)
    ensures ReadPrefixed(Prefixed(x, width) + rest, width) == Some((x, rest))
  {
    assert Prefixed(x, width) + rest == BigEndian(|x|, width) + (x + rest);
    ReadUintBack(|x|, width, x + rest);
    ReadBytesBack(x, rest);
  }

  /** The input is one prefixed string and nothing else. */
  lemma ReadPrefixedWhole(x: bytes, width: nat)
    requires |x| < Pow256(width)
    ensures ReadPrefixed(Prefixed(x, width), width) == Some((x, []))
  {
    ReadPrefixedBack(x, width, []);
    assert Prefixed(x, width) + [] == Prefixed(x, width);
  }

  // ---------- lists without a count: items until the input is used up ----------

  function Encode<T>(put: T -> bytes, items: seq<T>): bytes {
    if items == [] then [] else put(items[0]) + Encode(put, items[1..])
  }

  /** An item that reads nothing would never end; no parser here has one. */
  function ReadItems<T>(read: bytes -> Read<T>, s: bytes): Option<seq<T>>
    decreases |s|
  {
    if s == [] then Some([])
    else
      match read(s)
      case None => None
      case Some((item, rest)) =>
        if |rest| >= |s| then None
        else
          match ReadItems(read, rest)
          case None => None
          case Some(items) => Some([item] + items)
  }

  /** read undoes put on the items that fit, and refuses those that are not accepted. */
  ghost predicate Undoes<T(!new)>(read: bytes -> Read<T>, put: T -> bytes, fits: T -> bool, accepted: T -> bool) {
    forall x: T, rest: bytes | fits(x) :: UndoesOne(read, put, accepted, x, rest)
  }

  ghost predicate UndoesOne<T>(read: bytes -> Read<T>, put: T -> bytes, accepted: T -> bool, x: T, rest: bytes) {
    put(x) != [] && if accepted(x) then read(put(x) + rest) == Some((x, rest)) else read(put(x) + rest) == None
  }

  predicate All<T>(p: T -> bool, items: seq<T>) {
    forall i :: 0 <= i < |items| ==> p(items[i])
  }

  lemma {:induction false} ReadItemsBack<T(!new)>(
      read: bytes -> Read<T>, put: T -> bytes, fits: T -> bool, accepted: T -> bool, items: seq<T>)
    requires Undoes(read, put, fits, accepted) && All(fits, items)
    ensures ReadItems(read, Encode(put, items)) == if All(accepted, items) then Some(items) else None
  {
    if items != [] {
      var x, rest := items[0], items[1..];
      assert UndoesOne(read, put, accepted, x, Encode(put, rest));
      ReadItemsBack(read, put, fits, accepted, rest);
      assert All(accepted, items) <==> accepted(x) && All(accepted, rest);
      assert items == [x] + rest;
    }
  }

  // ---------- the items the messages use ----------

  function PutUint16(n: nat): bytes { BigEndian(n, 2) }
  function ReadUint16(s: bytes): Read<nat> { ReadUint(s, 2) }
  predicate IsUint16(n: nat) { n < 65536 }
  predicate AnyUint16(n: nat) { true }

  lemma Uint16Items()
    ensures Undoes(ReadUint16, PutUint16, IsUint16, AnyUint16)
  {
    Pow256Of8();
    forall n: nat, rest: bytes | IsUint16(n) 
      ensures PutUint16(n) != [] && ReadUint16(PutUint16(n) + rest) == Some((n, rest))
    {
      assert |PutUint16(n)| == 2;
      ReadUintBack(n, 2, rest);
    }
  }

  predicate NonEmpty(x: bytes) { x != [] }

  function ReadNonEmpty(s: bytes, width: nat): Read<bytes> {
    match ReadPrefixed(s, width)
    case None => None
    case Some((x, rest)) => if x == [] then None else Some((x, rest))
  }

  lemma ReadNonEmptyBack(x: bytes, width: nat, rest: bytes)
    requires |x| < Pow256(width)
    ensures ReadNonEmpty(Prefixed(x, width) + rest, width) == if NonEmpty(x) then Some((x, rest)) else None
  {
    ReadPrefixedBack(x, width, rest);
  }

  function Put8(x: bytes): bytes { Prefixed(x, 1) }
  function Read8(s: bytes): Read<bytes> { ReadNonEmpty(s, 1) }
  predicate Fits8(x: bytes) { |x| < 256 }

  lemma Prefixed8Items()
    ensures Undoes(Read8, Put8, Fits8, NonEmpty)
  {
    Pow256Of8();
    forall x: bytes, rest: bytes | Fits8(x) ensures UndoesOne(Read8, Put8, NonEmpty, x, rest) {
      assert |Put8(x)| == 1 + |x|;
      ReadNonEmptyBack(x, 1, rest);
    }
  }

  function Put16(x: bytes): bytes { Prefixed(x, 2) }
  function Read16(s: bytes): Read<bytes> { ReadNonEmpty(s, 2) }
  predicate Fits16(x: bytes) { |x| < 65536 }

  lemma Prefixed16Items()
    ensures Undoes(Read16, Put16, Fits16, NonEmpty)
  {
    Pow256Of8();
    forall x: bytes, rest: bytes | Fits16(x) ensures UndoesOne(Read16, Put16, NonEmpty, x, rest) {
      assert |Put16(x)| == 2 + |x|;
      ReadNonEmptyBack(x, 2, rest);
    }
  }

  // ---------- extension blocks ----------

  datatype Extension = Extension(typ: nat, data: bytes)

  function PutExtension(e: Extension): (s: bytes)
    ensures |s| >= 4
  {
    BigEndian(e.typ, 2) + Prefixed(e.data, 2)
  }

  predicate FitsExtension(e: Extension) { e.typ < 65536 && |e.data| < 65536 }

  /** Type and data of the next extension. */
  function ReadExtension(s: bytes): (r: Read<Extension>)
    ensures r.Some? ==> |r.value.1| < |s|
  {
    match ReadUint(s, 2)
    case None => None
    case Some((typ, s1)) =>
      match ReadPrefixed(s1, 2)
      case None => None
      case Some((data, rest)) => Some((Extension(typ, data), rest))
  }

  /** The parsers' loop: every extension changes the message, or makes it unacceptable; some must be the last. */
  function ReadBlock<M>(apply: (M, Extension, bool) -> Option<M>, m: M, s: bytes): Option<M>
    decreases |s|
  {
    if s == [] then Some(m)
    else
      match ReadExtension(s)
      case None => None
      case Some((e, rest)) =>
        match apply(m, e, rest == [])
        case None => None
        case Some(m1) => ReadBlock(apply, m1, rest)
  }

  /** The same on a list of extensions instead of octets. */
  function Fold<M>(apply: (M, Extension, bool) -> Option<M>, m: M, es: seq<Extension>): Option<M> {
    if es == [] then Some(m)
    else
      match apply(m, es[0], |es| == 1)
      case None => None
      case Some(m1) => Fold(apply, m1, es[1..])
  }

  lemma ReadExtensionBack(e: Extension, rest: bytes)
    requires FitsExtension(e)
    ensures ReadExtension(PutExtension(e) + rest) == Some((e, rest))
  {
    Pow256Of8();
    assert PutExtension(e) + rest == BigEndian(e.typ, 2) + (Prefixed(e.data, 2) + rest);
    ReadUintBack(e.typ, 2, Prefixed(e.data, 2) + rest);
    ReadPrefixedBack(e.data, 2, rest);
  }

  /** Reading a block that was built from extensions is folding over those extensions. */
  lemma {:induction false} ReadBlockBack<M>(apply: (M, Extension, bool) -> Option<M>, m: M, es: seq<Extension>)
    requires All(FitsExtension, es)
    ensures ReadBlock(apply, m, Encode(PutExtension, es)) == Fold(apply, m, es)
  {
    if es != [] {
      var rest := Encode(PutExtension, es[1..]);
      ReadExtensionBack(es[0], rest);
      assert rest == [] <==> |es| == 1;
      match apply(m, es[0], |es| == 1)
      case None =>
      case Some(m1) => ReadBlockBack(apply, m1, es[1..]);
    }
  }
}
