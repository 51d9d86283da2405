/** The ClientHello as the object that caches its encoding, with the binders rewritten in place. */
module ClientHelloMessage {
  import opened Outcomes
  import opened Octets
  import opened Codec
  import opened ClientHelloCodec
  import opened ClientHelloRoundTrip

  // ---------- the parsers' loops ----------

  function After<T>(items: seq<T>, more: Option<seq<T>>): Option<seq<T>> {
    match more case None => None case Some(rest) => Some(items + rest)
  }

  lemma AfterAfter<T>(items: seq<T>, item: T, more: Option<seq<T>>)
    ensures After(items, After([item], more)) == After(items + [item], more)
  {
    if more.Some? {
      assert items + ([item] + more.value) == items + [item] + more.value;
    }
  }

  lemma AfterNothing<T>(items: seq<T>, more: Option<seq<T>>)
    ensures After([], more) == more && After(items, Some([])) == Some(items)
  {
    assert items + [] == items;
    if more.Some? {
      assert [] + more.value == more.value;
    }
  }

  /** One item after the other until the input is used up. */
  method ReadAll<T>(read: bytes -> Read<T>, s: bytes) returns (r: Option<seq<T>>)
    ensures r == ReadItems(read, s)
  {
    var items: seq<T> := [];
    var rest := s;
    AfterNothing(items, ReadItems(read, s));
    while rest != []
      invariant ReadItems(read, s) == After(items, ReadItems(read, rest))
      decreases |rest|
    {
      match read(rest)
      case None => return None;
      case Some((item, after)) =>
        if |after| >= |rest| {
          return None;
        }
        AfterAfter(items, item, ReadItems(read, after));
        items := items + [item];
        rest := after;
    }
    AfterNothing(items, ReadItems(read, []));
    return Some(items);
  }

  /** The extension loop of unmarshal. */
  method ReadExtensions<M>(apply: (M, Extension, bool) -> Option<M>, start: M, s: bytes) returns (r: Option<M>)
    ensures r == ReadBlock(apply, start, s)
  {
    var m := start;
    var rest := s;
    while rest != []
      invariant ReadBlock(apply, start, s) == ReadBlock(apply, m, rest)
      decreases |rest|
    {
      var e := ReadExtension(rest);
      if e.None? {
        return None;
      }
      var applied := apply(m, e.value.0, e.value.1 == []);
      if applied.None? {
        return None;
      }
      m, rest := applied.value, e.value.1;
    }
    return Some(m);
  }

  /** The fixed fields, read off the front of the input. */
  method ReadFields(data: bytes) returns (r: Read<Hello>)
    ensures r == ReadHello(data)
  {
    var vers := ReadUint(data, 2);
    if vers.None? {
      return None;
    }
    var random := ReadBytes(vers.value.1, 32);
    if random.None? {
      return None;
    }
    var sessionId := ReadPrefixed(random.value.1, 1);
    if sessionId.None? {
      return None;
    }
    var suites := ReadPrefixed(sessionId.value.1, 2);
    if suites.None? {
      return None;
    }
    var cipherSuites := ReadAll(ReadUint16, suites.value.0);
    if cipherSuites.None? {
      return None;
    }
    return ReadCompression(suites.value.1, vers.value.0, random.value.0, sessionId.value.0, cipherSuites.value);
  }

  class ClientHelloMsg {
    var raw: array?<byte>
    var fields: ClientHello

    /** What is cached, if anything, is the encoding of the fields. */
    ghost predicate Cached()
      reads this, raw
    {
      raw != null ==> raw[..] == ClientHelloCodec.Marshal(fields)
    }

    constructor (fields: ClientHello)
      ensures this.fields == fields && raw == null && Cached()
    {
      this.fields := fields;
      raw := null;
    }

    method Unmarshal(data: array<byte>) returns (ok: bool)
      modifies this
      ensures raw == data
      ensures ok <==> ClientHelloCodec.Unmarshal(data[..]).Some?
      ensures ok ==> ClientHelloCodec.Unmarshal(data[..]) == Some(fields)
    {
      raw := data;
      if data.Length < 4 {
        return false;
      }
      var hello := ReadFields(data[4..]);
      if hello.None? {
        return false;
      }
      var (h, s) := hello.value;
      if s == [] {
        fields := ClientHello(h, NoExtensions(h.cipherSuites));
        return true;
      }
      var block := ReadPrefixed(s, 2);
      if block.None? || block.value.1 != [] {
        return false;
      }
      var ext := ReadExtensions(Apply, NoExtensions(h.cipherSuites), block.value.0);
      if ext.None? {
        return false;
      }
      fields := ClientHello(h, ext.value);
      return true;
    }

    /** Encodes once, then hands out the cached octets. */
    method Marshal() returns (data: array<byte>)
      requires raw == null ==> Encodable(fields)
      modifies this`raw
      ensures raw == data && (old(raw) != null ==> data == old(raw)) && (old(raw) == null ==> fresh(data))
      ensures old(Cached()) ==> data[..] == ClientHelloCodec.Marshal(fields)
    {
      if raw == null {
        var b := ClientHelloCodec.Marshal(fields);
        raw := Stored(b);
      }
      data := raw;
    }

    /** The length of the binders list with its prefix. */
    method BindersLen() returns (n: nat)
      ensures n == |PutBinders(fields.ext.pskBinders)|
    {
      n := 2;
      var binders := fields.ext.pskBinders;
      for i := 0 to |binders|
        invariant n == 2 + |Encode(Put8, binders[..i])|
      {
        assert binders[..i + 1] == binders[..i] + [binders[i]];
        EncodeAppend(Put8, binders[..i], [binders[i]]);
        n := n + 1;
        n := n + |binders[i]|;
      }
      assert binders[..|binders|] == binders;
    }

    /** The message through the list of identities, as section 4.2.11.2 of RFC 8446 asks. */
    method MarshalWithoutBinders() returns (truncated: bytes)
      requires Cached() && Encodable(fields) && fields.ext.pskIdentities != []
      modifies this`raw
      ensures Cached() && raw != null && (old(raw) != null ==> raw == old(raw)) && (old(raw) == null ==> fresh(raw))
      ensures truncated == WithoutBinders(fields)
    {
      var bindersLen := BindersLen();
      var full := Marshal();
      MarshalEndsWithBinders(fields);
      truncated := full[..full.Length - bindersLen];
    }

    /**
      New binders of the same lengths. When the encoding is cached the end of it is overwritten in
      place: the array then holds exactly what a fresh encoding of the new fields would, and what
      the binders are computed over has not changed.
     */
    method UpdateBinders(binders: seq<bytes>)
      requires Cached() && Encodable(fields) && fields.ext.pskIdentities != []
      requires SameLengths(binders, fields.ext.pskBinders)
      modifies this, raw
      ensures raw == old(raw) && Cached() && Encodable(fields)
      ensures fields == WithBinders(old(fields), binders)
      ensures WithoutBinders(fields) == WithoutBinders(old(fields))
    {
      ghost var head := BindersPlan(fields, binders);
      fields := WithBinders(fields, binders);
      if raw != null {
        var bindersLen := BindersLen();
        RewriteEnd(raw, raw.Length - bindersLen, binders, head);
      }
    }
  }

  /** Replaces what follows the head by the binders. */
  method RewriteEnd(raw: array<byte>, start: nat, binders: seq<bytes>, ghost head: bytes)
    requires start + |PutBinders(binders)| == raw.Length && All(Fits8, binders) && raw[..start] == head
    modifies raw
    ensures raw[..] == head + PutBinders(binders)
  {
    WriteBinders(raw, start, binders);
  }

  /** Writes one binder, with its length, at a position. */
  method WriteBinder(raw: array<byte>, pos: nat, binder: bytes)
    requires pos + 1 + |binder| <= raw.Length && Fits8(binder)
    modifies raw
    ensures raw[..pos] == old(raw[..pos]) && raw[pos..pos + 1 + |binder|] == Put8(binder)
  {
    raw[pos] := |binder| as byte;
    for i := 0 to |binder|
      invariant raw[..pos] == old(raw[..pos]) && raw[pos] == |binder| as byte
      invariant raw[pos + 1..pos + 1 + i] == binder[..i]
    {
      raw[pos + 1 + i] := binder[i];
    }
    assert BigEndian(|binder|, 1) == [|binder| as byte];
  }

  /** Writes the binders and then, in front of them, the length they came to; start leaves just the room for it. */
  method Stored(b: bytes) returns (data: array<byte>)
    ensures fresh(data) && data[..] == b
  {
    data := new byte[|b|](i requires 0 <= i < |b| => b[i]);
  }

  method WriteBinders(raw: array<byte>, start: nat, binders: seq<bytes>)
    requires start + |PutBinders(binders)| == raw.Length && All(Fits8, binders)
    modifies raw
    ensures raw[..] == old(raw[..start]) + PutBinders(binders)
  {
    var pos := WriteEntries(raw, start, binders);
    WriteLength(raw, start, pos - start - 2, Encode(Put8, binders));
  }

  method WriteEntries(raw: array<byte>, start: nat, binders: seq<bytes>) returns (pos: nat)
    requires start + 2 + |Encode(Put8, binders)| == raw.Length && All(Fits8, binders)
    modifies raw
    ensures pos == raw.Length && raw[..start] == old(raw[..start]) && raw[start + 2..] == Encode(Put8, binders)
  {
    pos := start + 2;
    for i := 0 to |binders|
      invariant pos == start + 2 + |Encode(Put8, binders[..i])| <= raw.Length
      invariant raw[..start] == old(raw[..start]) && raw[start + 2..pos] == Encode(Put8, binders[..i])
    {
      BinderFits(binders, i);
      ghost var before := raw[..];
      WriteBinder(raw, pos, binders[i]);
      Extended(before, raw[..], start, pos, pos + 1 + |binders[i]|);
      pos := pos + 1 + |binders[i]|;
    }
    assert binders[..|binders|] == binders;
  }

  lemma Extended(before: bytes, after: bytes, start: nat, from: nat, to: nat)
    requires start + 2 <= from <= to <= |after| == |before| && after[..from] == before[..from]
    ensures after[..start] == before[..start]
    ensures after[start + 2..to] == before[start + 2..from] + after[from..to]
  {
    assert after[..start] == after[..from][..start] && after[start + 2..from] == after[..from][start + 2..];
    assert before[start + 2..from] == before[..from][start + 2..];
  }

  lemma ThreeParts(s: bytes, start: nat)
    requires start + 2 <= |s|
    ensures s == s[..start] + (s[start..start + 2] + s[start + 2..])
  {
  }

  method WriteLength(raw: array<byte>, start: nat, n: nat, ghost rest: bytes)
    requires start + 2 + n == raw.Length && raw[start + 2..] == rest
    modifies raw
    ensures raw[..] == old(raw[..start]) + Prefixed(rest, 2)
  {
    raw[start] := ((n / 256) % 256) as byte;
    raw[start + 1] := (n % 256) as byte;
    BigEndianOfTwo(n);
    assert raw[..start] == old(raw[..start]);
    assert raw[start..start + 2] == BigEndian(n, 2);
    assert raw[start + 2..] == rest;
    ThreeParts(raw[..], start);
  }

  lemma BigEndianOfTwo(n: nat)
    ensures BigEndian(n, 2) == [((n / 256) % 256) as byte, (n % 256) as byte]
  {
    assert BigEndian(n / 256, 1) == [((n / 256) % 256) as byte];
  }

  lemma {:induction false} EncodeAppend<T>(put: T -> bytes, a: seq<T>, b: seq<T>)
    ensures Encode(put, a + b) == Encode(put, a) + Encode(put, b)
  {
    if a == [] {
      assert a + b == b;
    } else {
      EncodeAppend(put, a[1..], b);
      assert (a + b)[1..] == a[1..] + b;
      Regroup(put(a[0]), Encode(put, a[1..]), Encode(put, b));
    }
  }

  /** Binder i is written inside the list. */
  lemma BinderFits(binders: seq<bytes>, i: nat)
    requires i < |binders|
    ensures Encode(Put8, binders[..i + 1]) == Encode(Put8, binders[..i]) + Put8(binders[i])
    ensures |Encode(Put8, binders[..i])| + 1 + |binders[i]| <= |Encode(Put8, binders)|
  {
    assert binders[..i + 1] == binders[..i] + [binders[i]];
    EncodeAppend(Put8, binders[..i], [binders[i]]);
    assert Encode(Put8, [binders[i]]) == Put8(binders[i]) + [];
    assert binders == binders[..i + 1] + binders[i + 1..];
    EncodeAppend(Put8, binders[..i + 1], binders[i + 1..]);
  }

  // ---------- what changes when binders change ----------

  ghost predicate SameLengths(a: seq<bytes>, b: seq<bytes>) {
    |a| == |b| && forall i :: 0 <= i < |a| ==> |a[i]| == |b[i]|
  }

  function WithBinders(m: ClientHello, binders: seq<bytes>): ClientHello {
    m.(ext := m.ext.(pskBinders := binders))
  }

  /** marshalWithoutBinders */
  function WithoutBinders(m: ClientHello): bytes {
    var all := ClientHelloCodec.Marshal(m);
    if |all| >= |PutBinders(m.ext.pskBinders)| then all[..|all| - |PutBinders(m.ext.pskBinders)|] else []
  }

  lemma {:induction false} SameEncodedLength(a: seq<bytes>, b: seq<bytes>)
    requires SameLengths(a, b)
    ensures |Encode(Put8, a)| == |Encode(Put8, b)|
  {
    if a != [] {
      SameEncodedLength(a[1..], b[1..]);
    }
  }

  /** pre_shared_key is the last extension, behind those of the same message without it. */
  lemma {:induction false} PskIsLast(x: Extensions, k: nat)
    requires k < EXTENSIONS && x.pskIdentities != []
    ensures From(x, k) == From(x.(pskIdentities := [], pskBinders := []), k) + [Extension(PRE_SHARED_KEY, PutPskData(x))]
    decreases EXTENSIONS - k
  {
    var y := x.(pskIdentities := [], pskBinders := []);
    if k == 15 {
      assert From(x, 16) == [] && From(y, 16) == [];
      assert From(y, 15) == [];
    } else {
      assert Nth(x, k) == Nth(y, k);
      PskIsLast(x, k + 1);
    }
  }

  /** The block of a message with binders: everything through the identities, then the binders. */
  function BlockHead(x: Extensions, pskLen: nat): bytes {
    Encode(PutExtension, From(x.(pskIdentities := [], pskBinders := []), 0)) + PskHead(x, pskLen)
  }

  function PskHead(x: Extensions, pskLen: nat): bytes {
    BigEndian(PRE_SHARED_KEY, 2) + BigEndian(pskLen, 2) + Prefixed(Encode(PutIdentity, x.pskIdentities), 2)
  }

  lemma BlockEndsWithBinders(x: Extensions)
    requires x.pskIdentities != []
    ensures Encode(PutExtension, From(x, 0)) == BlockHead(x, |PutPskData(x)|) + PutBinders(x.pskBinders)
  {
    PskIsLast(x, 0);
    var others := From(x.(pskIdentities := [], pskBinders := []), 0);
    EncodeAppend(PutExtension, others, [Extension(PRE_SHARED_KEY, PutPskData(x))]);
    PskExtension(x);
    Regroup(Encode(PutExtension, others), PskHead(x, |PutPskData(x)|), PutBinders(x.pskBinders));
  }

  lemma PskExtension(x: Extensions)
    ensures Encode(PutExtension, [Extension(PRE_SHARED_KEY, PutPskData(x))]) == PskHead(x, |PutPskData(x)|) + PutBinders(x.pskBinders)
  {
    var e := Extension(PRE_SHARED_KEY, PutPskData(x));
    assert Encode(PutExtension, [e]) == PutExtension(e) + [];
  }

  /** The lengths in front: of the message, of the extension block, of the pre_shared_key extension. */
  datatype Lengths = Lengths(total: nat, block: nat, psk: nat)

  function LengthsOf(m: ClientHello): Lengths {
    var block := |Encode(PutExtension, From(m.ext, 0))|;
    Lengths(|PutHello(m.hello)| + 2 + block, block, |PutPskData(m.ext)|)
  }

  /** The message through the identities. */
  function Truncated(m: ClientHello, l: Lengths): bytes {
    [TYPE_CLIENT_HELLO] + BigEndian(l.total, 3) + (PutHello(m.hello) + (BigEndian(l.block, 2) + BlockHead(m.ext, l.psk)))
  }

  lemma Nest(a: bytes, b: bytes, c: bytes, d: bytes, e: bytes, f: bytes)
    ensures a + (b + (c + (d + (e + f)))) == a + b + (c + (d + e)) + f
  {
  }

  lemma MarshalEndsWithBinders(m: ClientHello)
    requires m.ext.pskIdentities != []
    ensures ClientHelloCodec.Marshal(m) == Truncated(m, LengthsOf(m)) + PutBinders(m.ext.pskBinders)
    ensures WithoutBinders(m) == Truncated(m, LengthsOf(m))
  {
    var block := Encode(PutExtension, From(m.ext, 0));
    var blockHead := BlockHead(m.ext, |PutPskData(m.ext)|);
    var binders := PutBinders(m.ext.pskBinders);
    BlockEndsWithBinders(m.ext);
    PskIsLast(m.ext, 0);
    var l := LengthsOf(m);
    MarshalIs(m);
    Nest([TYPE_CLIENT_HELLO], BigEndian(l.total, 3), PutHello(m.hello), BigEndian(l.block, 2), blockHead, binders);
    Cut(Truncated(m, l), binders);
  }

  lemma Cut(a: bytes, b: bytes)
    ensures (a + b)[..|a + b| - |b|] == a
  {
  }

  /** The encoding of a message with an extension block, length by length. */
  lemma MarshalIs(m: ClientHello)
    requires From(m.ext, 0) != []
    ensures ClientHelloCodec.Marshal(m) ==
      [TYPE_CLIENT_HELLO] + (BigEndian(LengthsOf(m).total, 3)
        + (PutHello(m.hello) + (BigEndian(LengthsOf(m).block, 2) + Encode(PutExtension, From(m.ext, 0)))))
  {
    assert |PutHello(m.hello) + PutTail(From(m.ext, 0))| == LengthsOf(m).total;
  }

  lemma LengthsKept(m: ClientHello, binders: seq<bytes>)
    requires m.ext.pskIdentities != [] && SameLengths(binders, m.ext.pskBinders)
    ensures LengthsOf(WithBinders(m, binders)) == LengthsOf(m)
    ensures Truncated(WithBinders(m, binders), LengthsOf(m)) == Truncated(m, LengthsOf(m))
    ensures |PutBinders(binders)| == |PutBinders(m.ext.pskBinders)|
  {
    var m1 := WithBinders(m, binders);
    SameEncodedLength(binders, m.ext.pskBinders);
    assert m1.ext.(pskIdentities := [], pskBinders := []) == m.ext.(pskIdentities := [], pskBinders := []);
    BlockEndsWithBinders(m.ext);
    BlockEndsWithBinders(m1.ext);
  }

  /** Binders of the same lengths change the end of the encoding and nothing else. */
  lemma BindersReplaced(m: ClientHello, binders: seq<bytes>)
    requires m.ext.pskIdentities != [] && SameLengths(binders, m.ext.pskBinders)
    ensures WithoutBinders(WithBinders(m, binders)) == WithoutBinders(m)
    ensures ClientHelloCodec.Marshal(WithBinders(m, binders)) == WithoutBinders(m) + PutBinders(binders)
    ensures |ClientHelloCodec.Marshal(m)| == |WithoutBinders(m)| + |PutBinders(binders)|
  {
    MarshalEndsWithBinders(m);
    MarshalEndsWithBinders(WithBinders(m, binders));
    LengthsKept(m, binders);
  }

  /** What stays in front of the binders, and everything UpdateBinders needs to know about it. */
  lemma BindersPlan(m: ClientHello, binders: seq<bytes>) returns (head: bytes)
    requires Encodable(m) && m.ext.pskIdentities != [] && SameLengths(binders, m.ext.pskBinders)
    ensures var m1 := WithBinders(m, binders);
      && Encodable(m1) && m1.ext.pskBinders == binders && All(Fits8, binders)
      && WithoutBinders(m) == head && WithoutBinders(m1) == head
      && ClientHelloCodec.Marshal(m1) == head + PutBinders(binders)
      && |ClientHelloCodec.Marshal(m)| == |head| + |PutBinders(binders)| && ClientHelloCodec.Marshal(m)[..|head|] == head
  {
    BindersReplaced(m, binders);
    StillEncodable(m, binders);
    head := WithoutBinders(m);
  }

  lemma StillEncodable(m: ClientHello, binders: seq<bytes>)
    requires Encodable(m) && m.ext.pskIdentities != [] && SameLengths(binders, m.ext.pskBinders)
    ensures Encodable(WithBinders(m, binders))
  {
    LengthsKept(m, binders);
    StillFits(m.ext, binders);
    assert All(Fits8, binders) by {
      assert forall i :: 0 <= i < |binders| ==> Fits8(m.ext.pskBinders[i]);
    }
  }

  lemma StillFits(x: Extensions, binders: seq<bytes>)
    requires x.pskIdentities != [] && SameLengths(binders, x.pskBinders) && All(FitsExtension, From(x, 0))
    ensures All(FitsExtension, From(x.(pskBinders := binders), 0)) && From(x.(pskBinders := binders), 0) != []
  {
    var x1 := x.(pskBinders := binders);
    SameEncodedLength(binders, x.pskBinders);
    PskIsLast(x, 0);
    PskIsLast(x1, 0);
    var others := From(x.(pskIdentities := [], pskBinders := []), 0);
    assert x1.(pskIdentities := [], pskBinders := []) == x.(pskIdentities := [], pskBinders := []);
    LastReplaced(others, Extension(PRE_SHARED_KEY, PutPskData(x)), Extension(PRE_SHARED_KEY, PutPskData(x1)));
  }

  lemma LastReplaced(others: seq<Extension>, e: Extension, e1: Extension)
    requires All(FitsExtension, others + [e]) && e1.typ == e.typ && |e1.data| == |e.data|
    ensures All(FitsExtension, others + [e1])
  {
    assert FitsExtension((others + [e])[|others|]);
    assert forall i :: 0 <= i < |others| ==> (others + [e])[i] == (others + [e1])[i];
  }

  // ---------- what a received message ends with ----------

  predicate EndsWith(s: bytes, end: bytes) { |s| >= |end| && s[|s| - |end|..] == end }

  lemma EndsWithTrans(s: bytes, n: nat, end: bytes)
    requires n <= |s| && EndsWith(s[n..], end)
    ensures EndsWith(s, end)
  {
  }

  lemma ReadPrefixedInverse(s: bytes, width: nat)
    requires ReadPrefixed(s, width).Some?
    ensures var (x, rest) := ReadPrefixed(s, width).value;
      s == Prefixed(x, width) + rest && rest == s[width + |x|..]
  {
    BigEndianOfValue(s[..width]);
  }

  lemma {:induction false} ReadItems8Inverse(s: bytes)
    requires ReadItems(Read8, s).Some?
    ensures s == Encode(Put8, ReadItems(Read8, s).value)
    decreases |s|
  {
    if s != [] {
      ReadPrefixedInverse(s, 1);
      var (x, rest) := Read8(s).value;
      ReadItems8Inverse(rest);
      var items := ReadItems(Read8, rest).value;
      assert ReadItems(Read8, s).value == [x] + items;
      assert ([x] + items)[1..] == items;
    }
  }

  lemma PskInverse(data: bytes)
    requires ReadPsk(data).Some?
    ensures EndsWith(data, PutBinders(ReadPsk(data).value.binders))
  {
    var (list, rest) := ReadPrefixed(data, 2).value;
    ReadPrefixedInverse(data, 2);
    ReadPrefixedInverse(rest, 2);
    ReadItems8Inverse(ReadPrefixed(rest, 2).value.0);
    assert rest == PutBinders(ReadPsk(data).value.binders);
  }

  lemma ApplyPskInverse(x: Extensions, data: bytes)
    requires x.pskBinders == [] && ApplyPsk(x, data).Some?
    ensures EndsWith(data, PutBinders(ApplyPsk(x, data).value.pskBinders))
  {
    PskInverse(data);
    assert x.pskBinders + ReadPsk(data).value.binders == ReadPsk(data).value.binders;
  }

  lemma ReadExtensionInverse(s: bytes) returns (e: Extension, rest: bytes)
    requires ReadExtension(s).Some?
    ensures ReadExtension(s) == Some((e, rest)) && |rest| < |s|
    ensures |s| >= 4 + |e.data| && rest == s[4 + |e.data|..] && e.data == s[4..4 + |e.data|]
  {
    ReadPrefixedInverse(s[2..], 2);
    e, rest := ReadExtension(s).value.0, ReadExtension(s).value.1;
  }

  lemma {:induction false} BlockInverse(x: Extensions, s: bytes)
    requires x.pskIdentities == [] && x.pskBinders == [] && ReadBlock(Apply, x, s).Some?
    requires ReadBlock(Apply, x, s).value.pskIdentities != []
    ensures EndsWith(s, PutBinders(ReadBlock(Apply, x, s).value.pskBinders))
    decreases |s|
  {
    var e, rest := ReadExtensionInverse(s);
    var x1 := Apply(x, e, rest == []).value;
    if e.typ == PRE_SHARED_KEY {
      ApplyPskInverse(x, e.data);
      assert s[4..] == e.data;
      EndsWithTrans(s, 4, PutBinders(x1.pskBinders));
    } else {
      BlockInverse(x1, rest);
      EndsWithTrans(s, 4 + |e.data|, PutBinders(ReadBlock(Apply, x1, rest).value.pskBinders));
    }
  }

  /**
    Whoever sent it: a message that unmarshal accepts with pre-shared keys ends with exactly the
    binders it returned, so that cutting their encoded length off leaves everything through the identities.
   */
  lemma ReceivedEndsWithBinders(data: bytes)
    requires ClientHelloCodec.Unmarshal(data).Some? && ClientHelloCodec.Unmarshal(data).value.ext.pskIdentities != []
    ensures EndsWith(data, PutBinders(ClientHelloCodec.Unmarshal(data).value.ext.pskBinders))
  {
    var (hello, rest) := ReadHello(data[4..]).value;
    ReadHelloLeaves(data[4..]);
    var end := TailInverse(NoExtensions(hello.cipherSuites), rest);
    EndsWithTrans(data[4..], |data| - 4 - |rest|, end);
    EndsWithTrans(data, 4, end);
  }

  lemma TailInverse(x: Extensions, s: bytes) returns (end: bytes)
    requires x.pskIdentities == [] && x.pskBinders == [] && ReadTail(Apply, x, s).Some?
    requires ReadTail(Apply, x, s).value.pskIdentities != []
    ensures EndsWith(s, end) && end == PutBinders(ReadTail(Apply, x, s).value.pskBinders)
  {
    ReadPrefixedInverse(s, 2);
    var block := ReadPrefixed(s, 2).value.0;
    assert s[2..] == block;
    BlockInverse(x, block);
    end := PutBinders(ReadBlock(Apply, x, block).value.pskBinders);
    EndsWithTrans(s, 2, end);
  }

  lemma ReadHelloLeaves(s: bytes)
    requires ReadHello(s).Some?
    ensures EndsWith(s, ReadHello(s).value.1)
  {
    ReadRandomLeaves(s[2..], ReadUint(s, 2).value.0);
    EndsWithTrans(s, 2, ReadHello(s).value.1);
  }

  lemma ReadRandomLeaves(s: bytes, vers: nat)
    requires ReadRandom(s, vers).Some?
    ensures EndsWith(s, ReadRandom(s, vers).value.1)
  {
    var rest := s[32..];
    ReadPrefixedInverse(rest, 1);
    var (sessionId, after) := ReadPrefixed(rest, 1).value;
    ReadCipherSuitesLeaves(after, vers, s[..32], sessionId);
    EndsWithTrans(rest, 1 + |sessionId|, ReadRandom(s, vers).value.1);
    EndsWithTrans(s, 32, ReadRandom(s, vers).value.1);
  }

  lemma ReadCipherSuitesLeaves(s: bytes, vers: nat, random: bytes, sessionId: bytes)
    requires ReadCipherSuites(s, vers, random, sessionId).Some?
    ensures EndsWith(s, ReadCipherSuites(s, vers, random, sessionId).value.1)
  {
    ReadPrefixedInverse(s, 2);
    var (suites, rest) := ReadPrefixed(s, 2).value;
    ReadPrefixedInverse(rest, 1);
    EndsWithTrans(s, 2 + |suites|, ReadCipherSuites(s, vers, random, sessionId).value.1);
  }
}
