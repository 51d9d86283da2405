/** What unmarshal makes of a ClientHello that marshal wrote. */
module ClientHelloRoundTrip {
  import opened Outcomes
  import opened Octets
  import opened Codec
  import opened ClientHelloCodec

  /** Every length fits the prefix it travels behind; marshal panics on anything else. */
  ghost predicate Encodable(m: ClientHello) {
    && EncodableHello(m.hello) && ItemsFit(m.ext) && All(FitsExtension, From(m.ext, 0))
    && |Encode(PutExtension, From(m.ext, 0))| < 65536
    && |PutHello(m.hello)| + |PutTail(From(m.ext, 0))| < 0x100_0000
  }

  predicate EncodableHello(h: Hello) {
    && h.vers < 65536 && |h.random| == 32 && |h.sessionId| < 256
    && All(IsUint16, h.cipherSuites) && |Encode(PutUint16, h.cipherSuites)| < 65536 && |h.compressionMethods| < 256
  }

  predicate ItemsFit(x: Extensions) {
    && All(IsUint16, x.supportedCurves) && All(IsUint16, x.signatureAlgorithms) && All(IsUint16, x.signatureAlgorithmsCert)
    && All(IsUint16, x.supportedVersions) && |Encode(PutUint16, x.supportedVersions)| < 256
    && |x.supportedPoints| < 256 && |x.renegotiation| < 256 && |x.pskModes| < 256
    && All(Fits8, x.alpnProtocols) && All(Fits8, x.pskBinders)
    && All(FitsShare, x.keyShares) && All(FitsIdentity, x.pskIdentities)
  }

  /** What unmarshal refuses in the k-th extension. */
  predicate Good(x: Extensions, k: nat) {
    if k == 0 then x.serverName == [] || x.serverName[|x.serverName| - 1] != DOT
    else if k == 8 then All(NonEmpty, x.alpnProtocols)
    else if k == 12 then All(GoodShare, x.keyShares)
    else if k == 15 then
      x.pskIdentities == [] || (All(GoodIdentity, x.pskIdentities) && x.pskBinders != [] && All(NonEmpty, x.pskBinders))
    else true
  }

  /** What has been read after the first k extensions. scsv: the signalling cipher suite was offered. */
  function Part(x: Extensions, scsv: bool, k: nat): Extensions {
    Extensions(
      if k > 0 then x.serverName else [], k > 1 && x.ocspStapling,
      if k > 2 then x.supportedCurves else [], if k > 3 then x.supportedPoints else [],
      k > 4 && x.ticketSupported, if k > 4 && x.ticketSupported then x.sessionTicket else [],
      if k > 5 then x.signatureAlgorithms else [], if k > 6 then x.signatureAlgorithmsCert else [],
      scsv || (k > 7 && x.renegotiationSupported), if k > 7 && x.renegotiationSupported then x.renegotiation else [],
      if k > 8 then x.alpnProtocols else [], k > 9 && x.scts,
      if k > 10 then x.supportedVersions else [], if k > 11 then x.cookie else [],
      if k > 12 then x.keyShares else [], k > 13 && x.earlyData,
      if k > 14 then x.pskModes else [], if k > 15 then x.pskIdentities else [],
      if k > 15 && x.pskIdentities != [] then x.pskBinders else [])
  }

  lemma NothingBefore<T>(v: seq<T>)
    ensures [] + v == v
  {
  }

  lemma ServerNameBack(name: bytes)
    requires name != [] && |PutServerName(name)| < 65536
    ensures ReadServerName([], PutServerName(name)) == if name[|name| - 1] == DOT then None else Some(name)
  {
    Pow256Of8();
    var list := [0 as byte] + Prefixed(name, 2);
    ReadPrefixedWhole(list, 2);
    assert BigEndian(0, 1) == [0 as byte];
    ReadUintBack(0, 1, Prefixed(name, 2));
    assert Prefixed(name, 2) + [] == Prefixed(name, 2);
    ReadNonEmptyBack(name, 2, []);
    assert ReadNames(name, []) == Some(name);
  }

  lemma StatusRequestBack()
    ensures ReadStatusRequest([1, 0, 0, 0, 0]) == Some(true)
  {
    Pow256Of8();
    assert BigEndian(1, 1) == [1 as byte] && BigEndian(0, 2) == [0 as byte, 0 as byte];
    assert Prefixed([], 2) == [0 as byte, 0];
    assert [1 as byte, 0, 0, 0, 0] == BigEndian(1, 1) + [0, 0, 0, 0];
    ReadUintBack(1, 1, [0, 0, 0, 0]);
    assert [0 as byte, 0, 0, 0] == Prefixed([], 2) + [0, 0];
    ReadPrefixedBack([], 2, [0, 0]);
    ReadPrefixedWhole([], 2);
  }

  lemma Uint16sBack(items: seq<nat>, width: nat)
    requires items != [] && All(IsUint16, items) && |Encode(PutUint16, items)| < Pow256(width)
    ensures ReadUint16s(PutUint16s(items, width), width) == Some(items)
  {
    Uint16Items();
    ReadListBack(ReadUint16, PutUint16, IsUint16, AnyUint16, items, width, false);
    assert All(AnyUint16, items);
  }

  lemma OnlyBack(x: bytes, width: nat, mayBeEmpty: bool)
    requires |x| < Pow256(width) && (x != [] || mayBeEmpty)
    ensures ReadOnly(Prefixed(x, width), width, mayBeEmpty) == Some(x)
  {
    ReadPrefixedWhole(x, width);
  }

  /** The list of binders: refused when there is none, or an empty one. */
  lemma BindersBack(binders: seq<bytes>)
    requires All(Fits8, binders) && |PutBinders(binders)| < 65536
    ensures ReadList(Read8, PutBinders(binders), 2, false) == if binders != [] && All(NonEmpty, binders) then Some(binders) else None
  {
    Pow256Of8();
    if binders == [] {
      ReadPrefixedWhole([], 2);
    } else {
      Prefixed8Items();
      ReadListBack(Read8, Put8, Fits8, NonEmpty, binders, 2, false);
    }
  }

  lemma PskBack(x: Extensions)
    requires x.pskIdentities != [] && ItemsFit(x) && |PutPskData(x)| < 65536
    ensures ReadPsk(PutPskData(x)) == if Good(x, 15) then Some(Psk(x.pskIdentities, x.pskBinders)) else None
  {
    Pow256Of8();
    IdentityItems();
    var list := Encode(PutIdentity, x.pskIdentities);
    ReadPrefixedBack(list, 2, PutBinders(x.pskBinders));
    EncodeNonEmpty(ReadIdentity, PutIdentity, FitsIdentity, GoodIdentity, x.pskIdentities);
    ReadItemsBack(ReadIdentity, PutIdentity, FitsIdentity, GoodIdentity, x.pskIdentities);
    BindersBack(x.pskBinders);
  }

  lemma PskApplied(x: Extensions, part: Extensions)
    requires x.pskIdentities != [] && ItemsFit(x) && |PutPskData(x)| < 65536
    requires part.pskIdentities == [] && part.pskBinders == []
    ensures ApplyPsk(part, PutPskData(x)) ==
      if Good(x, 15) then Some(part.(pskIdentities := x.pskIdentities, pskBinders := x.pskBinders)) else None
  {
    PskBack(x);
    NothingBefore(x.pskIdentities);
    NothingBefore(x.pskBinders);
  }

  /** The k-th extension, read after the ones before it, adds exactly its own fields, or is refused. */
  ghost predicate Steps(x: Extensions, scsv: bool, k: nat, last: bool)
    requires k < EXTENSIONS
  {
    match Nth(x, k)
    case None => Good(x, k) && Part(x, scsv, k + 1) == Part(x, scsv, k)
    case Some(e) => Apply(Part(x, scsv, k), e, last) == if Good(x, k) then Some(Part(x, scsv, k + 1)) else None
  }

  lemma Step0To3(x: Extensions, scsv: bool, k: nat, last: bool)
    requires k < 4 && ItemsFit(x) && (Nth(x, k).Some? ==> FitsExtension(Nth(x, k).value))
    ensures Steps(x, scsv, k, last)
  {
    Pow256Of8();
    if k == 0 && x.serverName != [] {
      ServerNameBack(x.serverName);
    } else if k == 1 {
      StatusRequestBack();
    } else if k == 2 && x.supportedCurves != [] {
      Uint16sBack(x.supportedCurves, 2);
      NothingBefore(x.supportedCurves);
    } else if k == 3 && x.supportedPoints != [] {
      OnlyBack(x.supportedPoints, 1, false);
    }
  }

  lemma Step4To5(x: Extensions, scsv: bool, k: nat, last: bool)
    requires 4 <= k < 6 && ItemsFit(x) && (Nth(x, k).Some? ==> FitsExtension(Nth(x, k).value))
    ensures Steps(x, scsv, k, last)
  {
    Pow256Of8();
    if k == 5 && x.signatureAlgorithms != [] {
      Uint16sBack(x.signatureAlgorithms, 2);
      NothingBefore(x.signatureAlgorithms);
    }
  }

  lemma Step6To7(x: Extensions, scsv: bool, k: nat, last: bool)
    requires 6 <= k < 8 && ItemsFit(x) && (Nth(x, k).Some? ==> FitsExtension(Nth(x, k).value))
    ensures Steps(x, scsv, k, last)
  {
    Pow256Of8();
    if k == 6 && x.signatureAlgorithmsCert != [] {
      Uint16sBack(x.signatureAlgorithmsCert, 2);
      NothingBefore(x.signatureAlgorithmsCert);
    } else if k == 7 {
      OnlyBack(x.renegotiation, 1, true);
    }
  }

  lemma Step8To9(x: Extensions, scsv: bool, k: nat, last: bool)
    requires 8 <= k < 10 && ItemsFit(x) && (Nth(x, k).Some? ==> FitsExtension(Nth(x, k).value))
    ensures Steps(x, scsv, k, last)
  {
    Pow256Of8();
    if k == 8 && x.alpnProtocols != [] {
      Prefixed8Items();
      ReadListBack(Read8, Put8, Fits8, NonEmpty, x.alpnProtocols, 2, false);
      NothingBefore(x.alpnProtocols);
    }
  }

  lemma Step10To11(x: Extensions, scsv: bool, k: nat, last: bool)
    requires 10 <= k < 12 && ItemsFit(x) && (Nth(x, k).Some? ==> FitsExtension(Nth(x, k).value))
    ensures Steps(x, scsv, k, last)
  {
    Pow256Of8();
    if k == 10 && x.supportedVersions != [] {
      Uint16sBack(x.supportedVersions, 1);
      NothingBefore(x.supportedVersions);
    } else if k == 11 && x.cookie != [] {
      OnlyBack(x.cookie, 2, false);
    }
  }

  lemma Step12To13(x: Extensions, scsv: bool, k: nat, last: bool)
    requires 12 <= k < 14 && ItemsFit(x) && (Nth(x, k).Some? ==> FitsExtension(Nth(x, k).value))
    ensures Steps(x, scsv, k, last)
  {
    Pow256Of8();
    if k == 12 && x.keyShares != [] {
      ShareItems();
      ReadListBack(ReadShare, PutShare, FitsShare, GoodShare, x.keyShares, 2, true);
      NothingBefore(x.keyShares);
    }
  }

  lemma Step14(x: Extensions, scsv: bool, last: bool)
    requires ItemsFit(x)
    ensures Steps(x, scsv, 14, last)
  {
    Pow256Of8();
    if x.pskModes != [] {
      OnlyBack(x.pskModes, 1, true);
      ModesApplied(Part(x, scsv, 14), x.pskModes, last);
    }
  }

  lemma ModesApplied(part: Extensions, modes: bytes, last: bool)
    requires ReadOnly(Prefixed(modes, 1), 1, true) == Some(modes)
    ensures Apply(part, Extension(PSK_MODES, Prefixed(modes, 1)), last) == Some(part.(pskModes := modes))
  {
  }

  lemma Step15(x: Extensions, scsv: bool)
    requires ItemsFit(x) && (Nth(x, 15).Some? ==> FitsExtension(Nth(x, 15).value))
    ensures Steps(x, scsv, 15, true)
  {
    if x.pskIdentities != [] {
      PskApplied(x, Part(x, scsv, 15));
    }
  }

  predicate GoodFrom(x: Extensions, k: nat)
    requires k <= EXTENSIONS
    decreases EXTENSIONS - k
  {
    k == EXTENSIONS || (Good(x, k) && GoodFrom(x, k + 1))
  }

  lemma {:induction false} FoldFrom(x: Extensions, scsv: bool, k: nat)
    requires k <= EXTENSIONS && ItemsFit(x) && All(FitsExtension, From(x, k))
    ensures Fold(Apply, Part(x, scsv, k), From(x, k)) == if GoodFrom(x, k) then Some(Part(x, scsv, EXTENSIONS)) else None
    decreases EXTENSIONS - k
  {
    if k < EXTENSIONS {
      var rest := From(x, k + 1);
      match Nth(x, k)
      case None =>
        Step(x, scsv, k, true);
        FoldFrom(x, scsv, k + 1);
      case Some(e) =>
        var es := [e] + rest;
        assert es[0] == e && es[1..] == rest;
        assert All(FitsExtension, rest) by { assert forall i :: 0 <= i < |rest| ==> rest[i] == es[i + 1]; }
        assert k == 15 ==> rest == [];
        Step(x, scsv, k, |es| == 1);
        if Good(x, k) {
          FoldFrom(x, scsv, k + 1);
        }
    }
  }

  lemma Step(x: Extensions, scsv: bool, k: nat, last: bool)
    requires k < EXTENSIONS && ItemsFit(x) && (Nth(x, k).Some? ==> FitsExtension(Nth(x, k).value)) && (k == 15 ==> last)
    ensures Steps(x, scsv, k, last)
  {
    if k < 4 {
      Step0To3(x, scsv, k, last);
    } else if k < 6 {
      Step4To5(x, scsv, k, last);
    } else if k < 8 {
      Step6To7(x, scsv, k, last);
    } else if k < 10 {
      Step8To9(x, scsv, k, last);
    } else if k < 12 {
      Step10To11(x, scsv, k, last);
    } else if k < 14 {
      Step12To13(x, scsv, k, last);
    } else if k == 14 {
      Step14(x, scsv, last);
    } else {
      Step15(x, scsv);
    }
  }

  // ---------- the whole message ----------

  lemma CipherSuitesBack(h: Hello, rest: bytes)
    requires EncodableHello(h)
    ensures ReadCipherSuites(PutCipherSuites(h) + rest, h.vers, h.random, h.sessionId) == Some((h, rest))
  {
    Pow256Of8();
    var suites := Encode(PutUint16, h.cipherSuites);
    Regroup(Prefixed(suites, 2), Prefixed(h.compressionMethods, 1), rest);
    ReadPrefixedBack(suites, 2, Prefixed(h.compressionMethods, 1) + rest);
    ReadPrefixedBack(h.compressionMethods, 1, rest);
    Uint16Items();
    ReadItemsBack(ReadUint16, PutUint16, IsUint16, AnyUint16, h.cipherSuites);
    assert All(AnyUint16, h.cipherSuites);
  }

  lemma ReadHelloBack(h: Hello, rest: bytes)
    requires EncodableHello(h)
    ensures ReadHello(PutHello(h) + rest) == Some((h, rest))
  {
    Pow256Of8();
    Regroup(BigEndian(h.vers, 2), PutRandom(h), rest);
    ReadUintBack(h.vers, 2, PutRandom(h) + rest);
    Regroup(h.random, PutSessionId(h), rest);
    ReadBytesBack(h.random, PutSessionId(h) + rest);
    Regroup(Prefixed(h.sessionId, 1), PutCipherSuites(h), rest);
    ReadPrefixedBack(h.sessionId, 1, PutCipherSuites(h) + rest);
    CipherSuitesBack(h, rest);
  }

  lemma Regroup(a: bytes, b: bytes, c: bytes)
    ensures (a + b) + c == a + (b + c)
  {
  }

  lemma ReadTailBack<M>(apply: (M, Extension, bool) -> Option<M>, m: M, es: seq<Extension>)
    requires All(FitsExtension, es) && |Encode(PutExtension, es)| < 65536
    ensures ReadTail(apply, m, PutTail(es)) == Fold(apply, m, es)
  {
    if es != [] {
      Pow256Of8();
      ReadPrefixedWhole(Encode(PutExtension, es), 2);
      ReadBlockBack(apply, m, es);
    }
  }

  /** The message unmarshal accepts. */
  predicate Acceptable(m: ClientHello) { GoodFrom(m.ext, 0) }

  /** The message it returns: what marshal did not write is lost, and the signalling cipher suite sets its flag. */
  function Normal(m: ClientHello): ClientHello {
    ClientHello(m.hello, Part(m.ext, SCSV_RENEGOTIATION in m.hello.cipherSuites, EXTENSIONS))
  }

  /** For every message marshal can write at all: what unmarshal makes of it. */
  lemma UnmarshalOfMarshal(m: ClientHello)
    requires Encodable(m)
    ensures Unmarshal(Marshal(m)) == if Acceptable(m) then Some(Normal(m)) else None
  {
    var tail := PutTail(From(m.ext, 0));
    var body := PutHello(m.hello) + tail;
    var data := Marshal(m);
    var head := [TYPE_CLIENT_HELLO] + BigEndian(|body|, 3);
    assert data == head + body;
    ReadBytesBack(head, body);
    ReadHelloBack(m.hello, tail);
    var scsv := SCSV_RENEGOTIATION in m.hello.cipherSuites;
    assert NoExtensions(m.hello.cipherSuites) == Part(m.ext, scsv, 0);
    ReadTailBack(Apply, Part(m.ext, scsv, 0), From(m.ext, 0));
    FoldFrom(m.ext, scsv, 0);
  }

  /** Flags agree with the data they guard, and inner items are acceptable. */
  predicate WellFormed(m: ClientHello) {
    var x := m.ext;
    && (x.serverName == [] || x.serverName[|x.serverName| - 1] != DOT)
    && All(NonEmpty, x.alpnProtocols) && All(GoodShare, x.keyShares)
    && All(GoodIdentity, x.pskIdentities) && All(NonEmpty, x.pskBinders) && (x.pskIdentities == [] <==> x.pskBinders == [])
    && (x.ticketSupported || x.sessionTicket == [])
    && (x.renegotiationSupported || (x.renegotiation == [] && SCSV_RENEGOTIATION !in m.hello.cipherSuites))
  }

  /** Unmarshal returns every field exactly for the well-formed messages. */
  lemma RoundTrip(m: ClientHello)
    requires Encodable(m)
    ensures Unmarshal(Marshal(m)) == Some(m) <==> WellFormed(m)
  {
    UnmarshalOfMarshal(m);
    AcceptableMeans(m.ext);
    NormalMeans(m);
  }

  lemma AcceptableMeans(x: Extensions)
    ensures GoodFrom(x, 0) <==> Good(x, 0) && Good(x, 8) && Good(x, 12) && Good(x, 15)
  {
    assert GoodFrom(x, 16);
    assert GoodFrom(x, 12) <==> Good(x, 12) && Good(x, 15) by {
      assert GoodFrom(x, 15) <==> Good(x, 15);
      assert GoodFrom(x, 14) <==> GoodFrom(x, 15);
      assert GoodFrom(x, 13) <==> GoodFrom(x, 14);
    }
    assert GoodFrom(x, 8) <==> Good(x, 8) && GoodFrom(x, 12) by {
      assert GoodFrom(x, 11) <==> GoodFrom(x, 12);
      assert GoodFrom(x, 10) <==> GoodFrom(x, 11);
      assert GoodFrom(x, 9) <==> GoodFrom(x, 10);
    }
    assert GoodFrom(x, 4) <==> GoodFrom(x, 8) by {
      assert GoodFrom(x, 7) <==> GoodFrom(x, 8);
      assert GoodFrom(x, 6) <==> GoodFrom(x, 7);
      assert GoodFrom(x, 5) <==> GoodFrom(x, 6);
    }
    assert GoodFrom(x, 0) <==> Good(x, 0) && GoodFrom(x, 4) by {
      assert GoodFrom(x, 3) <==> GoodFrom(x, 4);
      assert GoodFrom(x, 2) <==> GoodFrom(x, 3);
      assert GoodFrom(x, 1) <==> GoodFrom(x, 2);
    }
  }

  lemma NormalMeans(m: ClientHello)
    ensures Normal(m) == m <==>
      && (m.ext.ticketSupported || m.ext.sessionTicket == [])
      && (m.ext.renegotiationSupported || (m.ext.renegotiation == [] && SCSV_RENEGOTIATION !in m.hello.cipherSuites))
      && (m.ext.pskIdentities != [] || m.ext.pskBinders == [])
  {
  }
}
