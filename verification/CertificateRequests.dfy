/** The hand-written encoder and parser of the TLS 1.0-1.2 certificate request message. */
module CertificateRequests {
  import opened Outcomes
  import opened Octets
  import opened Codec
  import opened CertificateMessages

  datatype CertificateRequest = CertificateRequest(
    hasSignatureAlgorithm: bool, certificateTypes: bytes, signatureAlgorithms: seq<nat>, certificateAuthorities: seq<bytes>)

  // ---------- unmarshal ----------

  function Authorities(cas: bytes): Option<seq<bytes>> {
    if cas == [] then Some([])
    else if |cas| < 2 then None
    else
      var n := Uint16At(cas);
      if |cas| - 2 < n then None
      else
        match Authorities(cas[2 + n..])
        case None => None
        case Some(rest) => Some([cas[2..2 + n]] + rest)
  }

  function Numbers(s: bytes): (r: seq<nat>)
    ensures |r| == |s| / 2
  {
    if |s| < 2 then [] else [Uint16At(s)] + Numbers(s[2..])
  }

  /** The last part: the authorities fill the rest of the message. */
  function UnmarshalAuthorities(d: bytes): Option<seq<bytes>> {
    if |d| < 2 then None
    else
      var n := Uint16At(d);
      if |d| - 2 != n then None else Authorities(d[2..])
  }

  /** The signature algorithms and what follows them. */
  function UnmarshalAlgorithms(d: bytes): Read<seq<nat>> {
    if |d| < 2 then None
    else
      var n := Uint16At(d);
      if n % 2 != 0 || |d| - 2 < n then None else Some((Numbers(d[2..2 + n]), d[2 + n..]))
  }

  function UnmarshalRequest(hasSignatureAlgorithm: bool, data: bytes): Option<CertificateRequest> {
    if |data| < 5 then None
    else if (|data| - 4) % UINT32 != Uint24(data[1..]) then None
    else
      var n := data[4] as nat;
      if n == 0 || |data| - 5 <= n then None else UnmarshalRest(hasSignatureAlgorithm, data[5..5 + n], data[5 + n..])
  }

  function UnmarshalRest(hasSignatureAlgorithm: bool, certificateTypes: bytes, d: bytes): Option<CertificateRequest> {
    match if hasSignatureAlgorithm then UnmarshalAlgorithms(d) else Some(([], d))
    case None => None
    case Some((algorithms, rest)) =>
      match UnmarshalAuthorities(rest)
      case None => None
      case Some(cas) => Some(CertificateRequest(hasSignatureAlgorithm, certificateTypes, algorithms, cas))
  }

  lemma {:induction false} NumbersSnoc(s: bytes, i: nat)
    requires 2 * i + 2 <= |s|
    ensures Numbers(s[..2 * i + 2]) == Numbers(s[..2 * i]) + [Uint16At(s[2 * i..])]
  {
    if i == 0 {
      assert Numbers(s[..2][2..]) == [];
    } else {
      var t := s[2..];
      NumbersSnoc(t, i - 1);
      assert s[..2 * i + 2][2..] == t[..2 * i] && s[..2 * i][2..] == t[..2 * i - 2] && s[2 * i..] == t[2 * i - 2..];
      assert Uint16At(s[..2 * i + 2]) == Uint16At(s) == Uint16At(s[..2 * i]);
    }
  }

  /** The loop over the signature algorithms: as many as announced, data advancing two octets at a time. */
  method SliceAlgorithms(data: bytes, numSigAlgos: nat) returns (algorithms: seq<nat>, rest: bytes)
    requires 2 * numSigAlgos <= |data|
    ensures algorithms == Numbers(data[..2 * numSigAlgos]) && rest == data[2 * numSigAlgos..]
  {
    algorithms, rest := [], data;
    for i := 0 to numSigAlgos
      invariant rest == data[2 * i..] && algorithms == Numbers(data[..2 * i])
    {
      NumbersSnoc(data, i);
      algorithms := algorithms + [rest[0] as nat * 256 + rest[1] as nat];
      rest := rest[2..];
    }
  }

  /** The loop over the certificate authorities. */
  method SliceAuthorities(all: bytes) returns (r: Option<seq<bytes>>)
    ensures r == Authorities(all)
  {
    var authorities: seq<bytes> := [];
    var cas := all;
    Behind([], Authorities(all));
    while |cas| > 0
      invariant Authorities(all) == Following(authorities, Authorities(cas))
      decreases |cas|
    {
      if |cas| < 2 {
        return None;
      }
      var caLen := Uint16At(cas);
      ghost var before := cas;
      cas := cas[2..];
      if |cas| < caLen {
        return None;
      }
      assert before[2..2 + caLen] == cas[..caLen] && before[2 + caLen..] == cas[caLen..];
      Step(authorities, cas[..caLen], Authorities(cas[caLen..]));
      authorities := authorities + [cas[..caLen]];
      cas := cas[caLen..];
    }
    assert authorities + [] == authorities;
    return Some(authorities);
  }

  ghost function Following(items: seq<bytes>, more: Option<seq<bytes>>): Option<seq<bytes>> {
    match more case None => None case Some(rest) => Some(items + rest)
  }

  lemma Behind(items: seq<bytes>, more: Option<seq<bytes>>)
    requires items == []
    ensures Following(items, more) == more
  {
    if more.Some? {
      assert [] + more.value == more.value;
    }
  }

  lemma Step(items: seq<bytes>, item: bytes, more: Option<seq<bytes>>)
    ensures Following(items, Following([item], more)) == Following(items + [item], more)
  {
    if more.Some? {
      assert items + ([item] + more.value) == items + [item] + more.value;
    }
  }

  method Unmarshal(hasSignatureAlgorithm: bool, message: bytes) returns (r: Option<CertificateRequest>)
    ensures r == UnmarshalRequest(hasSignatureAlgorithm, message)
  {
    var data := message;
    if |data| < 5 {
      return None;
    }
    var length := Uint24(data[1..]);
    if (|data| - 4) % UINT32 != length {
      return None;
    }
    var numCertTypes := data[4] as nat;
    data := data[5..];
    if numCertTypes == 0 || |data| <= numCertTypes {
      return None;
    }
    var certificateTypes := data[..numCertTypes];
    data := data[numCertTypes..];
    assert message[5..5 + numCertTypes] == certificateTypes && message[5 + numCertTypes..] == data;
    r := UnmarshalTail(hasSignatureAlgorithm, certificateTypes, data);
  }

  method UnmarshalTail(hasSignatureAlgorithm: bool, certificateTypes: bytes, d: bytes) returns (r: Option<CertificateRequest>)
    ensures r == UnmarshalRest(hasSignatureAlgorithm, certificateTypes, d)
  {
    var data := d;
    var algorithms: seq<nat> := [];
    if hasSignatureAlgorithm {
      if |data| < 2 {
        return None;
      }
      var sigAndHashLen := Uint16At(data);
      data := data[2..];
      if sigAndHashLen % 2 != 0 || |data| < sigAndHashLen {
        return None;
      }
      assert data[..sigAndHashLen] == d[2..2 + sigAndHashLen] && data[sigAndHashLen..] == d[2 + sigAndHashLen..];
      algorithms, data := SliceAlgorithms(data, sigAndHashLen / 2);
    }
    if |data| < 2 {
      return None;
    }
    ghost var rest := data;
    var casLength := Uint16At(data);
    data := data[2..];
    if |data| < casLength {
      return None;
    }
    var cas := data[..casLength];
    data := data[casLength..];
    var authorities := SliceAuthorities(cas);
    assert |data| == 0 ==> cas == rest[2..];
    if authorities.None? || |data| != 0 {
      return None;
    }
    return Some(CertificateRequest(hasSignatureAlgorithm, certificateTypes, algorithms, authorities.value));
  }

  // ---------- marshal ----------

  function MarshalAlgorithms(m: CertificateRequest): bytes {
    if m.hasSignatureAlgorithm then Prefixed(Encode(PutUint16, m.signatureAlgorithms), 2) else []
  }

  function MarshalBody(m: CertificateRequest): bytes {
    Prefixed(m.certificateTypes, 1) + (MarshalAlgorithms(m) + Prefixed(Encode(Put16, m.certificateAuthorities), 2))
  }

  function MarshalRequest(m: CertificateRequest): bytes { [TYPE_CERTIFICATE_REQUEST] + Prefixed(MarshalBody(m), 3) }

  lemma {:induction false} AlgorithmsLen(algorithms: seq<nat>)
    ensures |Encode(PutUint16, algorithms)| == 2 * |algorithms|
  {
    if algorithms != [] {
      AlgorithmsLen(algorithms[1..]);
    }
  }

  method AppendAlgorithms(x: array<byte>, at: nat, algorithms: seq<nat>, ghost before: bytes)
    requires at + 2 + 2 * |algorithms| <= x.Length && x[..at] == before
    modifies x
    ensures x[..at + 2 + 2 * |algorithms|] == before + Prefixed(Encode(PutUint16, algorithms), 2)
  {
    AlgorithmsLen(algorithms);
    Append(x, at, BigEndian(2 * |algorithms|, 2), before);
    ghost var head := before + BigEndian(2 * |algorithms|, 2);
    for i := 0 to |algorithms|
      invariant x[..at + 2 + 2 * i] == head + Encode(PutUint16, algorithms[..i])
    {
      AlgorithmsSnoc(algorithms, i);
      ghost var done := x[..at + 2 + 2 * i];
      Append(x, at + 2 + 2 * i, BigEndian(algorithms[i], 2), done);
      Three(head, Encode(PutUint16, algorithms[..i]), PutUint16(algorithms[i]));
    }
    assert algorithms[..|algorithms|] == algorithms;
    Three(before, BigEndian(2 * |algorithms|, 2), Encode(PutUint16, algorithms));
  }

  lemma Three(a: bytes, b: bytes, c: bytes)
    ensures a + b + c == a + (b + c)
  {
  }

  lemma {:induction false} AlgorithmsSnoc(algorithms: seq<nat>, i: nat)
    requires i < |algorithms|
    ensures Encode(PutUint16, algorithms[..i + 1]) == Encode(PutUint16, algorithms[..i]) + PutUint16(algorithms[i])
  {
    if i == 0 {
      assert algorithms[..1] == [algorithms[0]];
      assert Encode(PutUint16, [algorithms[0]]) == PutUint16(algorithms[0]) + [];
    } else {
      assert algorithms[..i + 1][1..] == algorithms[1..][..i] && algorithms[..i][1..] == algorithms[1..][..i - 1];
      AlgorithmsSnoc(algorithms[1..], i - 1);
      var a, b, c := PutUint16(algorithms[0]), Encode(PutUint16, algorithms[1..][..i - 1]), PutUint16(algorithms[i]);
      assert a + (b + c) == a + b + c;
    }
  }

  /** The lengths are added up first; everything is then written into place. */
  method Marshal(m: CertificateRequest) returns (x: array<byte>)
    ensures fresh(x) && x[..] == MarshalRequest(m)
  {
    var casLength := TotalLength(m.certificateAuthorities);
    casLength := casLength + 2 * |m.certificateAuthorities|;
    EncodedLen(Put16, 2, m.certificateAuthorities);
    AlgorithmsLen(m.signatureAlgorithms);
    var length := 1 + |m.certificateTypes| + 2 + casLength;
    if m.hasSignatureAlgorithm {
      length := length + 2 + 2 * |m.signatureAlgorithms|;
    }
    assert length == |MarshalBody(m)|;
    x := new byte[4 + length](_ => 0);
    Append(x, 0, [TYPE_CERTIFICATE_REQUEST], []);
    Append(x, 1, BigEndian(length, 3), [TYPE_CERTIFICATE_REQUEST]);
    AppendBody(x, m, casLength, [TYPE_CERTIFICATE_REQUEST] + BigEndian(length, 3));
    Three([TYPE_CERTIFICATE_REQUEST], BigEndian(length, 3), MarshalBody(m));
  }

  method AppendBody(x: array<byte>, m: CertificateRequest, casLength: nat, ghost head: bytes)
    requires |head| == 4 && x.Length == 4 + |MarshalBody(m)| && x[..4] == head
    requires casLength == |Encode(Put16, m.certificateAuthorities)|
    modifies x
    ensures x[..] == head + MarshalBody(m)
  {
    AppendPrefixed(x, 4, 1, m.certificateTypes, head);
    var at := 5 + |m.certificateTypes|;
    ghost var done := head + Prefixed(m.certificateTypes, 1);
    if m.hasSignatureAlgorithm {
      AlgorithmsLen(m.signatureAlgorithms);
      AppendAlgorithms(x, at, m.signatureAlgorithms, done);
      at := at + 2 + 2 * |m.signatureAlgorithms|;
    } else {
      assert done + [] == done;
    }
    done := done + MarshalAlgorithms(m);
    Append(x, at, BigEndian(casLength, 2), done);
    AppendItems(x, at + 2, 2, Put16, m.certificateAuthorities, done + BigEndian(casLength, 2));
    Parts(head, Prefixed(m.certificateTypes, 1), MarshalAlgorithms(m), BigEndian(casLength, 2), Encode(Put16, m.certificateAuthorities));
  }

  lemma Parts(a: bytes, b: bytes, c: bytes, d: bytes, e: bytes)
    ensures a + b + c + d + e == a + (b + (c + (d + e)))
  {
  }

  // ---------- round trip ----------

  ghost predicate Encodable(m: CertificateRequest) {
    && |m.certificateTypes| < 256 && All(IsUint16, m.signatureAlgorithms) && 2 * |m.signatureAlgorithms| < 65536
    && |Encode(Put16, m.certificateAuthorities)| < 65536
  }

  lemma AuthorityBack(x: bytes, rest: bytes)
    requires |x| < 65536
    ensures var d := Put16(x) + rest;
      |d| == 2 + |x| + |rest| && Uint16At(d) == |x| && d[2..2 + |x|] == x && d[2 + |x|..] == rest
  {
    assert Put16(x) + rest == BigEndian(|x|, 2) + (x + rest);
    Uint16Is(|x|, x + rest);
  }

  lemma {:induction false} AuthoritiesBack(cas: seq<bytes>)
    requires |Encode(Put16, cas)| < 65536
    ensures Authorities(Encode(Put16, cas)) == Some(cas)
  {
    if cas != [] {
      AuthorityBack(cas[0], Encode(Put16, cas[1..]));
      AuthoritiesBack(cas[1..]);
      assert cas == [cas[0]] + cas[1..];
    }
  }

  lemma {:induction false} NumbersBack(algorithms: seq<nat>)
    requires All(IsUint16, algorithms)
    ensures Numbers(Encode(PutUint16, algorithms)) == algorithms
  {
    if algorithms != [] {
      var rest := Encode(PutUint16, algorithms[1..]);
      Uint16Is(algorithms[0], rest);
      assert (PutUint16(algorithms[0]) + rest)[2..] == rest;
      NumbersBack(algorithms[1..]);
    }
  }

  lemma AuthoritiesPartBack(cas: seq<bytes>)
    requires |Encode(Put16, cas)| < 65536
    ensures UnmarshalAuthorities(Prefixed(Encode(Put16, cas), 2)) == Some(cas)
  {
    AuthorityBack(Encode(Put16, cas), []);
    assert Prefixed(Encode(Put16, cas), 2) + [] == Prefixed(Encode(Put16, cas), 2);
    AuthoritiesBack(cas);
  }

  lemma AlgorithmsPartBack(algorithms: seq<nat>, rest: bytes)
    requires All(IsUint16, algorithms) && 2 * |algorithms| < 65536
    ensures UnmarshalAlgorithms(Prefixed(Encode(PutUint16, algorithms), 2) + rest) == Some((algorithms, rest))
  {
    AlgorithmsLen(algorithms);
    AuthorityBack(Encode(PutUint16, algorithms), rest);
    NumbersBack(algorithms);
  }

  lemma RestBack(m: CertificateRequest)
    requires Encodable(m)
    ensures UnmarshalRest(m.hasSignatureAlgorithm, m.certificateTypes, MarshalAlgorithms(m) + Prefixed(Encode(Put16, m.certificateAuthorities), 2))
      == Some(if m.hasSignatureAlgorithm then m else m.(signatureAlgorithms := []))
  {
    var cas := Prefixed(Encode(Put16, m.certificateAuthorities), 2);
    AuthoritiesPartBack(m.certificateAuthorities);
    AlgorithmsPartBack(m.signatureAlgorithms, cas);
    assert [] + cas == cas;
  }

  lemma HeaderBack(body: bytes) returns (head: bytes)
    requires |body| < 0x100_0000
    ensures |head| == 4 && [TYPE_CERTIFICATE_REQUEST] + Prefixed(body, 3) == head + body
    ensures Uint24((head + body)[1..]) == |body|
  {
    head := [TYPE_CERTIFICATE_REQUEST] + BigEndian(|body|, 3);
    Uint24Is(|body|, body);
    assert (head + body)[1..] == BigEndian(|body|, 3) + body;
  }

  /** The fixed front of a message, read back. */
  lemma FrontOfMessage(types: bytes, rest: bytes)
    requires |types| < 256 && |Prefixed(types, 1) + rest| < 0x100_0000
    ensures var data := [TYPE_CERTIFICATE_REQUEST] + Prefixed(Prefixed(types, 1) + rest, 3);
      && |data| == 5 + |types| + |rest| && Uint24(data[1..]) == |data| - 4
      && data[4] == |types| as byte && data[5..5 + |types|] == types && data[5 + |types|..] == rest
  {
    var head := HeaderBack(Prefixed(types, 1) + rest);
    assert BigEndian(|types|, 1) == [|types| as byte];
    assert Prefixed(types, 1) + rest == [|types| as byte] + (types + rest);
    FrontSlices(head, |types| as byte, types, rest);
  }

  lemma FrontSlices(head: bytes, n: byte, types: bytes, rest: bytes)
    requires |head| == 4
    ensures var data := head + ([n] + (types + rest));
      data[4] == n && data[5..5 + |types|] == types && data[5 + |types|..] == rest
  {
  }

  lemma BodyLen(m: CertificateRequest)
    requires Encodable(m)
    ensures |MarshalBody(m)| < 0x100_0000 && |MarshalAlgorithms(m) + Prefixed(Encode(Put16, m.certificateAuthorities), 2)| > 0
  {
    AlgorithmsLen(m.signatureAlgorithms);
  }

  /**
    For lengths that fit: the message is refused exactly when it lists no certificate type; else
    all comes back but the algorithms of a version that does not send them.
   */
  lemma RequestRoundTrip(m: CertificateRequest)
    requires Encodable(m)
    ensures UnmarshalRequest(m.hasSignatureAlgorithm, MarshalRequest(m)) ==
      if m.certificateTypes == [] then None
      else Some(if m.hasSignatureAlgorithm then m else m.(signatureAlgorithms := []))
  {
    BodyLen(m);
    FrontOfMessage(m.certificateTypes, MarshalAlgorithms(m) + Prefixed(Encode(Put16, m.certificateAuthorities), 2));
    RestBack(m);
  }
}
