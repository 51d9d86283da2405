/** The ServerHello message: marshal, unmarshal, and what one makes of the other. */
module ServerHelloCodec {
  import opened Outcomes
  import opened Octets
  import opened Codec
  import CH = ClientHelloCodec
  import RT = ClientHelloRoundTrip

  const TYPE_SERVER_HELLO: byte := 2

  datatype Hello = Hello(vers: nat, random: bytes, sessionId: bytes, cipherSuite: nat, compressionMethod: nat)

  /** The fields that travel in extensions, in the order they are written. */
  datatype Extensions = Extensions(
    ocspStapling: bool, ticketSupported: bool, renegotiationSupported: bool, renegotiation: bytes,
    alpnProtocol: bytes, scts: seq<bytes>, supportedVersion: nat, serverShare: CH.KeyShare,
    selectedIdentityPresent: bool, selectedIdentity: nat, cookie: bytes, selectedGroup: nat, supportedPoints: bytes)

  datatype ServerHello = ServerHello(hello: Hello, ext: Extensions)

  // ---------- unmarshal ----------

  function ReadOneProtocol(data: bytes): Option<bytes> {
    match CH.ReadOnly(data, 2, false)
    case None => None
    case Some(list) => CH.ReadOnly(list, 1, false)
  }

  /** A number of two octets and nothing after it. */
  function ReadOnlyUint16(data: bytes): Option<nat> {
    match ReadUint(data, 2)
    case None => None
    case Some((n, rest)) => if rest != [] then None else Some(n)
  }

  function ReadServerShare(data: bytes): Option<CH.KeyShare> {
    match ReadUint(data, 2)
    case None => None
    case Some((group, rest)) =>
      match CH.ReadOnly(rest, 2, true)
      case None => None
      case Some(x) => Some(CH.KeyShare(group, x))
  }

  /** The switch of unmarshal; a key share of two octets is the group of a HelloRetryRequest. */
  function Apply(x: Extensions, e: Extension, last: bool): Option<Extensions> {
    if e.typ == CH.STATUS_REQUEST then if e.data != [] then None else Some(x.(ocspStapling := true))
    else if e.typ == CH.SESSION_TICKET then if e.data != [] then None else Some(x.(ticketSupported := true))
    else if e.typ == CH.RENEGOTIATION_INFO then
      match CH.ReadOnly(e.data, 1, true) case None => None case Some(v) => Some(x.(renegotiationSupported := true, renegotiation := v))
    else if e.typ == CH.ALPN then
      match ReadOneProtocol(e.data) case None => None case Some(v) => Some(x.(alpnProtocol := v))
    else if e.typ == CH.SCT then
      match CH.ReadList(Read16, e.data, 2, false) case None => None case Some(v) => Some(x.(scts := x.scts + v))
    else if e.typ == CH.SUPPORTED_VERSIONS then
      match ReadOnlyUint16(e.data) case None => None case Some(v) => Some(x.(supportedVersion := v))
    else Apply2(x, e)
  }

  function Apply2(x: Extensions, e: Extension): Option<Extensions> {
    if e.typ == CH.COOKIE then
      match CH.ReadOnly(e.data, 2, false) case None => None case Some(v) => Some(x.(cookie := v))
    else if e.typ == CH.KEY_SHARE then
      if |e.data| == 2 then match ReadOnlyUint16(e.data) case None => None case Some(v) => Some(x.(selectedGroup := v))
      else match ReadServerShare(e.data) case None => None case Some(v) => Some(x.(serverShare := v))
    else if e.typ == CH.PRE_SHARED_KEY then
      match ReadOnlyUint16(e.data) case None => None case Some(v) => Some(x.(selectedIdentityPresent := true, selectedIdentity := v))
    else if e.typ == CH.SUPPORTED_POINTS then
      match CH.ReadOnly(e.data, 1, false) case None => None case Some(v) => Some(x.(supportedPoints := v))
    else Some(x)
  }

  function ReadHello(s: bytes): Read<Hello> {
    match ReadUint(s, 2)
    case None => None
    case Some((vers, rest)) =>
      match ReadBytes(rest, 32)
      case None => None
      case Some((random, rest1)) => ReadSessionId(rest1, vers, random)
  }

  function ReadSessionId(s: bytes, vers: nat, random: bytes): Read<Hello> {
    match ReadPrefixed(s, 1)
    case None => None
    case Some((sessionId, rest)) =>
      match ReadUint(rest, 2)
      case None => None
      case Some((cipherSuite, rest1)) =>
        match ReadUint(rest1, 1)
        case None => None
        case Some((compressionMethod, rest2)) => Some((Hello(vers, random, sessionId, cipherSuite, compressionMethod), rest2))
  }

  const NO_EXTENSIONS: Extensions := Extensions(false, false, false, [], [], [], 0, CH.KeyShare(0, []), false, 0, [], 0, [])

  function Unmarshal(data: bytes): Option<ServerHello> {
    match ReadBytes(data, 4)
    case None => None
    case Some((_, s)) =>
      match ReadHello(s)
      case None => None
      case Some((hello, rest)) =>
        match CH.ReadTail(Apply, NO_EXTENSIONS, rest)
        case None => None
        case Some(ext) => Some(ServerHello(hello, ext))
  }

  // ---------- marshal ----------

  const EXTENSIONS: nat := 11

  /** The k-th extension in the order of marshal; absent ones are left out. */
  function Nth(x: Extensions, k: nat): Option<Extension>
    requires k < EXTENSIONS
  {
    if k == 0 then if !x.ocspStapling then None else Some(Extension(CH.STATUS_REQUEST, []))
    else if k == 1 then if !x.ticketSupported then None else Some(Extension(CH.SESSION_TICKET, []))
    else if k == 2 then if !x.renegotiationSupported then None else Some(Extension(CH.RENEGOTIATION_INFO, Prefixed(x.renegotiation, 1)))
    else if k == 3 then if x.alpnProtocol == [] then None else Some(Extension(CH.ALPN, Prefixed(Prefixed(x.alpnProtocol, 1), 2)))
    else if k == 4 then if x.scts == [] then None else Some(Extension(CH.SCT, Prefixed(Encode(Put16, x.scts), 2)))
    else if k == 5 then if x.supportedVersion == 0 then None else Some(Extension(CH.SUPPORTED_VERSIONS, BigEndian(x.supportedVersion, 2)))
    else Nth2(x, k)
  }

  function Nth2(x: Extensions, k: nat): Option<Extension>
    requires 6 <= k < EXTENSIONS
  {
    if k == 6 then
      if x.serverShare.group == 0 then None
      else Some(Extension(CH.KEY_SHARE, BigEndian(x.serverShare.group, 2) + Prefixed(x.serverShare.data, 2)))
    else if k == 7 then
      if !x.selectedIdentityPresent then None else Some(Extension(CH.PRE_SHARED_KEY, BigEndian(x.selectedIdentity, 2)))
    else if k == 8 then if x.cookie == [] then None else Some(Extension(CH.COOKIE, Prefixed(x.cookie, 2)))
    else if k == 9 then if x.selectedGroup == 0 then None else Some(Extension(CH.KEY_SHARE, BigEndian(x.selectedGroup, 2)))
    else if x.supportedPoints == [] then None else Some(Extension(CH.SUPPORTED_POINTS, Prefixed(x.supportedPoints, 1)))
  }

  /** The extensions from the k-th on. */
  function From(x: Extensions, k: nat): seq<Extension>
    requires k <= EXTENSIONS
    decreases EXTENSIONS - k
  {
    if k == EXTENSIONS then []
    else
      match Nth(x, k)
      case None => From(x, k + 1)
      case Some(e) => [e] + From(x, k + 1)
  }

  function PutHello(h: Hello): bytes { BigEndian(h.vers, 2) + (h.random + PutSessionId(h)) }
  function PutSessionId(h: Hello): bytes {
    Prefixed(h.sessionId, 1) + (BigEndian(h.cipherSuite, 2) + BigEndian(h.compressionMethod, 1))
  }

  function Marshal(m: ServerHello): bytes {
    [TYPE_SERVER_HELLO] + Prefixed(PutHello(m.hello) + CH.PutTail(From(m.ext, 0)), 3)
  }

  // ---------- round trip ----------

  /** Every length and number fits its width; marshal panics on lengths that do not. */
  ghost predicate Encodable(m: ServerHello) {
    && EncodableHello(m.hello) && ItemsFit(m.ext) && All(FitsExtension, From(m.ext, 0))
    && |Encode(PutExtension, From(m.ext, 0))| < 65536
    && |PutHello(m.hello)| + |CH.PutTail(From(m.ext, 0))| < 0x100_0000
  }

  predicate EncodableHello(h: Hello) {
    h.vers < 65536 && |h.random| == 32 && |h.sessionId| < 256 && h.cipherSuite < 65536 && h.compressionMethod < 256
  }

  predicate ItemsFit(x: Extensions) {
    && |x.renegotiation| < 256 && |x.alpnProtocol| < 256 && |x.supportedPoints| < 256 && All(Fits16, x.scts)
    && x.supportedVersion < 65536 && x.selectedIdentity < 65536 && x.selectedGroup < 65536
    && CH.FitsShare(x.serverShare)
  }

  /** The one thing unmarshal refuses: an empty certificate timestamp. */
  predicate Good(x: Extensions, k: nat) { k == 4 ==> All(NonEmpty, x.scts) }

  /** What has been read after the first k extensions. */
  function Part(x: Extensions, k: nat): Extensions {
    Extensions(
      k > 0 && x.ocspStapling, k > 1 && x.ticketSupported,
      k > 2 && x.renegotiationSupported, if k > 2 && x.renegotiationSupported then x.renegotiation else [],
      if k > 3 then x.alpnProtocol else [], if k > 4 then x.scts else [],
      if k > 5 then x.supportedVersion else 0,
      if k > 6 && x.serverShare.group != 0 then x.serverShare else CH.KeyShare(0, []),
      k > 7 && x.selectedIdentityPresent, if k > 7 && x.selectedIdentityPresent then x.selectedIdentity else 0,
      if k > 8 then x.cookie else [], if k > 9 then x.selectedGroup else 0, if k > 10 then x.supportedPoints else [])
  }

  lemma OnlyUint16Back(n: nat)
    requires n < 65536
    ensures ReadOnlyUint16(BigEndian(n, 2)) == Some(n)
  {
    Pow256Of8();
    ReadUintBack(n, 2, []);
    assert BigEndian(n, 2) + [] == BigEndian(n, 2);
  }

  lemma OneProtocolBack(x: bytes)
    requires 0 < |x| < 256
    ensures ReadOneProtocol(Prefixed(Prefixed(x, 1), 2)) == Some(x)
  {
    Pow256Of8();
    RT.OnlyBack(x, 1, false);
    RT.OnlyBack(Prefixed(x, 1), 2, false);
  }

  lemma ServerShareBack(k: CH.KeyShare)
    requires CH.FitsShare(k)
    ensures ReadServerShare(BigEndian(k.group, 2) + Prefixed(k.data, 2)) == Some(k)
  {
    Pow256Of8();
    ReadUintBack(k.group, 2, Prefixed(k.data, 2));
    RT.OnlyBack(k.data, 2, true);
  }

  /** The k-th extension, read after the ones before it, adds exactly its own fields, or is refused. */
  ghost predicate Steps(x: Extensions, k: nat, last: bool)
    requires k < EXTENSIONS
  {
    match Nth(x, k)
    case None => Good(x, k) && Part(x, k + 1) == Part(x, k)
    case Some(e) => Apply(Part(x, k), e, last) == if Good(x, k) then Some(Part(x, k + 1)) else None
  }

  lemma Step0To3(x: Extensions, k: nat, last: bool)
    requires k < 4 && ItemsFit(x)
    ensures Steps(x, k, last)
  {
    Pow256Of8();
    if k == 2 {
      RT.OnlyBack(x.renegotiation, 1, true);
    } else if k == 3 && x.alpnProtocol != [] {
      OneProtocolBack(x.alpnProtocol);
    }
  }

  lemma Step4To5(x: Extensions, k: nat, last: bool)
    requires 4 <= k < 6 && ItemsFit(x) && (Nth(x, k).Some? ==> FitsExtension(Nth(x, k).value))
    ensures Steps(x, k, last)
  {
    Pow256Of8();
    if k == 4 && x.scts != [] {
      Prefixed16Items();
      CH.ReadListBack(Read16, Put16, Fits16, NonEmpty, x.scts, 2, false);
      RT.NothingBefore(x.scts);
    } else if k == 5 {
      OnlyUint16Back(x.supportedVersion);
    }
  }

  lemma Step6To7(x: Extensions, k: nat, last: bool)
    requires 6 <= k < 8 && ItemsFit(x)
    ensures Steps(x, k, last)
  {
    if k == 6 {
      ServerShareBack(x.serverShare);
    } else {
      OnlyUint16Back(x.selectedIdentity);
    }
  }

  lemma Step8To10(x: Extensions, k: nat, last: bool)
    requires 8 <= k < 11 && ItemsFit(x) && (Nth(x, k).Some? ==> FitsExtension(Nth(x, k).value))
    ensures Steps(x, k, last)
  {
    Pow256Of8();
    if k == 8 && x.cookie != [] {
      RT.OnlyBack(x.cookie, 2, false);
    } else if k == 9 {
      OnlyUint16Back(x.selectedGroup);
    } else if k == 10 && x.supportedPoints != [] {
      RT.OnlyBack(x.supportedPoints, 1, false);
    }
  }

  lemma Step(x: Extensions, k: nat, last: bool)
    requires k < EXTENSIONS && ItemsFit(x) && (Nth(x, k).Some? ==> FitsExtension(Nth(x, k).value))
    ensures Steps(x, k, last)
  {
    if k < 4 {
      Step0To3(x, k, last);
    } else if k < 6 {
      Step4To5(x, k, last);
    } else if k < 8 {
      Step6To7(x, k, last);
    } else {
      Step8To10(x, k, last);
    }
  }

  lemma {:induction false} FoldFrom(x: Extensions, k: nat)
    requires k <= EXTENSIONS && ItemsFit(x) && All(FitsExtension, From(x, k))
    ensures Fold(Apply, Part(x, k), From(x, k)) == if k > 4 || All(NonEmpty, x.scts) then Some(Part(x, EXTENSIONS)) else None
    decreases EXTENSIONS - k
  {
    if k < EXTENSIONS {
      var rest := From(x, k + 1);
      match Nth(x, k)
      case None =>
        Step(x, k, true);
        FoldFrom(x, k + 1);
      case Some(e) =>
        var es := [e] + rest;
        assert es[0] == e && es[1..] == rest;
        assert All(FitsExtension, rest) by { assert forall i :: 0 <= i < |rest| ==> rest[i] == es[i + 1]; }
        Step(x, k, |es| == 1);
        if Good(x, k) {
          FoldFrom(x, k + 1);
        }
    }
  }

  lemma SessionIdBack(h: Hello, rest: bytes)
    requires EncodableHello(h)
    ensures ReadSessionId(PutSessionId(h) + rest, h.vers, h.random) == Some((h, rest))
  {
    Pow256Of8();
    var suite, compression := BigEndian(h.cipherSuite, 2), BigEndian(h.compressionMethod, 1);
    RT.Regroup(Prefixed(h.sessionId, 1), suite + compression, rest);
    ReadPrefixedBack(h.sessionId, 1, suite + compression + rest);
    RT.Regroup(suite, compression, rest);
    ReadUintBack(h.cipherSuite, 2, compression + rest);
    ReadUintBack(h.compressionMethod, 1, rest);
  }

  lemma ReadHelloBack(h: Hello, rest: bytes)
    requires EncodableHello(h)
    ensures ReadHello(PutHello(h) + rest) == Some((h, rest))
  {
    Pow256Of8();
    RT.Regroup(BigEndian(h.vers, 2), h.random + PutSessionId(h), rest);
    ReadUintBack(h.vers, 2, h.random + PutSessionId(h) + rest);
    RT.Regroup(h.random, PutSessionId(h), rest);
    ReadBytesBack(h.random, PutSessionId(h) + rest);
    SessionIdBack(h, rest);
  }

  /** What unmarshal returns: fields that marshal did not write are lost. */
  function Normal(m: ServerHello): ServerHello { ServerHello(m.hello, Part(m.ext, EXTENSIONS)) }

  /** For every message marshal can write at all: what unmarshal makes of it. */
  lemma UnmarshalOfMarshal(m: ServerHello)
    requires Encodable(m)
    ensures Unmarshal(Marshal(m)) == if All(NonEmpty, m.ext.scts) then Some(Normal(m)) else None
  {
    var tail := CH.PutTail(From(m.ext, 0));
    var body := PutHello(m.hello) + tail;
    var head := [TYPE_SERVER_HELLO] + BigEndian(|body|, 3);
    assert Marshal(m) == head + body;
    ReadBytesBack(head, body);
    ReadHelloBack(m.hello, tail);
    assert NO_EXTENSIONS == Part(m.ext, 0);
    RT.ReadTailBack(Apply, Part(m.ext, 0), From(m.ext, 0));
    FoldFrom(m.ext, 0);
  }

  /** Flags agree with the data they guard, and no timestamp is empty. */
  predicate WellFormed(m: ServerHello) {
    && All(NonEmpty, m.ext.scts)
    && (m.ext.renegotiationSupported || m.ext.renegotiation == [])
    && (m.ext.serverShare.group != 0 || m.ext.serverShare.data == [])
    && (m.ext.selectedIdentityPresent || m.ext.selectedIdentity == 0)
  }

  /** Unmarshal returns every field exactly for the well-formed messages. */
  lemma RoundTrip(m: ServerHello)
    requires Encodable(m)
    ensures Unmarshal(Marshal(m)) == Some(m) <==> WellFormed(m)
  {
    UnmarshalOfMarshal(m);
  }
}
