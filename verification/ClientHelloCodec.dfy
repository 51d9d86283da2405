/** The ClientHello message: marshal and unmarshal. */
module ClientHelloCodec {
  import opened Outcomes
  import opened Octets
  import opened Codec

  const TYPE_CLIENT_HELLO: byte := 1
  const SCSV_RENEGOTIATION: nat := 0x00ff
  const STATUS_TYPE_OCSP: nat := 1
  const DOT: byte := 46

  const SERVER_NAME: nat := 0
  const STATUS_REQUEST: nat := 5
  const SUPPORTED_CURVES: nat := 10
  const SUPPORTED_POINTS: nat := 11
  const SIGNATURE_ALGORITHMS: nat := 13
  const ALPN: nat := 16
  const SCT: nat := 18
  const SESSION_TICKET: nat := 35
  const PRE_SHARED_KEY: nat := 41
  const EARLY_DATA: nat := 42
  const SUPPORTED_VERSIONS: nat := 43
  const COOKIE: nat := 44
  const PSK_MODES: nat := 45
  const SIGNATURE_ALGORITHMS_CERT: nat := 50
  const KEY_SHARE: nat := 51
  const RENEGOTIATION_INFO: nat := 0xff01

  datatype KeyShare = KeyShare(group: nat, data: bytes)
  datatype PskIdentity = PskIdentity(identity: bytes, obfuscatedTicketAge: nat)

  datatype Hello = Hello(vers: nat, random: bytes, sessionId: bytes, cipherSuites: seq<nat>, compressionMethods: bytes)

  /** The fields that travel in extensions, in the order they are written. */
  datatype Extensions = Extensions(
    serverName: bytes, ocspStapling: bool, supportedCurves: seq<nat>, supportedPoints: bytes,
    ticketSupported: bool, sessionTicket: bytes, signatureAlgorithms: seq<nat>, signatureAlgorithmsCert: seq<nat>,
    renegotiationSupported: bool, renegotiation: bytes, alpnProtocols: seq<bytes>, scts: bool,
    supportedVersions: seq<nat>, cookie: bytes, keyShares: seq<KeyShare>, earlyData: bool,
    pskModes: bytes, pskIdentities: seq<PskIdentity>, pskBinders: seq<bytes>)

  datatype ClientHello = ClientHello(hello: Hello, ext: Extensions)

  // ---------- items ----------

  function PutShare(k: KeyShare): bytes { BigEndian(k.group, 2) + Prefixed(k.data, 2) }

  function ReadShare(s: bytes): Read<KeyShare> {
    match ReadUint(s, 2)
    case None => None
    case Some((group, s1)) =>
      match ReadNonEmpty(s1, 2)
      case None => None
      case Some((data, rest)) => Some((KeyShare(group, data), rest))
  }

  predicate FitsShare(k: KeyShare) { k.group < 65536 && |k.data| < 65536 }
  predicate GoodShare(k: KeyShare) { k.data != [] }

  lemma ShareItems()
    ensures Undoes(ReadShare, PutShare, FitsShare, GoodShare)
  {
    Pow256Of8();
    forall k: KeyShare, rest: bytes | FitsShare(k) ensures UndoesOne(ReadShare, PutShare, GoodShare, k, rest) {
      assert PutShare(k) + rest == BigEndian(k.group, 2) + (Prefixed(k.data, 2) + rest);
      ReadUintBack(k.group, 2, Prefixed(k.data, 2) + rest);
      ReadNonEmptyBack(k.data, 2, rest);
      assert |PutShare(k)| >= 4;
    }
  }

  function PutIdentity(p: PskIdentity): bytes { Prefixed(p.identity, 2) + BigEndian(p.obfuscatedTicketAge, 4) }

  function ReadIdentity(s: bytes): Read<PskIdentity> {
    match ReadNonEmpty(s, 2)
    case None => None
    case Some((identity, s1)) =>
      match ReadUint(s1, 4)
      case None => None
      case Some((age, rest)) => Some((PskIdentity(identity, age), rest))
  }

  predicate FitsIdentity(p: PskIdentity) { |p.identity| < 65536 && p.obfuscatedTicketAge < 0x1_0000_0000 }
  predicate GoodIdentity(p: PskIdentity) { p.identity != [] }

  lemma IdentityItems()
    ensures Undoes(ReadIdentity, PutIdentity, FitsIdentity, GoodIdentity)
  {
    Pow256Of8();
    forall p: PskIdentity, rest: bytes | FitsIdentity(p) ensures UndoesOne(ReadIdentity, PutIdentity, GoodIdentity, p, rest) {
      assert PutIdentity(p) + rest == Prefixed(p.identity, 2) + (BigEndian(p.obfuscatedTicketAge, 4) + rest);
      ReadNonEmptyBack(p.identity, 2, BigEndian(p.obfuscatedTicketAge, 4) + rest);
      ReadUintBack(p.obfuscatedTicketAge, 4, rest);
      assert |PutIdentity(p)| >= 6;
    }
  }

  // ---------- extension data ----------

  /** A prefixed list and nothing after it; empty lists are refused unless allowed. */
  function ReadList<T>(read: bytes -> Read<T>, data: bytes, width: nat, mayBeEmpty: bool): Option<seq<T>> {
    match ReadPrefixed(data, width)
    case None => None
    case Some((list, rest)) => if rest != [] || (list == [] && !mayBeEmpty) then None else ReadItems(read, list)
  }

  lemma ReadListBack<T(!new)>(read: bytes -> Read<T>, put: T -> bytes, fits: T -> bool, accepted: T -> bool,
                              items: seq<T>, width: nat, mayBeEmpty: bool)
    requires Undoes(read, put, fits, accepted) && All(fits, items) && |Encode(put, items)| < Pow256(width)
    requires items != []
    ensures ReadList(read, Prefixed(Encode(put, items), width), width, mayBeEmpty)
      == if All(accepted, items) then Some(items) else None
  {
    ReadPrefixedWhole(Encode(put, items), width);
    ReadItemsBack(read, put, fits, accepted, items);
    EncodeNonEmpty(read, put, fits, accepted, items);
  }

  lemma EncodeNonEmpty<T(!new)>(read: bytes -> Read<T>, put: T -> bytes, fits: T -> bool, accepted: T -> bool, items: seq<T>)
    requires Undoes(read, put, fits, accepted) && All(fits, items) && items != []
    ensures Encode(put, items) != []
  {
    assert UndoesOne(read, put, accepted, items[0], []);
  }

  /** A prefixed string and nothing after it. */
  function ReadOnly(data: bytes, width: nat, mayBeEmpty: bool): Option<bytes> {
    match ReadPrefixed(data, width)
    case None => None
    case Some((x, rest)) => if rest != [] || (x == [] && !mayBeEmpty) then None else Some(x)
  }

  function ReadUint16s(data: bytes, width: nat): Option<seq<nat>> { ReadList(ReadUint16, data, width, false) }

  /** The server name list: one host name at most, without a trailing dot; other name types are skipped. */
  function ReadNames(name: bytes, s: bytes): Option<bytes>
    decreases |s|
  {
    if s == [] then Some(name)
    else
      match ReadUint(s, 1)
      case None => None
      case Some((nameType, s1)) =>
        match ReadNonEmpty(s1, 2)
        case None => None
        case Some((n, rest)) =>
          if nameType != 0 then ReadNames(name, rest)
          else if name != [] || n[|n| - 1] == DOT then None
          else ReadNames(n, rest)
  }

  function ReadServerName(name: bytes, data: bytes): Option<bytes> {
    match ReadPrefixed(data, 2)
    case None => None
    case Some((list, rest)) => if rest != [] || list == [] then None else ReadNames(name, list)
  }

  function ReadStatusRequest(data: bytes): Option<bool> {
    match ReadUint(data, 1)
    case None => None
    case Some((statusType, s1)) =>
      match ReadPrefixed(s1, 2)
      case None => None
      case Some((_, s2)) =>
        match ReadPrefixed(s2, 2)
        case None => None
        case Some((_, rest)) => if rest != [] then None else Some(statusType == STATUS_TYPE_OCSP)
  }

  datatype Psk = Psk(identities: seq<PskIdentity>, binders: seq<bytes>)

  function ReadPsk(data: bytes): Option<Psk> {
    match ReadPrefixed(data, 2)
    case None => None
    case Some((list, rest)) =>
      if list == [] then None
      else
        match ReadItems(ReadIdentity, list)
        case None => None
        case Some(identities) =>
          match ReadList(Read8, rest, 2, false)
          case None => None
          case Some(binders) => Some(Psk(identities, binders))
  }

  // ---------- unmarshal ----------

  /** One extension: the switch in unmarshal. Unknown types are ignored, data and all. */
  function Apply(x: Extensions, e: Extension, last: bool): (r: Option<Extensions>)
    ensures r.Some? && e.typ != PRE_SHARED_KEY ==> r.value.pskIdentities == x.pskIdentities && r.value.pskBinders == x.pskBinders
  {
    if e.typ == SERVER_NAME || e.typ == STATUS_REQUEST || e.typ == SUPPORTED_CURVES || e.typ == SUPPORTED_POINTS then Apply1(x, e)
    else if e.typ == SESSION_TICKET || e.typ == SIGNATURE_ALGORITHMS || e.typ == SIGNATURE_ALGORITHMS_CERT
      || e.typ == RENEGOTIATION_INFO then Apply2(x, e)
    else if e.typ == ALPN || e.typ == SCT || e.typ == SUPPORTED_VERSIONS || e.typ == COOKIE then Apply3(x, e)
    else if e.typ == KEY_SHARE || e.typ == EARLY_DATA || e.typ == PSK_MODES then Apply4(x, e)
    else if e.typ == PRE_SHARED_KEY then if last then ApplyPsk(x, e.data) else None
    else Some(x)
  }

  function Apply1(x: Extensions, e: Extension): (r: Option<Extensions>)
    ensures r.Some? ==> r.value.pskIdentities == x.pskIdentities && r.value.pskBinders == x.pskBinders
  {
    if e.typ == SERVER_NAME then
      match ReadServerName(x.serverName, e.data) case None => None case Some(v) => Some(x.(serverName := v))
    else if e.typ == STATUS_REQUEST then
      match ReadStatusRequest(e.data) case None => None case Some(v) => Some(x.(ocspStapling := v))
    else if e.typ == SUPPORTED_CURVES then
      match ReadUint16s(e.data, 2) case None => None case Some(v) => Some(x.(supportedCurves := x.supportedCurves + v))
    else
      match ReadOnly(e.data, 1, false) case None => None case Some(v) => Some(x.(supportedPoints := v))
  }

  function Apply2(x: Extensions, e: Extension): (r: Option<Extensions>)
    ensures r.Some? ==> r.value.pskIdentities == x.pskIdentities && r.value.pskBinders == x.pskBinders
  {
    if e.typ == SESSION_TICKET then Some(x.(ticketSupported := true, sessionTicket := e.data))
    else if e.typ == SIGNATURE_ALGORITHMS then
      match ReadUint16s(e.data, 2) case None => None case Some(v) => Some(x.(signatureAlgorithms := x.signatureAlgorithms + v))
    else if e.typ == SIGNATURE_ALGORITHMS_CERT then
      match ReadUint16s(e.data, 2) case None => None case Some(v) => Some(x.(signatureAlgorithmsCert := x.signatureAlgorithmsCert + v))
    else
      match ReadOnly(e.data, 1, true) case None => None case Some(v) => Some(x.(renegotiationSupported := true, renegotiation := v))
  }

  function Apply3(x: Extensions, e: Extension): (r: Option<Extensions>)
    ensures r.Some? ==> r.value.pskIdentities == x.pskIdentities && r.value.pskBinders == x.pskBinders
  {
    if e.typ == ALPN then
      match ReadList(Read8, e.data, 2, false) case None => None case Some(v) => Some(x.(alpnProtocols := x.alpnProtocols + v))
    else if e.typ == SCT then if e.data != [] then None else Some(x.(scts := true))
    else if e.typ == SUPPORTED_VERSIONS then
      match ReadUint16s(e.data, 1) case None => None case Some(v) => Some(x.(supportedVersions := x.supportedVersions + v))
    else
      match ReadOnly(e.data, 2, false) case None => None case Some(v) => Some(x.(cookie := v))
  }

  function Apply4(x: Extensions, e: Extension): (r: Option<Extensions>)
    ensures r.Some? ==> r.value.pskIdentities == x.pskIdentities && r.value.pskBinders == x.pskBinders
  {
    if e.typ == KEY_SHARE then
      match ReadList(ReadShare, e.data, 2, true) case None => None case Some(v) => Some(x.(keyShares := x.keyShares + v))
    else if e.typ == EARLY_DATA then if e.data != [] then None else Some(x.(earlyData := true))
    else
      match ReadOnly(e.data, 1, true) case None => None case Some(v) => Some(x.(pskModes := v))
  }

  function ApplyPsk(x: Extensions, data: bytes): Option<Extensions> {
    match ReadPsk(data)
    case None => None
    case Some(v) => Some(x.(pskIdentities := x.pskIdentities + v.identities, pskBinders := x.pskBinders + v.binders))
  }

  /** What unmarshal starts the extensions from; the signalling cipher suite counts as the renegotiation extension. */
  function NoExtensions(cipherSuites: seq<nat>): Extensions {
    Extensions([], false, [], [], false, [], [], [], SCSV_RENEGOTIATION in cipherSuites, [], [], false, [], [], [], false, [], [], [])
  }

  function ReadHello(s: bytes): Read<Hello> {
    match ReadUint(s, 2)
    case None => None
    case Some((vers, rest)) => ReadRandom(rest, vers)
  }

  function ReadRandom(s: bytes, vers: nat): Read<Hello> {
    match ReadBytes(s, 32)
    case None => None
    case Some((random, rest)) => ReadSessionId(rest, vers, random)
  }

  function ReadSessionId(s: bytes, vers: nat, random: bytes): Read<Hello> {
    match ReadPrefixed(s, 1)
    case None => None
    case Some((sessionId, rest)) => ReadCipherSuites(rest, vers, random, sessionId)
  }

  function ReadCipherSuites(s: bytes, vers: nat, random: bytes, sessionId: bytes): Read<Hello> {
    match ReadPrefixed(s, 2)
    case None => None
    case Some((suites, rest)) =>
      match ReadItems(ReadUint16, suites)
      case None => None
      case Some(cipherSuites) => ReadCompression(rest, vers, random, sessionId, cipherSuites)
  }

  function ReadCompression(s: bytes, vers: nat, random: bytes, sessionId: bytes, cipherSuites: seq<nat>): Read<Hello> {
    match ReadPrefixed(s, 1)
    case None => None
    case Some((compression, rest)) => Some((Hello(vers, random, sessionId, cipherSuites, compression), rest))
  }

  /** The optional extension block at the end of a message. */
  function ReadTail<M>(apply: (M, Extension, bool) -> Option<M>, m: M, s: bytes): Option<M> {
    if s == [] then Some(m)
    else
      match ReadPrefixed(s, 2)
      case None => None
      case Some((block, rest)) => if rest != [] then None else ReadBlock(apply, m, block)
  }

  function Unmarshal(data: bytes): Option<ClientHello> {
    match ReadBytes(data, 4)
    case None => None
    case Some((_, s)) =>
      match ReadHello(s)
      case None => None
      case Some((hello, rest)) =>
        match ReadTail(Apply, NoExtensions(hello.cipherSuites), rest)
        case None => None
        case Some(ext) => Some(ClientHello(hello, ext))
  }

  // ---------- marshal ----------

  const EXTENSIONS: nat := 16

  function PutServerName(name: bytes): bytes { Prefixed([0 as byte] + Prefixed(name, 2), 2) }
  function PutUint16s(items: seq<nat>, width: nat): bytes { Prefixed(Encode(PutUint16, items), width) }
  function PutPskData(x: Extensions): bytes {
    Prefixed(Encode(PutIdentity, x.pskIdentities), 2) + PutBinders(x.pskBinders)
  }
  function PutBinders(binders: seq<bytes>): bytes { Prefixed(Encode(Put8, binders), 2) }

  /** The k-th extension in the order of marshal; absent ones are left out. */
  function Nth(x: Extensions, k: nat): (r: Option<Extension>)
    requires k < EXTENSIONS
  {
    if k == 0 then if x.serverName == [] then None else Some(Extension(SERVER_NAME, PutServerName(x.serverName)))
    else if k == 1 then if !x.ocspStapling then None else Some(Extension(STATUS_REQUEST, [1, 0, 0, 0, 0]))
    else if k == 2 then if x.supportedCurves == [] then None else Some(Extension(SUPPORTED_CURVES, PutUint16s(x.supportedCurves, 2)))
    else if k == 3 then if x.supportedPoints == [] then None else Some(Extension(SUPPORTED_POINTS, Prefixed(x.supportedPoints, 1)))
    else if k == 4 then if !x.ticketSupported then None else Some(Extension(SESSION_TICKET, x.sessionTicket))
    else if k == 5 then
      if x.signatureAlgorithms == [] then None else Some(Extension(SIGNATURE_ALGORITHMS, PutUint16s(x.signatureAlgorithms, 2)))
    else if k == 6 then
      if x.signatureAlgorithmsCert == [] then None
      else Some(Extension(SIGNATURE_ALGORITHMS_CERT, PutUint16s(x.signatureAlgorithmsCert, 2)))
    else if k == 7 then if !x.renegotiationSupported then None else Some(Extension(RENEGOTIATION_INFO, Prefixed(x.renegotiation, 1)))
    else Nth2(x, k)
  }

  function Nth2(x: Extensions, k: nat): (r: Option<Extension>)
    requires 8 <= k < EXTENSIONS
  {
    if k == 8 then if x.alpnProtocols == [] then None else Some(Extension(ALPN, Prefixed(Encode(Put8, x.alpnProtocols), 2)))
    else if k == 9 then if !x.scts then None else Some(Extension(SCT, []))
    else if k == 10 then if x.supportedVersions == [] then None else Some(Extension(SUPPORTED_VERSIONS, PutUint16s(x.supportedVersions, 1)))
    else if k == 11 then if x.cookie == [] then None else Some(Extension(COOKIE, Prefixed(x.cookie, 2)))
    else if k == 12 then if x.keyShares == [] then None else Some(Extension(KEY_SHARE, Prefixed(Encode(PutShare, x.keyShares), 2)))
    else if k == 13 then if !x.earlyData then None else Some(Extension(EARLY_DATA, []))
    else if k == 14 then if x.pskModes == [] then None else Some(Extension(PSK_MODES, Prefixed(x.pskModes, 1)))
    else if x.pskIdentities == [] then None else Some(Extension(PRE_SHARED_KEY, PutPskData(x)))
  }

  /** The extensions from the k-th on. */
  function From(x: Extensions, k: nat): seq<Extension>
    requires k <= EXTENSIONS
    decreases EXTENSIONS - k
  {
    if k == EXTENSIONS then []
    else
      match Nth(x, k)
      case None => From(x, k + 1)
      case Some(e) => [e] + From(x, k + 1)
  }

  function PutHello(h: Hello): bytes { BigEndian(h.vers, 2) + PutRandom(h) }
  function PutRandom(h: Hello): bytes { h.random + PutSessionId(h) }
  function PutSessionId(h: Hello): bytes { Prefixed(h.sessionId, 1) + PutCipherSuites(h) }
  function PutCipherSuites(h: Hello): bytes {
    Prefixed(Encode(PutUint16, h.cipherSuites), 2) + Prefixed(h.compressionMethods, 1)
  }

  /** An extension block, or nothing at all when it would be empty. */
  function PutTail(es: seq<Extension>): bytes {
    if es == [] then [] else Prefixed(Encode(PutExtension, es), 2)
  }

  function Marshal(m: ClientHello): bytes {
    [TYPE_CLIENT_HELLO] + Prefixed(PutHello(m.hello) + PutTail(From(m.ext, 0)), 3)
  }
}
