/** Constants, configuration and the pure negotiation rules of the TLS 1.3 handshake. */
module Tls13Config {
  import opened Outcomes
  import opened Symbolic

  const VERSION_TLS12: nat := 0x0303
  const VERSION_TLS13: nat := 0x0304
  const FALLBACK_SCSV: nat := 0x5600
  const PSK_MODE_DHE: nat := 1
  const X25519: nat := 29
  const MAX_TICKET_LIFETIME: nat := 7 * 24 * 3600   // seconds
  const MAX_CLIENT_PSK_IDENTITIES: nat := 5

  // ClientAuthType
  const NO_CLIENT_CERT: nat := 0
  const REQUEST_CLIENT_CERT: nat := 1
  const REQUIRE_ANY_CLIENT_CERT: nat := 2
  const VERIFY_CLIENT_CERT_IF_GIVEN: nat := 3
  const REQUIRE_AND_VERIFY_CLIENT_CERT: nat := 4

  // SignatureScheme
  const PSS_SHA256: nat := 0x0804
  const PSS_SHA384: nat := 0x0805
  const PSS_SHA512: nat := 0x0806
  const ECDSA_P256_SHA256: nat := 0x0403
  const ECDSA_P384_SHA384: nat := 0x0503
  const ECDSA_P521_SHA512: nat := 0x0603
  const ED25519: nat := 0x0807
  const PKCS1_SHA256: nat := 0x0401
  const PKCS1_SHA384: nat := 0x0501
  const PKCS1_SHA512: nat := 0x0601
  const PKCS1_SHA1: nat := 0x0201
  const ECDSA_SHA1: nat := 0x0203

  const SUPPORTED_SIGNATURE_ALGORITHMS: seq<nat> := [
    PSS_SHA256, ECDSA_P256_SHA256, ED25519, PSS_SHA384, PSS_SHA512,
    PKCS1_SHA256, PKCS1_SHA384, PKCS1_SHA512,
    ECDSA_P384_SHA384, ECDSA_P521_SHA512, PKCS1_SHA1, ECDSA_SHA1]

  /** The protocol versions the library knows. */
  type Version = v: nat | 0x0301 <= v <= 0x0304 witness 0x0301

  datatype Suite = Suite(id: nat, hash: Hash)

  function CipherSuiteTls13ById(id: nat): Option<Suite> {
    if id == 0x1301 || id == 0x1303 then Some(Suite(id, SHA256))
    else if id == 0x1302 then Some(Suite(id, SHA384))
    else None
  }

  function MutualCipherSuiteTls13(have: seq<nat>, want: nat): Option<Suite> {
    if want in have then CipherSuiteTls13ById(want) else None
  }

  predicate SupportedCurve(group: nat) { group in {X25519, 23, 24, 25} }

  predicate RequiresClientCert(clientAuth: nat) {
    clientAuth == REQUIRE_ANY_CLIENT_CERT || clientAuth == REQUIRE_AND_VERIFY_CLIENT_CERT
  }

  /**
    Why a handshake stopped. A Configuration failure is a decision about what the two
    endpoints were configured with or about certificates; a Protocol failure says that
    the peer broke the protocol.
   */
  datatype Failure = Configuration(reason: ConfigurationFailure) | Protocol(violation: Violation)

  datatype ConfigurationFailure =
    | NoVersion | NotTls13 | NoCurves | UnsupportedCurve | NoMutualSuite | NoMutualCurve
    | NoApplicationProtocol | NoCertificates | NoSignatureScheme | BadCertificate | EmptyCertificate
    | NoTicketKeys

  datatype Violation =
    | BadRecordMac | UnexpectedMessage | InternalError
    | MissingSupportedVersion | WrongSupportedVersion | WrongLegacyVersion | ForbiddenExtension
    | SessionIdNotEchoed | BadCompression | SuiteChanged | UnconfiguredSuite
    | UnnecessaryRetry | MalformedKeyShare | UnsupportedGroup | UnnecessaryKeyShare
    | SecondRetry | CookieInServerHello | NoServerShare | GroupMismatch
    | InvalidPsk | PskSuiteMismatch | InvalidPeerShare | InvalidAlpn
    | InvalidSignatureAlgorithm | InvalidSignature | InvalidFinished | InvalidTicketLifetime
    | MissingClientVersions | InappropriateFallback | RenegotiationInfo | UnexpectedEarlyData
    | InvalidSecondKeyShare | EarlyDataAfterRetry | IllegalHelloChange
    | BinderCount | InvalidBinder | MissingSignatureAlgorithms

  type Result<T> = Outcome<T, Failure>

  // ---------- certificates ----------

  datatype KeyKind = EcdsaP256 | EcdsaP384 | EcdsaP521 | Rsa(modulusBytes: nat) | Ed25519Key | OtherKey

  /** A configured certificate; its private key is the one of the leaf. */
  datatype Identity = Identity(chain: seq<Certificate>, kind: KeyKind, allowed: Option<seq<nat>>)

  function Filter(s: seq<nat>, keep: seq<nat>): (r: seq<nat>)
    ensures forall x :: x in r <==> x in s && x in keep
  {
    if s == [] then [] else if s[0] in keep then [s[0]] + Filter(s[1..], keep) else Filter(s[1..], keep)
  }

  /** signatureSchemesForCertificate at TLS 1.3: no PKCS #1 v1.5 and no SHA-1. */
  function SignatureSchemes(id: Identity): (r: seq<nat>)
    ensures forall s :: s in r ==> s in SUPPORTED_SIGNATURE_ALGORITHMS && AllowedInTls13(s)
  {
    var byKey :=
      match id.kind
      case EcdsaP256 => [ECDSA_P256_SHA256]
      case EcdsaP384 => [ECDSA_P384_SHA384]
      case EcdsaP521 => [ECDSA_P521_SHA512]
      case Rsa(n) =>
        (if n >= 66 then [PSS_SHA256] else []) + (if n >= 98 then [PSS_SHA384] else [])
        + (if n >= 130 then [PSS_SHA512] else [])
      case Ed25519Key => [ED25519]
      case OtherKey => [];
    if id.allowed.Some? then Filter(byKey, id.allowed.value) else byKey
  }

  predicate AllowedInTls13(scheme: nat) {
    scheme !in {PKCS1_SHA256, PKCS1_SHA384, PKCS1_SHA512, PKCS1_SHA1, ECDSA_SHA1}
  }

  function FirstIn(preference: seq<nat>, have: seq<nat>): (r: Option<nat>)
    ensures r.Some? ==> r.value in preference && r.value in have
    ensures r.None? ==> forall x :: x in preference ==> x !in have
  {
    if preference == [] then None
    else if preference[0] in have then Some(preference[0])
    else FirstIn(preference[1..], have)
  }

  function SelectSignatureScheme(id: Identity, peerAlgorithms: seq<nat>): (r: Result<nat>)
    ensures r.Ok? ==> r.value in peerAlgorithms && r.value in SUPPORTED_SIGNATURE_ALGORITHMS && AllowedInTls13(r.value)
    ensures r.Fail? ==> r.error == Configuration(NoSignatureScheme)
  {
    match FirstIn(peerAlgorithms, SignatureSchemes(id))
    case Some(s) => Ok(s)
    case None => Fail(Configuration(NoSignatureScheme))
  }

  function Sign(id: Identity, scheme: nat, purpose: string, h: Hash, transcript: Transcript): Term {
    Signature(if id.chain == [] then 0 else id.chain[0].key, scheme, purpose, Digest(h, transcript))
  }

  /** The checks both sides make on a CertificateVerify, after the message itself was accepted. */
  function VerifySignature(leaf: Certificate, scheme: nat, signature: Term, purpose: string,
                           h: Hash, transcript: Transcript): Option<Failure> {
    if scheme !in SUPPORTED_SIGNATURE_ALGORITHMS then Some(Protocol(InvalidSignatureAlgorithm))
    else if !AllowedInTls13(scheme) then Some(Protocol(InvalidSignatureAlgorithm))
    else if signature != Signature(leaf.key, scheme, purpose, Digest(h, transcript)) then
      Some(Protocol(InvalidSignature))
    else None
  }

  // ---------- ALPN ----------

  function FirstShared(serverProtos: seq<string>, clientProtos: seq<string>): (r: Option<string>)
    ensures r.Some? ==> r.value in serverProtos && r.value in clientProtos
    ensures r.None? ==> forall p :: p in serverProtos ==> p !in clientProtos
  {
    if serverProtos == [] then None
    else if serverProtos[0] in clientProtos then Some(serverProtos[0])
    else FirstShared(serverProtos[1..], clientProtos)
  }

  /** The protocol negotiateALPN settles on, or None when it gives up. */
  function AlpnChoice(serverProtos: seq<string>, clientProtos: seq<string>): Option<string> {
    if serverProtos == [] || clientProtos == [] then Some("")
    else match FirstShared(serverProtos, clientProtos)
      case Some(p) => Some(p)
      case None => if "h2" in serverProtos && "http/1.1" in clientProtos then Some("") else None
  }

  lemma FirstSharedSplit(before: seq<string>, s: string, after: seq<string>, clientProtos: seq<string>)
    requires forall p :: p in before ==> p !in clientProtos
    requires s in clientProtos
    ensures FirstShared(before + [s] + after, clientProtos) == Some(s)
  {
    var all := before + [s] + after;
    if before != [] {
      assert all[0] == before[0];
      FirstSharedSplit(before[1..], s, after, clientProtos);
      assert all[1..] == before[1..] + [s] + after;
    }
  }

  method NegotiateAlpn(serverProtos: seq<string>, clientProtos: seq<string>) returns (r: Option<string>)
    ensures r == AlpnChoice(serverProtos, clientProtos)
    ensures r.Some? && r.value != "" ==> r.value in serverProtos && r.value in clientProtos
  {
    if |serverProtos| == 0 || |clientProtos| == 0 {
      return Some("");
    }
    var http11fallback := false;
    for i := 0 to |serverProtos|
      invariant forall p :: p in serverProtos[..i] ==> p !in clientProtos
      invariant http11fallback <==> "h2" in serverProtos[..i] && "http/1.1" in clientProtos
    {
      var s := serverProtos[i];
      for j := 0 to |clientProtos|
        invariant s !in clientProtos[..j]
        invariant http11fallback <==>
          ("h2" in serverProtos[..i] && "http/1.1" in clientProtos) || (s == "h2" && "http/1.1" in clientProtos[..j])
      {
        var c := clientProtos[j];
        if s == c {
          assert serverProtos == serverProtos[..i] + [s] + serverProtos[i + 1..];
          FirstSharedSplit(serverProtos[..i], s, serverProtos[i + 1..], clientProtos);
          return Some(s);
        }
        if s == "h2" && c == "http/1.1" {
          http11fallback := true;
        }
        assert clientProtos[..j + 1] == clientProtos[..j] + [c];
      }
      assert clientProtos[..|clientProtos|] == clientProtos;
      assert serverProtos[..i + 1] == serverProtos[..i] + [s];
    }
    assert serverProtos[..|serverProtos|] == serverProtos;
    if http11fallback {
      return Some("");
    }
    return None;
  }

  /** The client's check of the protocol the server chose. */
  predicate AlpnAcceptable(clientProtos: seq<string>, serverProto: string) {
    serverProto == "" || serverProto in clientProtos
  }

  // ---------- group selection ----------

  function ShareFor(group: nat, shares: seq<KeyShare>): (r: Option<KeyShare>)
    ensures r.Some? ==> r.value in shares && r.value.group == group
    ensures r.None? ==> forall k :: k in shares ==> k.group != group
  {
    if shares == [] then None
    else if shares[0].group == group then Some(shares[0])
    else ShareFor(group, shares[1..])
  }

  datatype GroupChoice = GroupChoice(group: nat, share: Option<KeyShare>)

  /**
    The server's choice: the first preferred group the client sent a share for, else the
    first preferred group the client supports (0 when there is none).
   */
  function SelectGroup(preferred: seq<nat>, hello: ClientHello, selected: nat): (r: GroupChoice)
    ensures r.share.Some? ==> r.share.value in hello.keyShares && r.share.value.group == r.group
    ensures r.share.None? ==> forall k :: k in hello.keyShares ==> k.group !in preferred
    ensures r.share.None? && r.group != selected ==> r.group in preferred && r.group in hello.supportedCurves
  {
    if preferred == [] then GroupChoice(selected, None)
    else
      var share := ShareFor(preferred[0], hello.keyShares);
      if share.Some? then GroupChoice(share.value.group, share)
      else SelectGroup(preferred[1..], hello,
        if selected != 0 then selected
        else if preferred[0] in hello.supportedCurves then preferred[0] else 0)
  }

  // ---------- what may change after a HelloRetryRequest ----------

  /** The first hello with everything the second one is allowed to change taken from the second. */
  function WithAllowedChanges(first: ClientHello, second: ClientHello): ClientHello {
    first.(keyShares := second.keyShares, earlyData := second.earlyData,
           pskIdentities := second.pskIdentities, pskBinders := second.pskBinders)
  }

  method DiffersSomewhere<T(==)>(a: seq<T>, b: seq<T>) returns (differs: bool)
    requires |a| == |b|
    ensures differs == (a != b)
  {
    for i := 0 to |a|
      invariant a[..i] == b[..i]
    {
      if a[i] != b[i] {
        return true;
      }
    }
    assert a == a[..|a|] && b == b[..|b|];
    return false;
  }

  method IllegalClientHelloChange(ch: ClientHello, ch1: ClientHello) returns (illegal: bool)
    ensures illegal <==> ch != WithAllowedChanges(ch1, ch)
  {
    if |ch.supportedVersions| != |ch1.supportedVersions| ||
       |ch.cipherSuites| != |ch1.cipherSuites| ||
       |ch.supportedCurves| != |ch1.supportedCurves| ||
       |ch.supportedSignatureAlgorithms| != |ch1.supportedSignatureAlgorithms| ||
       |ch.supportedSignatureAlgorithmsCert| != |ch1.supportedSignatureAlgorithmsCert| ||
       |ch.alpnProtocols| != |ch1.alpnProtocols| {
      return true;
    }
    var d := DiffersSomewhere(ch.supportedVersions, ch1.supportedVersions);
    if d { return true; }
    d := DiffersSomewhere(ch.cipherSuites, ch1.cipherSuites);
    if d { return true; }
    d := DiffersSomewhere(ch.supportedCurves, ch1.supportedCurves);
    if d { return true; }
    d := DiffersSomewhere(ch.supportedSignatureAlgorithms, ch1.supportedSignatureAlgorithms);
    if d { return true; }
    d := DiffersSomewhere(ch.supportedSignatureAlgorithmsCert, ch1.supportedSignatureAlgorithmsCert);
    if d { return true; }
    d := DiffersSomewhere(ch.alpnProtocols, ch1.alpnProtocols);
    if d { return true; }
    return ch.vers != ch1.vers ||
      ch.random != ch1.random ||
      ch.sessionId != ch1.sessionId ||
      ch.compressionMethods != ch1.compressionMethods ||
      ch.serverName != ch1.serverName ||
      ch.ocspStapling != ch1.ocspStapling ||
      ch.supportedPoints != ch1.supportedPoints ||
      ch.ticketSupported != ch1.ticketSupported ||
      ch.sessionTicket != ch1.sessionTicket ||
      ch.secureRenegotiationSupported != ch1.secureRenegotiationSupported ||
      ch.secureRenegotiation != ch1.secureRenegotiation ||
      ch.scts != ch1.scts ||
      ch.cookie != ch1.cookie ||
      ch.pskModes != ch1.pskModes;
  }
}
