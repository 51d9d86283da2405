/**
  Terms, messages, cipher suites and negotiation rules of the TLS 1.0-1.2 handshake. As in
  Symbolic, cryptography is free: two terms are equal only when they were built the same way.
 */
module Tls12Terms {
  import opened Outcomes
  import Symbolic
  import C = Tls13Config

  const TLS10: nat := 0x0301
  const TLS11: nat := 0x0302
  const TLS12: nat := 0x0303
  const TLS13: nat := 0x0304

  // ---------- keys, certificates, terms ----------

  datatype KeyKind = Ecdsa | Rsa(modulusBytes: nat) | Ed25519 | OtherKind
  datatype PublicKey = PublicKey(id: nat, kind: KeyKind)
  datatype Certificate = Certificate(name: nat, key: PublicKey)

  /** A configured certificate: its chain, its private key, and what that key can do. */
  datatype KeyedChain = KeyedChain(
    chain: seq<Certificate>, key: PublicKey, signer: bool, decrypter: bool, allowed: Option<seq<nat>>)

  /** Loading a key pair refuses a private key that is not the leaf's. */
  type Identity = id: KeyedChain | id.chain != [] ==> id.chain[0].key == id.key
    witness KeyedChain([], PublicKey(0, OtherKind), false, false, None)

  const NO_IDENTITY: Identity := KeyedChain([], PublicKey(0, OtherKind), false, false, None)

  datatype HashKind = Sha1 | Sha256 | Sha384 | Sha512 | Md5Sha1 | Direct
  datatype SignatureType = Pkcs1 | Pss | EcdsaSignature | Ed25519Signature
  datatype PrfKind = Prf10 | Prf12(hash: HashKind)

  datatype Term =
    | Nil                                                    // an absent value
    | Random(id: nat)
    | RandomWithCanary(id: nat, canary: nat)                 // the canary for a version
    | Dh(value: Symbolic.Term)
    | Premaster(vers: nat, id: nat)
    | RsaEncrypted(key: PublicKey, secret: Term)
    | Prf(prf: PrfKind, secret: Term, lbl: string, seed: seq<Term>)
    | Slice(of: Term, from: nat, to: nat)
    | Hashed(hash: HashKind, content: Content)
    | Signature(key: PublicKey, sigType: SignatureType, hash: HashKind, signed: Term)
    | Ticket(keyName: nat, state: SessionState)

  datatype Content =
    | Messages(messages: seq<Message>)
    | KeyExchangeParams(clientRandom: Term, serverRandom: Term, curve: nat, point: Term)

  datatype SessionState = SessionState(
    vers: nat, cipherSuite: nat, createdAt: int, masterSecret: Term, chain: seq<Certificate>)

  datatype Message =
    | ClientHelloMsg(clientHello: ClientHello)
    | ServerHelloMsg(serverHello: ServerHello)
    | CertificateMsg(chain: seq<Certificate>)
    | CertificateStatus(response: nat)
    | ServerKeyExchange(curve: nat, point: Term, scheme: Option<nat>, signature: Term)
    | CertificateRequest(schemes: Option<seq<nat>>, authorities: seq<nat>)
    | ServerHelloDone
    | ClientKeyExchange(ciphertext: Term)
    | CertificateVerify(scheme: Option<nat>, signature: Term)
    | NewSessionTicket(ticket: Term)
    | Finished(verifyData: Term)

  /** The fields these versions look at; what TLS 1.3 adds is only there to be hashed. */
  datatype ClientHello = ClientHello(
    vers: nat, random: Term, sessionId: Term, cipherSuites: seq<nat>, compressionMethods: seq<nat>,
    serverName: string, ocspStapling: bool, supportedCurves: seq<nat>, supportedPoints: seq<nat>,
    ticketSupported: bool, sessionTicket: Term, signatureAlgorithms: seq<nat>,
    secureRenegotiationSupported: bool, secureRenegotiation: seq<nat>,
    alpnProtocols: seq<string>, scts: bool, supportedVersions: seq<nat>, pskOffered: bool)

  datatype ServerHello = ServerHello(
    vers: nat, random: Term, sessionId: Term, cipherSuite: nat, compressionMethod: nat,
    ocspStapling: bool, ticketSupported: bool, secureRenegotiationSupported: bool,
    secureRenegotiation: seq<nat>, alpnProtocol: string, scts: bool, supportedVersion: nat,
    supportedPoints: seq<nat>)

  // ---------- failures ----------

  /** Why a handshake stopped: a decision about configurations, a broken protocol, or a panic. */
  datatype Failure = Configuration(reason: ConfigurationFailure) | Protocol(violation: Violation) | Panic

  datatype ConfigurationFailure =
    | NoVersion | Tls13Negotiated | UnsupportedCurve | NoMutualCurve | NoApplicationProtocol | NoCertificate
    | UnsupportedKey | NoMutualSuite | NoSignatureScheme | BadCertificate | EmptyCertificate
    | NoTicketKeys | ConnectionRefused

  datatype Violation =
    | Garbled | UnexpectedMessage | UnsupportedVersion | DowngradeDetected | UnconfiguredSuite
    | BadCompression | RenegotiationInfo | InvalidAlpn | ResumedVersion | ResumedSuite
    | UnexpectedStatus | UnexpectedKeyExchange | MalformedKeyExchange | InvalidSignatureAlgorithm
    | KeyMismatch | InvalidSignature | WrongKeyType | MissingKeyExchange | NoPendingCipher
    | InvalidFinished | InappropriateFallback | InvalidClientKeyExchange

  type Result<T> = Outcome<T, Failure>

  // ---------- versions ----------

  /** Config.supportedVersions for explicit MinVersion and MaxVersion, 0 standing for unset. */
  function SupportedVersions(min: nat, max: nat, isClient: bool): seq<nat> {
    VersionsFrom([TLS13, TLS12, TLS11, TLS10], min, max, isClient)
  }

  predicate VersionAllowed(v: nat, min: nat, max: nat, isClient: bool) {
    && !(min == 0 && isClient && v < TLS12)
    && !(min != 0 && v < min)
    && !(max != 0 && v > max)
  }

  function VersionsFrom(all: seq<nat>, min: nat, max: nat, isClient: bool): (r: seq<nat>)
    ensures forall v :: v in r <==> v in all && VersionAllowed(v, min, max, isClient)
  {
    if all == [] then []
    else if VersionAllowed(all[0], min, max, isClient) then [all[0]] + VersionsFrom(all[1..], min, max, isClient)
    else VersionsFrom(all[1..], min, max, isClient)
  }

  function MaxVersion(versions: seq<nat>): nat { if versions == [] then 0 else versions[0] }

  function VersionsUpTo(all: seq<nat>, max: nat): seq<nat> {
    if all == [] then [] else if all[0] > max then VersionsUpTo(all[1..], max) else [all[0]] + VersionsUpTo(all[1..], max)
  }

  function MutualVersion(supported: seq<nat>, peer: seq<nat>): (r: Option<nat>)
    ensures r == C.FirstIn(peer, supported)
  {
    C.FirstIn(peer, supported)
  }

  // ---------- signatures ----------

  function TypeAndHash(scheme: nat): Option<(SignatureType, HashKind)> {
    if scheme == C.PKCS1_SHA1 then Some((Pkcs1, Sha1))
    else if scheme == C.PKCS1_SHA256 then Some((Pkcs1, Sha256))
    else if scheme == C.PKCS1_SHA384 then Some((Pkcs1, Sha384))
    else if scheme == C.PKCS1_SHA512 then Some((Pkcs1, Sha512))
    else if scheme == C.PSS_SHA256 then Some((Pss, Sha256))
    else if scheme == C.PSS_SHA384 then Some((Pss, Sha384))
    else if scheme == C.PSS_SHA512 then Some((Pss, Sha512))
    else if scheme == C.ECDSA_SHA1 then Some((EcdsaSignature, Sha1))
    else if scheme == C.ECDSA_P256_SHA256 then Some((EcdsaSignature, Sha256))
    else if scheme == C.ECDSA_P384_SHA384 then Some((EcdsaSignature, Sha384))
    else if scheme == C.ECDSA_P521_SHA512 then Some((EcdsaSignature, Sha512))
    else if scheme == C.ED25519 then Some((Ed25519Signature, Direct))
    else None
  }

  /** legacyTypeAndHashFromPublicKey: TLS 1.0 and 1.1 cannot use Ed25519. */
  function LegacyTypeAndHash(key: PublicKey): Option<(SignatureType, HashKind)> {
    match key.kind
    case Rsa(_) => Some((Pkcs1, Md5Sha1))
    case Ecdsa => Some((EcdsaSignature, Sha1))
    case _ => None
  }

  predicate Suits(sigType: SignatureType, key: PublicKey) {
    match sigType
    case EcdsaSignature => key.kind.Ecdsa?
    case Ed25519Signature => key.kind.Ed25519?
    case _ => key.kind.Rsa?
  }

  /** signatureSchemesForCertificate before TLS 1.3; each scheme names a signature this kind of key makes. */
  function SignatureSchemes(id: Identity): (r: seq<nat>)
    ensures forall s :: s in r ==> TypeAndHash(s).Some? && Suits(TypeAndHash(s).value.0, id.key)
  {
    if !id.signer then []
    else if id.allowed.Some? then C.Filter(SchemesOfKey(id.key), id.allowed.value)
    else SchemesOfKey(id.key)
  }

  function SchemesOfKey(key: PublicKey): (r: seq<nat>)
    ensures forall s :: s in r ==> TypeAndHash(s).Some? && Suits(TypeAndHash(s).value.0, key)
  {
    match key.kind
    case Ecdsa => [C.ECDSA_P256_SHA256, C.ECDSA_P384_SHA384, C.ECDSA_P521_SHA512, C.ECDSA_SHA1]
    case Rsa(n) => RsaSchemes(n)
    case Ed25519 => [C.ED25519]
    case OtherKind => []
  }

  function RsaSchemes(n: nat): (r: seq<nat>)
    ensures forall s :: s in r ==> TypeAndHash(s).Some? && TypeAndHash(s).value.0 in {Pkcs1, Pss}
  {
    (if n >= 66 then [C.PSS_SHA256] else []) + (if n >= 98 then [C.PSS_SHA384] else [])
    + (if n >= 130 then [C.PSS_SHA512] else []) + (if n >= 62 then [C.PKCS1_SHA256] else [])
    + (if n >= 78 then [C.PKCS1_SHA384] else []) + (if n >= 94 then [C.PKCS1_SHA512] else [])
    + (if n >= 46 then [C.PKCS1_SHA1] else [])
  }

  /** A peer that sent no signature_algorithms is taken to support SHA-1. */
  function SelectSignatureScheme(id: Identity, peerAlgorithms: seq<nat>): (r: Option<nat>)
    ensures r.Some? ==> TypeAndHash(r.value).Some? && Suits(TypeAndHash(r.value).value.0, id.key)
    ensures r.Some? && peerAlgorithms != [] ==> r.value in peerAlgorithms
  {
    C.FirstIn(if peerAlgorithms == [] then [C.PKCS1_SHA1, C.ECDSA_SHA1] else peerAlgorithms, SignatureSchemes(id))
  }

  /** How to sign: the scheme to announce, if this version announces one, and its signature type and hash. */
  datatype Signing = Signing(scheme: Option<nat>, sigType: SignatureType, hash: HashKind)

  function ChooseSigning(vers: nat, id: Identity, peerAlgorithms: seq<nat>): (r: Option<Signing>)
    ensures r.Some? ==> Suits(r.value.sigType, id.key) && CheckSigning(vers, id.key, r.value.scheme) == Some(r.value)
    ensures r.Some? && vers >= TLS12 ==>
      r.value.scheme.Some? && (peerAlgorithms != [] ==> r.value.scheme.value in peerAlgorithms)
    ensures r.Some? && vers < TLS12 ==> r.value.scheme.None? && r.value.hash != Direct
  {
    if vers >= TLS12 then
      match SelectSignatureScheme(id, peerAlgorithms)
      case None => None
      case Some(scheme) =>
        Some(Signing(Some(scheme), TypeAndHash(scheme).value.0, TypeAndHash(scheme).value.1))
    else if !id.signer then None
    else match LegacyTypeAndHash(id.key)
      case None => None
      case Some((sigType, hash)) => Some(Signing(None, sigType, hash))
  }

  /** What a verifier makes of an announced scheme, or of the key where none is announced. */
  function CheckSigning(vers: nat, key: PublicKey, scheme: Option<nat>): Option<Signing> {
    var typeAndHash :=
      if vers < TLS12 then LegacyTypeAndHash(key) else if scheme.Some? then TypeAndHash(scheme.value) else None;
    match typeAndHash
    case None => None
    case Some((sigType, hash)) => Some(Signing(if vers < TLS12 then None else scheme, sigType, hash))
  }

  function Sign(key: PublicKey, how: Signing, signed: Term): Term { Signature(key, how.sigType, how.hash, signed) }

  /** verifyHandshakeSignature */
  predicate Verifies(key: PublicKey, how: Signing, signed: Term, signature: Term) {
    Suits(how.sigType, key) && signature == Sign(key, how, signed)
  }

  // ---------- cipher suites ----------

  datatype Suite = Suite(
    id: nat, keyLen: nat, macLen: nat, ivLen: nat, ecdhe: bool, ecSign: bool, tls12Only: bool, sha384: bool)

  const CIPHER_SUITES: seq<Suite> := [
    Suite(0xcca8, 32, 0, 12, true, false, true, false), Suite(0xcca9, 32, 0, 12, true, true, true, false),
    Suite(0xc02f, 16, 0, 4, true, false, true, false), Suite(0xc02b, 16, 0, 4, true, true, true, false),
    Suite(0xc030, 32, 0, 4, true, false, true, true), Suite(0xc02c, 32, 0, 4, true, true, true, true),
    Suite(0xc027, 16, 32, 16, true, false, true, false), Suite(0xc013, 16, 20, 16, true, false, false, false),
    Suite(0xc023, 16, 32, 16, true, true, true, false), Suite(0xc009, 16, 20, 16, true, true, false, false),
    Suite(0xc014, 32, 20, 16, true, false, false, false), Suite(0xc00a, 32, 20, 16, true, true, false, false),
    Suite(0x009c, 16, 0, 4, false, false, true, false), Suite(0x009d, 32, 0, 4, false, false, true, true),
    Suite(0x003c, 16, 32, 16, false, false, true, false), Suite(0x002f, 16, 20, 16, false, false, false, false),
    Suite(0x0035, 32, 20, 16, false, false, false, false), Suite(0xc012, 24, 20, 8, true, false, false, false),
    Suite(0x000a, 24, 20, 8, false, false, false, false), Suite(0x0005, 16, 20, 0, false, false, false, false),
    Suite(0xc011, 16, 20, 0, true, false, false, false), Suite(0xc007, 16, 20, 0, true, true, false, false)]

  function SuiteIn(table: seq<Suite>, id: nat): (r: Option<Suite>)
    ensures r.Some? ==> r.value.id == id && r.value in table
  {
    if table == [] then None else if table[0].id == id then Some(table[0]) else SuiteIn(table[1..], id)
  }

  function SuiteById(id: nat): (r: Option<Suite>)
    ensures r.Some? ==> r.value.id == id
  {
    SuiteIn(CIPHER_SUITES, id)
  }

  function MutualSuite(have: seq<nat>, want: nat): Option<Suite> { if want in have then SuiteById(want) else None }

  /** What the server found out about itself and the client, for cipherSuiteOk. */
  datatype Abilities = Abilities(vers: nat, ecdheOk: bool, ecSignOk: bool, rsaSignOk: bool, rsaDecryptOk: bool)

  predicate CipherSuiteOk(a: Abilities, suite: Suite) {
    && (if suite.ecdhe then a.ecdheOk && (if suite.ecSign then a.ecSignOk else a.rsaSignOk) else a.rsaDecryptOk)
    && !(a.vers < TLS12 && suite.tls12Only)
  }

  function SelectCipherSuite(ids: seq<nat>, supported: seq<nat>, a: Abilities): (r: Option<Suite>)
    ensures r.Some? ==>
      r.value.id in ids && r.value.id in supported && SuiteById(r.value.id) == r && CipherSuiteOk(a, r.value)
  {
    if ids == [] then None
    else if SuiteById(ids[0]).Some? && CipherSuiteOk(a, SuiteById(ids[0]).value) && ids[0] in supported then
      SuiteById(ids[0])
    else SelectCipherSuite(ids[1..], supported, a)
  }

  // ---------- the handshake hash ----------

  /** What was hashed so far, and the buffer that a client certificate needs, until it is discarded. */
  datatype HandshakeHash = HandshakeHash(vers: nat, prf: PrfKind, messages: seq<Message>, buffer: Option<seq<Message>>) {
    function Write(m: Message): HandshakeHash {
      this.(messages := messages + [m], buffer := if buffer.Some? then Some(buffer.value + [m]) else None)
    }

    function Discard(): HandshakeHash { this.(buffer := None) }

    function Sum(): Term {
      Hashed(if vers >= TLS12 && prf.Prf12? then prf.hash else Md5Sha1, Messages(messages))
    }

    function ClientSum(masterSecret: Term): Term { Prf(prf, masterSecret, "client finished", [Sum()]) }

    function ServerSum(masterSecret: Term): Term { Prf(prf, masterSecret, "server finished", [Sum()]) }

    /** hashForClientCertificate; None where the source panics. */
    function ForClientCertificate(sigType: SignatureType, hash: HashKind): Option<Term> {
      if vers >= TLS12 || sigType.Ed25519Signature? then
        if buffer.None? then None
        else Some(Hashed(if sigType.Ed25519Signature? then Direct else hash, Messages(buffer.value)))
      else Some(if sigType.EcdsaSignature? then Hashed(Sha1, Messages(messages)) else Sum())
    }
  }

  function PrfFor(vers: nat, suite: Suite): PrfKind {
    if vers < TLS12 then Prf10 else Prf12(if suite.sha384 then Sha384 else Sha256)
  }

  function NewHandshakeHash(vers: nat, suite: Suite): HandshakeHash {
    HandshakeHash(vers, PrfFor(vers, suite), [], if vers >= TLS12 then Some([]) else None)
  }

  // ---------- keys ----------

  function MasterFrom(vers: nat, suite: Suite, premaster: Term, clientRandom: Term, serverRandom: Term): Term {
    Prf(PrfFor(vers, suite), premaster, "master secret", [clientRandom, serverRandom])
  }

  /** What protects one direction; Plaintext before the first change_cipher_spec. */
  datatype CipherSpec = Plaintext | Keyed(vers: nat, suite: nat, mac: Term, key: Term, iv: Term)

  datatype KeyBlock = KeyBlock(
    clientMac: Term, serverMac: Term, clientKey: Term, serverKey: Term, clientIv: Term, serverIv: Term)

  /** keysFromMasterSecret: consecutive slices of the key material. */
  function KeysFromMaster(vers: nat, suite: Suite, master: Term, clientRandom: Term, serverRandom: Term): KeyBlock {
    var material := Prf(PrfFor(vers, suite), master, "key expansion", [serverRandom, clientRandom]);
    var (m, k, i) := (suite.macLen, suite.keyLen, suite.ivLen);
    KeyBlock(Slice(material, 0, m), Slice(material, m, 2 * m),
             Slice(material, 2 * m, 2 * m + k), Slice(material, 2 * m + k, 2 * m + 2 * k),
             Slice(material, 2 * m + 2 * k, 2 * m + 2 * k + i), Slice(material, 2 * m + 2 * k + i, 2 * m + 2 * k + 2 * i))
  }

  function ClientSpec(vers: nat, suite: Suite, b: KeyBlock): CipherSpec {
    Keyed(vers, suite.id, b.clientMac, b.clientKey, b.clientIv)
  }

  function ServerSpec(vers: nat, suite: Suite, b: KeyBlock): CipherSpec {
    Keyed(vers, suite.id, b.serverMac, b.serverKey, b.serverIv)
  }

  /** The premaster secret of an ECDHE exchange; Nil when the peer's point is not on the curve. */
  function SharedSecret(own: Symbolic.Ecdhe, peer: Term): Term {
    if !peer.Dh? || own.Shared(peer.value) == Symbolic.Nil then Nil else Dh(own.Shared(peer.value))
  }

  lemma SharedSecretsAgree(curve: nat, a: nat, b: nat)
    ensures SharedSecret(Symbolic.Ecdhe(curve, a), Dh(Symbolic.Ecdhe(curve, b).Public()))
      == SharedSecret(Symbolic.Ecdhe(curve, b), Dh(Symbolic.Ecdhe(curve, a).Public())) != Nil
  {
    Symbolic.DiffieHellmanCommutes(Symbolic.Ecdhe(curve, a), Symbolic.Ecdhe(curve, b));
  }

  // ---------- records ----------

  datatype Payload = ChangeCipherSpec | Handshake(message: Message)

  /** A record: what it is protected with and its content. */
  datatype Wire = Wire(spec: CipherSpec, payload: Payload)

  function Plain(ms: seq<Message>): (r: seq<Wire>)
    ensures |r| == |ms|
  {
    if ms == [] then [] else [Wire(Plaintext, Handshake(ms[0]))] + Plain(ms[1..])
  }

  lemma {:induction false} PlainConcat(a: seq<Message>, b: seq<Message>)
    ensures Plain(a + b) == Plain(a) + Plain(b)
  {
    if a == [] {
      assert a + b == b;
    } else {
      assert (a + b)[1..] == a[1..] + b;
      PlainConcat(a[1..], b);
    }
  }
}
