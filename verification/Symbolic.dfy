/**
  The symbolic world of the handshakes: hashes, HKDF, HMAC, signatures and
  Diffie-Hellman are free constructors, so two terms are equal only when they were
  built in the same way; the one equation is that Diffie-Hellman commutes.
 */
module Symbolic {
  import opened Outcomes

  datatype Hash = SHA256 | SHA384

  datatype Term =
    | Nil                                                        // an absent value
    | Zeros(hash: Hash)                                          // a hash-sized string of zeros
    | Random(id: nat)
    | RetryRandom                                                // the random that marks a HelloRetryRequest
    | Nonce(octets: seq<nat>)
    | PublicKey(group: nat, exponent: nat)
    | SharedKey(group: nat, low: nat, high: nat)
    | Extracted(hash: Hash, input: Term, salt: Term)
    | Expanded(hash: Hash, secret: Term, lbl: string, context: Term)
    | Digest(hash: Hash, items: seq<Item>)
    | Mac(hash: Hash, key: Term, data: Term)
    | Signature(signer: nat, scheme: nat, purpose: string, content: Term)
    | Ticket(keyName: nat, state: SessionState)                  // a sealed session state

  /** What is written to a transcript hash. */
  datatype Item =
    | MessageHash(digest: Term)          // the synthetic message_hash message
    | Whole(message: Message)
    | UpToBinders(hello: ClientHello)    // a ClientHello through its PSK identities

  datatype Message =
    | ClientHelloMsg(clientHello: ClientHello)
    | ServerHelloMsg(serverHello: ServerHello)
    | EncryptedExtensions(alpn: string)
    | CertificateRequest(schemes: seq<nat>, authorities: seq<nat>)
    | CertificateMsg(chain: seq<Certificate>)
    | CertificateVerify(scheme: nat, signature: Term)
    | Finished(verifyData: Term)
    | NewSessionTicket(ticket: Term, lifetime: nat, ageAdd: nat, nonce: seq<nat>)

  datatype Certificate = Certificate(name: nat, key: nat)
  datatype KeyShare = KeyShare(group: nat, data: Term)
  datatype PskIdentity = PskIdentity(ticket: Term, obfuscatedAge: nat)

  datatype ClientHello = ClientHello(
    vers: nat, random: Term, sessionId: nat, cipherSuites: seq<nat>, compressionMethods: seq<nat>,
    serverName: string, ocspStapling: bool, supportedCurves: seq<nat>, supportedPoints: seq<nat>,
    ticketSupported: bool, sessionTicket: Term,
    supportedSignatureAlgorithms: seq<nat>, supportedSignatureAlgorithmsCert: seq<nat>,
    secureRenegotiationSupported: bool, secureRenegotiation: seq<nat>,
    alpnProtocols: seq<string>, scts: bool, supportedVersions: seq<nat>, cookie: seq<nat>,
    keyShares: seq<KeyShare>, earlyData: bool, pskModes: seq<nat>,
    pskIdentities: seq<PskIdentity>, pskBinders: seq<Term>)

  datatype ServerHello = ServerHello(
    vers: nat, random: Term, sessionId: nat, cipherSuite: nat, compressionMethod: nat,
    ocspStapling: bool, ticketSupported: bool,
    secureRenegotiationSupported: bool, secureRenegotiation: seq<nat>,
    alpnProtocol: string, scts: seq<seq<nat>>, supportedVersion: nat, serverShare: KeyShare,
    selectedIdentityPresent: bool, selectedIdentity: nat, supportedPoints: seq<nat>,
    cookie: seq<nat>, selectedGroup: nat)

  datatype SessionState = SessionState(
    cipherSuite: nat, createdAt: int, resumptionSecret: Term, chain: seq<Certificate>)

  // ---------- Diffie-Hellman ----------

  /** A key pair: the group and the private exponent. */
  datatype Ecdhe = Ecdhe(group: nat, exponent: nat) {
    function Public(): Term { PublicKey(group, exponent) }

    /** nil when the peer's share is not a point of this group. */
    function Shared(peer: Term): Term {
      if !peer.PublicKey? || peer.group != group then Nil
      else if exponent <= peer.exponent then SharedKey(group, exponent, peer.exponent)
      else SharedKey(group, peer.exponent, exponent)
    }
  }

  // ---------- key schedule ----------

  const RESUMPTION_BINDER_LABEL := "res binder"
  const CLIENT_HANDSHAKE_LABEL := "c hs traffic"
  const SERVER_HANDSHAKE_LABEL := "s hs traffic"
  const CLIENT_APPLICATION_LABEL := "c ap traffic"
  const SERVER_APPLICATION_LABEL := "s ap traffic"
  const EXPORTER_LABEL := "exp master"
  const RESUMPTION_LABEL := "res master"
  const SERVER_SIGNATURE_CONTEXT := "TLS 1.3, server CertificateVerify"
  const CLIENT_SIGNATURE_CONTEXT := "TLS 1.3, client CertificateVerify"

  type Transcript = seq<Item>

  function Extract(h: Hash, newSecret: Term, currentSecret: Term): Term {
    Extracted(h, if newSecret == Nil then Zeros(h) else newSecret, currentSecret)
  }

  function DeriveSecret(h: Hash, secret: Term, lbl: string, transcript: Transcript): Term {
    Expanded(h, secret, lbl, Digest(h, transcript))
  }

  function FinishedHash(h: Hash, baseKey: Term, transcript: Transcript): Term {
    Mac(h, Expanded(h, baseKey, "finished", Nil), Digest(h, transcript))
  }

  /** An empty ticket nonce and an absent one are the same octets. */
  function PskFrom(h: Hash, resumptionSecret: Term, nonce: seq<nat>): Term {
    Expanded(h, resumptionSecret, "resumption", if nonce == [] then Nil else Nonce(nonce))
  }

  function HandshakeSecret(h: Hash, sharedKey: Term, earlySecret: Term): Term {
    Extract(h, sharedKey, DeriveSecret(h, earlySecret, "derived", []))
  }

  function MasterSecret(h: Hash, handshakeSecret: Term): Term {
    Extract(h, Nil, DeriveSecret(h, handshakeSecret, "derived", []))
  }

  /** The prefix of a ClientHello that binders are computed over: it keeps how many binders follow. */
  function WithoutBinders(hello: ClientHello): Item {
    UpToBinders(hello.(pskBinders := seq(|hello.pskBinders|, _ => Nil)))
  }

  lemma DiffieHellmanCommutes(a: Ecdhe, b: Ecdhe)
    requires a.group == b.group
    ensures a.Shared(b.Public()) == b.Shared(a.Public()) != Nil
  {
  }
}
