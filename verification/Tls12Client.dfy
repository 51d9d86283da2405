/** The client's side of the TLS 1.0-1.2 handshake, as functions from state and record to state. */
module Tls12Client {
  import opened Outcomes
  import opened Tls12Terms
  import Symbolic
  import C = Tls13Config

  /** A cached session. */
  datatype Session = Session(ticket: Term, vers: nat, cipherSuite: nat, masterSecret: Term, chain: seq<Certificate>)

  datatype ClientConfig = ClientConfig(
    serverName: string, minVersion: nat, maxVersion: nat,
    cipherSuites: seq<nat>,             // the configured suites in preference order
    curves: seq<nat>, alpnProtocols: seq<string>,
    ticketsEnabled: bool,               // tickets are not disabled and there is a session cache
    cached: Option<Session>,            // what the cache holds for this server
    cachedCertificateOk: bool,          // outcome of the checks on the cached server certificate
    tls13SessionOk: bool,               // outcome of the further checks on a TLS 1.3 session
    serverChainOk: bool,                // outcome of verifying the server's certificate chain
    connectionOk: bool,                 // outcome of the VerifyConnection hook
    certificates: seq<Identity>,
    chosen: Option<nat>,                // the first of them that suits the server's request
    getClientCertificate: Option<Option<Identity>>,   // the hook, if set, and what it returns, None for an error
    random: nat, sessionId: nat, premaster: nat, exponent: nat)

  datatype ClientStage =
    | WaitServerHello | WaitCertificate | WaitStatus | WaitKeyExchange | WaitRequest | WaitDone
    | WaitTicket | WaitChangeCipherSpec | WaitFinished | Established

  /** A finished key agreement: the premaster secret and the message that tells the server. */
  datatype Agreement = Agreement(premaster: Term, message: Message)

  datatype Client = Client(
    cfg: ClientConfig, stage: ClientStage, hello: ClientHello, serverHello: ServerHello,
    session: Option<Session>, vers: nat, suite: Suite, resumed: bool, hash: HandshakeHash,
    peerChain: seq<Certificate>, agreed: Option<Agreement>, requested: Option<seq<nat>>, reply: Identity,
    masterSecret: Term, alpn: string,
    inSpec: CipherSpec, outSpec: CipherSpec, nextIn: CipherSpec, nextOut: CipherSpec,
    issued: Option<Session>, stored: Option<Session>)

  type Step = Result<(Client, seq<Wire>)>

  const EMPTY_HELLO := ServerHello(0, Nil, Nil, 0, 0, false, false, false, [], "", false, 0, [])
  const NO_SUITE := Suite(0, 0, 0, 0, false, false, false, false)
  const NO_HASH := HandshakeHash(0, Prf10, [], None)

  // ---------- makeClientHello and loadSession ----------

  /** Suites only TLS 1.2 knows are not offered below it. */
  function OfferedSuites(suites: seq<nat>, vers: nat): seq<nat> {
    if suites == [] then []
    else if SuiteById(suites[0]).Some? && !(vers < TLS12 && SuiteById(suites[0]).value.tls12Only) then
      [suites[0]] + OfferedSuites(suites[1..], vers)
    else OfferedSuites(suites[1..], vers)
  }

  const TLS13_SUITES: seq<nat> := [0x1301, 0x1302, 0x1303]

  function Versions(cfg: ClientConfig): seq<nat> { SupportedVersions(cfg.minVersion, cfg.maxVersion, true) }

  function MakeClientHello(cfg: ClientConfig): Result<ClientHello> {
    var versions := Versions(cfg);
    if versions == [] then Fail(Configuration(NoVersion))
    else if versions[0] == TLS13 && (cfg.curves == [] || !C.SupportedCurve(cfg.curves[0])) then
      Fail(Configuration(UnsupportedCurve))
    else
      var vers := if versions[0] > TLS12 then TLS12 else versions[0];
      Ok(ClientHello(
        vers, Random(cfg.random), Random(cfg.sessionId),
        OfferedSuites(cfg.cipherSuites, vers) + (if versions[0] == TLS13 then TLS13_SUITES else []), [0],
        cfg.serverName, true, cfg.curves, [0], false, Nil,
        if vers >= TLS12 then C.SUPPORTED_SIGNATURE_ALGORITHMS else [],
        true, [], cfg.alpnProtocols, true, versions, false))
  }

  datatype Offer = Offer(hello: ClientHello, session: Option<Session>)

  function LoadSession(cfg: ClientConfig, made: ClientHello): Offer {
    if !cfg.ticketsEnabled then Offer(made, None)
    else
      var hello := made.(ticketSupported := true);
      if cfg.cached.None? then Offer(hello, None)
      else
        var session := cfg.cached.value;
        if session.vers !in hello.supportedVersions || !cfg.cachedCertificateOk then Offer(hello, None)
        else if session.vers != TLS13 then
          if MutualSuite(hello.cipherSuites, session.cipherSuite).None? then Offer(hello, None)
          else Offer(hello.(sessionTicket := session.ticket), Some(session))
        else if !cfg.tls13SessionOk then Offer(hello, None)
        else Offer(hello.(pskOffered := true), Some(session))
  }

  function Start(cfg: ClientConfig): Step {
    match MakeClientHello(cfg)
    case Fail(e) => Fail(e)
    case Ok(made) =>
      var offer := LoadSession(cfg, made);
      Ok((Client(cfg, WaitServerHello, offer.hello, EMPTY_HELLO, offer.session, 0, NO_SUITE, false, NO_HASH,
                 [], None, None, NO_IDENTITY, Nil, "", Plaintext, Plaintext, Plaintext, Plaintext, None, None),
          Plain([ClientHelloMsg(offer.hello)])))
  }

  // ---------- ServerHello ----------

  function Canary(random: Term): nat { if random.RandomWithCanary? then random.canary else 0 }

  /** Section 4.1.3 of RFC 8446: a server that could do better says so in its random. */
  predicate DowngradeSignalled(maxVersion: nat, vers: nat, random: Term) {
    || (maxVersion == TLS13 && vers <= TLS12 && Canary(random) in {TLS12, TLS11})
    || (maxVersion == TLS12 && vers <= TLS11 && Canary(random) == TLS11)
  }

  function PeerVersion(sh: ServerHello): nat { if sh.supportedVersion != 0 then sh.supportedVersion else sh.vers }

  function OnServerHello(c: Client, sh: ServerHello): Step {
    var vers := PeerVersion(sh);
    if vers !in Versions(c.cfg) then Fail(Protocol(UnsupportedVersion))
    else if DowngradeSignalled(MaxVersion(Versions(c.cfg)), vers, sh.random) then Fail(Protocol(DowngradeDetected))
    else if vers == TLS13 then Fail(Configuration(Tls13Negotiated))
    else match ProcessServerHello(c.(vers := vers, serverHello := sh), sh)
      case Fail(e) => Fail(e)
      case Ok((c1, isResume)) => Ok((if isResume then BeginResumed(c1) else BeginFull(c1), []))
  }

  predicate ServerResumed(c: Client, sh: ServerHello) { c.session.Some? && sh.sessionId == c.hello.sessionId }

  /** What a ServerHello must satisfy in any handshake; the suite it names. */
  function CheckServerHello(hello: ClientHello, sh: ServerHello): Result<Suite> {
    var suite := MutualSuite(hello.cipherSuites, sh.cipherSuite);
    if suite.None? then Fail(Protocol(UnconfiguredSuite))
    else if sh.compressionMethod != 0 then Fail(Protocol(BadCompression))
    else if sh.secureRenegotiationSupported && sh.secureRenegotiation != [] then Fail(Protocol(RenegotiationInfo))
    else if !C.AlpnAcceptable(hello.alpnProtocols, sh.alpnProtocol) then Fail(Protocol(InvalidAlpn))
    else Ok(suite.value)
  }

  /** The client with the parameters of the ServerHello, and whether the session is resumed. */
  function ProcessServerHello(c: Client, sh: ServerHello): Result<(Client, bool)> {
    match CheckServerHello(c.hello, sh)
    case Fail(e) => Fail(e)
    case Ok(suite) =>
      var c1 := c.(suite := suite, alpn := sh.alpnProtocol);
      if !ServerResumed(c, sh) then Ok((c1, false))
      else if c.session.value.vers != c.vers then Fail(Protocol(ResumedVersion))
      else if c.session.value.cipherSuite != suite.id then Fail(Protocol(ResumedSuite))
      else Ok((Restored(c1, c.session.value), true))
  }

  function Restored(c: Client, session: Session): Client {
    c.(masterSecret := session.masterSecret, peerChain := session.chain)
  }

  function BeginHash(c: Client, discard: bool): HandshakeHash {
    var fresh' := NewHandshakeHash(c.vers, c.suite);
    (if discard then fresh'.Discard() else fresh').Write(ClientHelloMsg(c.hello)).Write(ServerHelloMsg(c.serverHello))
  }

  function BeginFull(c: Client): Client {
    c.(hash := BeginHash(c, c.cfg.certificates == [] && c.cfg.getClientCertificate.None?), stage := WaitCertificate)
  }

  function BeginResumed(c: Client): Client {
    AwaitFinal(EstablishKeys(c.(hash := BeginHash(c, true), resumed := true)))
  }

  /** What is read next once the server has only its ticket, if any, and its Finished to send. */
  function AwaitFinal(c: Client): Client {
    c.(stage := if c.serverHello.ticketSupported then WaitTicket else WaitChangeCipherSpec)
  }

  function Keys(c: Client): KeyBlock {
    KeysFromMaster(c.vers, c.suite, c.masterSecret, c.hello.random, c.serverHello.random)
  }

  function EstablishKeys(c: Client): Client {
    c.(nextIn := ServerSpec(c.vers, c.suite, Keys(c)), nextOut := ClientSpec(c.vers, c.suite, Keys(c)))
  }

  // ---------- the server's flight in a full handshake ----------

  function OnCertificate(c: Client, m: Message): Step {
    if !m.CertificateMsg? then Fail(Protocol(UnexpectedMessage))
    else if m.chain == [] then Fail(Configuration(EmptyCertificate))
    else Ok((c.(hash := c.hash.Write(m), peerChain := m.chain, stage := WaitStatus), []))
  }

  function OnStatus(c: Client, m: Message): Step {
    if !m.CertificateStatus? then OnKeyExchange(c, m)
    else if !c.serverHello.ocspStapling then Fail(Protocol(UnexpectedStatus))
    else Ok((c.(hash := c.hash.Write(m), stage := WaitKeyExchange), []))
  }

  /** The server's certificate is checked here, when the message after it has been read. */
  function OnKeyExchange(c: Client, m: Message): Step {
    if !c.cfg.serverChainOk || c.peerChain == [] || c.peerChain[0].key.kind.OtherKind? then
      Fail(Configuration(BadCertificate))
    else if !c.cfg.connectionOk then Fail(Configuration(ConnectionRefused))
    else if !m.ServerKeyExchange? then OnRequest(c, m)
    else match ProcessServerKeyExchange(c, c.peerChain[0].key, m)
      case Fail(e) => Fail(e)
      case Ok(agreement) => Ok((c.(hash := c.hash.Write(m), agreed := Some(agreement), stage := WaitRequest), []))
  }

  function ProcessServerKeyExchange(c: Client, key: PublicKey, m: Message): Result<Agreement>
    requires m.ServerKeyExchange?
  {
    if !c.suite.ecdhe then Fail(Protocol(UnexpectedKeyExchange))
    else if !C.SupportedCurve(m.curve) then Fail(Protocol(MalformedKeyExchange))
    else
      var own := Symbolic.Ecdhe(m.curve, c.cfg.exponent);
      var premaster := SharedSecret(own, m.point);
      if premaster == Nil then Fail(Protocol(MalformedKeyExchange))
      else if c.vers >= TLS12 && (m.scheme.None? || m.scheme.value !in c.hello.signatureAlgorithms) then
        Fail(Protocol(InvalidSignatureAlgorithm))
      else
        var how := CheckSigning(c.vers, key, m.scheme);
        if how.None? then Fail(Protocol(InvalidSignatureAlgorithm))
        else if (how.value.sigType in {Pkcs1, Pss}) == c.suite.ecSign then Fail(Protocol(KeyMismatch))
        else if !Verifies(key, how.value, ServerParams(how.value.hash, c.hello, c.serverHello, m.curve, m.point), m.signature) then
          Fail(Protocol(InvalidSignature))
        else Ok(Agreement(premaster, ClientKeyExchange(Dh(own.Public()))))
  }

  /** hashForServerKeyExchange over the randoms and the server's parameters. */
  function ServerParams(hash: HashKind, ch: ClientHello, sh: ServerHello, curve: nat, point: Term): Term {
    Hashed(hash, KeyExchangeParams(ch.random, sh.random, curve, point))
  }

  function OnRequest(c: Client, m: Message): Step {
    if !m.CertificateRequest? then OnDone(c, m)
    else match GetClientCertificate(c.cfg)
      case Fail(e) => Fail(e)
      case Ok(reply) =>
        Ok((c.(hash := c.hash.Write(m), requested := Some(if m.schemes.Some? then m.schemes.value else []),
               reply := reply, stage := WaitDone), []))
  }

  function GetClientCertificate(cfg: ClientConfig): (r: Result<Identity>)
    ensures r.Ok? && r.value.chain != [] ==> cfg.certificates != [] || cfg.getClientCertificate.Some?
  {
    if cfg.getClientCertificate.Some? then
      match cfg.getClientCertificate.value
      case None => Fail(Configuration(NoCertificate))
      case Some(id) => Ok(id)
    else if cfg.chosen.Some? && cfg.chosen.value < |cfg.certificates| then Ok(cfg.certificates[cfg.chosen.value])
    else Ok(NO_IDENTITY)
  }

  // ---------- the client's flight ----------

  function OnDone(c: Client, m: Message): Step {
    if !m.ServerHelloDone? then Fail(Protocol(UnexpectedMessage))
    else SendCertificate(c.(hash := c.hash.Write(m)))
  }

  /** An answer to a request is due even when there is no certificate to send. */
  function SendCertificate(c: Client): Step {
    if c.requested.None? then SendKeyExchange(c, [])
    else
      var m := CertificateMsg(c.reply.chain);
      SendKeyExchange(c.(hash := c.hash.Write(m)), [m])
  }

  function GenerateClientKeyExchange(c: Client): Result<Agreement> {
    if c.suite.ecdhe then (match c.agreed case None => Fail(Protocol(MissingKeyExchange)) case Some(a) => Ok(a))
    else if c.peerChain == [] || !c.peerChain[0].key.kind.Rsa? then Fail(Protocol(WrongKeyType))
    else
      var premaster := Premaster(c.hello.vers, c.cfg.premaster);
      Ok(Agreement(premaster, ClientKeyExchange(RsaEncrypted(c.peerChain[0].key, premaster))))
  }

  function SendKeyExchange(c: Client, sent: seq<Message>): Step {
    match GenerateClientKeyExchange(c)
    case Fail(e) => Fail(e)
    case Ok(a) => SendVerify(c.(hash := c.hash.Write(a.message)), a.premaster, sent + [a.message])
  }

  function SendVerify(c: Client, premaster: Term, sent: seq<Message>): Step {
    if c.requested.None? || c.reply.chain == [] then SendFinal(c, premaster, sent)
    else match MakeCertificateVerify(c, c.requested.value)
      case Fail(e) => Fail(e)
      case Ok(m) => SendFinal(c.(hash := c.hash.Write(m)), premaster, sent + [m])
  }

  /** The proof that the client holds its certificate's key. */
  function MakeCertificateVerify(c: Client, peerAlgorithms: seq<nat>): Result<Message> {
    match ChooseSigning(c.vers, c.reply, peerAlgorithms)
    case None => Fail(Configuration(NoSignatureScheme))
    case Some(how) =>
      match c.hash.ForClientCertificate(how.sigType, how.hash)
      case None => Fail(Panic)
      case Some(signed) => Ok(CertificateVerify(how.scheme, Sign(c.reply.key, how, signed)))
  }

  function SendFinal(c: Client, premaster: Term, sent: seq<Message>): Step {
    var master := MasterFrom(c.vers, c.suite, premaster, c.hello.random, c.serverHello.random);
    CloseFlight(c.(masterSecret := master, hash := c.hash.Discard()), sent)
  }

  /** What follows doFullHandshake: the keys, change_cipher_spec and Finished. */
  function CloseFlight(c: Client, sent: seq<Message>): Step {
    var (c1, finished) := SendFinished(EstablishKeys(c));
    Ok((AwaitFinal(c1), Plain(sent) + finished))
  }

  function SendFinished(c: Client): (Client, seq<Wire>) {
    var m := Finished(c.hash.ClientSum(c.masterSecret));
    (c.(hash := c.hash.Write(m), outSpec := c.nextOut, nextOut := Plaintext),
     [Wire(c.outSpec, ChangeCipherSpec), Wire(c.nextOut, Handshake(m))])
  }

  // ---------- the server's ticket and Finished ----------

  function OnTicket(c: Client, m: Message): Step {
    if !m.NewSessionTicket? then Fail(Protocol(UnexpectedMessage))
    else Ok((c.(hash := c.hash.Write(m), stage := WaitChangeCipherSpec,
                issued := Some(Session(m.ticket, c.vers, c.suite.id, c.masterSecret, c.peerChain))), []))
  }

  function OnChangeCipherSpec(c: Client): Step {
    if c.nextIn == Plaintext then Fail(Protocol(NoPendingCipher))
    else Ok((c.(inSpec := c.nextIn, nextIn := Plaintext, stage := WaitFinished), []))
  }

  function OnFinished(c: Client, m: Message): Step {
    if !m.Finished? then Fail(Protocol(UnexpectedMessage))
    else if m.verifyData != c.hash.ServerSum(c.masterSecret) then Fail(Protocol(InvalidFinished))
    else
      var c1 := c.(hash := c.hash.Write(m));
      if !c.resumed then Ok((Establish(c1), []))
      else if !c.cfg.connectionOk then Fail(Configuration(ConnectionRefused))
      else
        var (c2, finished) := SendFinished(c1);
        Ok((Establish(c2), finished))
  }

  /** A session the handshake brought replaces the cached one. */
  function Establish(c: Client): Client {
    c.(stage := Established, stored := if c.cfg.ticketsEnabled then c.issued else None)
  }

  /** The keying material the connection exports: RFC 5705. */
  function Exporter(c: Client, lbl: string): Term {
    Prf(PrfFor(c.vers, c.suite), c.masterSecret, lbl, [c.hello.random, c.serverHello.random])
  }

  function OnMessage(c: Client, m: Message): Step {
    match c.stage
    case WaitServerHello =>
      if m.ServerHelloMsg? then OnServerHello(c, m.serverHello) else Fail(Protocol(UnexpectedMessage))
    case WaitCertificate => OnCertificate(c, m)
    case WaitStatus => OnStatus(c, m)
    case WaitKeyExchange => OnKeyExchange(c, m)
    case WaitRequest => OnRequest(c, m)
    case WaitDone => OnDone(c, m)
    case WaitTicket => OnTicket(c, m)
    case WaitChangeCipherSpec => Fail(Protocol(UnexpectedMessage))
    case WaitFinished => OnFinished(c, m)
    case Established => Fail(Protocol(UnexpectedMessage))
  }

  /** One blocking read and everything the client does before the next one. */
  function Receive(c: Client, w: Wire): Step {
    if w.spec != c.inSpec then Fail(Protocol(Garbled))
    else match w.payload
      case ChangeCipherSpec =>
        if c.stage == WaitChangeCipherSpec then OnChangeCipherSpec(c) else Fail(Protocol(UnexpectedMessage))
      case Handshake(m) => OnMessage(c, m)
  }
}
