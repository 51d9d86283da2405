/** The client's side of the TLS 1.3 handshake, as functions from state and message to state. */
module Tls13Client {
  import opened Outcomes
  import opened Symbolic
  import opened Tls13Config

  /** A cached session. */
  datatype Session = Session(
    ticket: Term, vers: nat, cipherSuite: nat, masterSecret: Term, receivedAt: int,
    nonce: seq<nat>, useBy: int, ageAdd: nat)

  datatype ClientConfig = ClientConfig(
    serverName: string, supportedVersions: seq<nat>, cipherSuites: seq<nat>, curves: seq<nat>,
    alpnProtocols: seq<string>,
    ticketsEnabled: bool,               // tickets are not disabled and there is a session cache
    cached: Option<Session>,            // what the cache holds for this server
    cachedCertificateOk: bool,          // outcome of the checks on the cached server certificate
    serverChainOk: bool,                // outcome of verifying the server's certificate chain
    certificate: Option<Identity>,      // what getClientCertificate returns, None for an error
    random: Term, sessionId: nat, exponent: nat, retryExponent: nat,
    loadTime: int, retryTime: int, ticketTime: int)

  datatype ClientStage =
    | WaitServerHello | WaitSecondServerHello | WaitEncryptedExtensions | WaitCertificateOrRequest
    | WaitCertificate | WaitCertificateVerify | WaitServerFinished | Established

  datatype Client = Client(
    cfg: ClientConfig, stage: ClientStage, hello: ClientHello, serverHello: Option<ServerHello>,
    ecdhe: Ecdhe, session: Option<Session>, earlySecret: Term, binderKey: Term,
    suite: Option<Suite>, transcript: Transcript, usingPsk: bool,
    certReq: Option<Message>, peerChain: seq<Certificate>, alpn: string,
    masterSecret: Term, trafficSecret: Term, exporter: Term,
    inSecret: Term, outSecret: Term, resumptionSecret: Term, stored: Option<Session>)

  /** A record on the wire: the traffic secret it is protected under (Nil for none) and its content. */
  datatype Wire = Wire(secret: Term, message: Message)

  // ---------- makeClientHello and loadSession ----------

  function MakeClientHello(cfg: ClientConfig): Result<(ClientHello, Ecdhe)> {
    if cfg.supportedVersions == [] then Fail(Configuration(NoVersion))
    else if cfg.supportedVersions[0] != VERSION_TLS13 then Fail(Configuration(NotTls13))
    else if cfg.curves == [] then Fail(Configuration(NoCurves))
    else if !SupportedCurve(cfg.curves[0]) then Fail(Configuration(UnsupportedCurve))
    else
      var ecdhe := Ecdhe(cfg.curves[0], cfg.exponent);
      Ok((ClientHello(
        VERSION_TLS12, cfg.random, cfg.sessionId, cfg.cipherSuites, [0],
        cfg.serverName, true, cfg.curves, [0],
        false, Nil, SUPPORTED_SIGNATURE_ALGORITHMS, [],
        true, [], cfg.alpnProtocols, true, cfg.supportedVersions, [],
        [KeyShare(ecdhe.group, ecdhe.Public())], false, [], [], []), ecdhe))
  }

  function ObfuscatedAge(session: Session, now: int): nat {
    ((now - session.receivedAt) * 1000 + session.ageAdd) % 0x1_0000_0000
  }

  predicate OffersHash(offered: seq<nat>, h: Hash) {
    exists id :: id in offered && CipherSuiteTls13ById(id).Some? && CipherSuiteTls13ById(id).value.hash == h
  }

  datatype Offer = Offer(hello: ClientHello, session: Option<Session>, earlySecret: Term, binderKey: Term)

  function LoadSession(cfg: ClientConfig, made: ClientHello): Offer {
    if !cfg.ticketsEnabled then Offer(made, None, Nil, Nil)
    else
      var hello := made.(ticketSupported := true, pskModes := [PSK_MODE_DHE]);
      if cfg.cached.None? then Offer(hello, None, Nil, Nil)
      else
        var session := cfg.cached.value;
        if session.vers !in hello.supportedVersions || !cfg.cachedCertificateOk then Offer(hello, None, Nil, Nil)
        else if session.vers != VERSION_TLS13 then
          if session.cipherSuite !in hello.cipherSuites then Offer(hello, None, Nil, Nil)
          else Offer(hello.(sessionTicket := session.ticket), Some(session), Nil, Nil)
        else if cfg.loadTime > session.useBy then Offer(hello, None, Nil, Nil)
        else
          var suite := CipherSuiteTls13ById(session.cipherSuite);
          if suite.None? || !OffersHash(hello.cipherSuites, suite.value.hash) then Offer(hello, None, Nil, Nil)
          else
            var h := suite.value.hash;
            var offering := hello.(
              pskIdentities := [PskIdentity(session.ticket, ObfuscatedAge(session, cfg.loadTime))],
              pskBinders := [Zeros(h)]);
            var earlySecret := Extract(h, PskFrom(h, session.masterSecret, session.nonce), Nil);
            var binderKey := DeriveSecret(h, earlySecret, RESUMPTION_BINDER_LABEL, []);
            var binder := FinishedHash(h, binderKey, [WithoutBinders(offering)]);
            Offer(offering.(pskBinders := [binder]), Some(session), earlySecret, binderKey)
  }

  function Start(cfg: ClientConfig): Result<(Client, seq<Wire>)> {
    var (made, ecdhe) :- MakeClientHello(cfg);
    var offer := LoadSession(cfg, made);
    Ok((Client(cfg, WaitServerHello, offer.hello, None, ecdhe, offer.session,
               offer.earlySecret, offer.binderKey, None, [], false, None, [], "",
               Nil, Nil, Nil, Nil, Nil, Nil, None),
        [Wire(Nil, ClientHelloMsg(offer.hello))]))
  }

  // ---------- ServerHello and HelloRetryRequest ----------

  /** checkServerHelloOrHRR: checks common to both, and the choice of the suite. */
  function CheckServerHelloOrHrr(c: Client, sh: ServerHello): Result<Client> {
    if sh.supportedVersion == 0 then Fail(Protocol(MissingSupportedVersion))
    else if sh.supportedVersion != VERSION_TLS13 then Fail(Protocol(WrongSupportedVersion))
    else if sh.vers != VERSION_TLS12 then Fail(Protocol(WrongLegacyVersion))
    else if sh.ocspStapling || sh.ticketSupported || sh.secureRenegotiationSupported
            || sh.secureRenegotiation != [] || sh.alpnProtocol != "" || sh.scts != [] then
      Fail(Protocol(ForbiddenExtension))
    else if sh.sessionId != c.hello.sessionId then Fail(Protocol(SessionIdNotEchoed))
    else if sh.compressionMethod != 0 then Fail(Protocol(BadCompression))
    else
      var selected := MutualCipherSuiteTls13(c.hello.cipherSuites, sh.cipherSuite);
      if c.suite.Some? && selected != c.suite then Fail(Protocol(SuiteChanged))
      else if selected.None? then Fail(Protocol(UnconfiguredSuite))
      else Ok(c.(suite := selected, serverHello := Some(sh)))
  }

  /** Section 4.4.1 of RFC 8446: the first hello enters the transcript as its hash. */
  function RetryTranscript(h: Hash, first: ClientHello, retry: ServerHello): Transcript {
    [MessageHash(Digest(h, [Whole(ClientHelloMsg(first))])), Whole(ServerHelloMsg(retry))]
  }

  /** The key share part of processHelloRetryRequest. */
  function RetryKeyShare(c: Client, retry: ServerHello): Result<Client> {
    if retry.selectedGroup == 0 then Ok(c)
    else if retry.selectedGroup !in c.hello.supportedCurves then Fail(Protocol(UnsupportedGroup))
    else if c.ecdhe.group == retry.selectedGroup then Fail(Protocol(UnnecessaryKeyShare))
    else if !SupportedCurve(retry.selectedGroup) then Fail(Configuration(UnsupportedCurve))
    else
      var ecdhe := Ecdhe(retry.selectedGroup, c.cfg.retryExponent);
      Ok(c.(ecdhe := ecdhe, hello := c.hello.(keyShares := [KeyShare(ecdhe.group, ecdhe.Public())])))
  }

  datatype Psk = Psk(identities: seq<PskIdentity>, binders: seq<Term>)

  /** The PSK part: binders over the retried transcript, or no PSK when the hash does not fit. */
  function RetryPsk(c: Client, suite: Suite, retried: Transcript): Result<Psk> {
    if c.hello.pskIdentities == [] then Ok(Psk([], c.hello.pskBinders))
    else
      var pskSuite := if c.session.None? then None else CipherSuiteTls13ById(c.session.value.cipherSuite);
      if pskSuite.None? then Fail(Protocol(InternalError))
      else if pskSuite.value.hash != suite.hash then Ok(Psk([], []))
      else
        var identity := c.hello.pskIdentities[0].(obfuscatedAge := ObfuscatedAge(c.session.value, c.cfg.retryTime));
        var identities := c.hello.pskIdentities[0 := identity];
        var offering := c.hello.(pskIdentities := identities);
        Ok(Psk(identities, [FinishedHash(suite.hash, c.binderKey, retried + [WithoutBinders(offering)])]))
  }

  function RetryBinders(c: Client, suite: Suite, retried: Transcript): Result<Client> {
    match RetryPsk(c, suite, retried)
    case Fail(e) => Fail(e)
    case Ok(psk) => Ok(c.(hello := c.hello.(pskIdentities := psk.identities, pskBinders := psk.binders)))
  }

  function ProcessHelloRetryRequest(c: Client, suite: Suite, retry: ServerHello): Result<(Client, seq<Wire>)> {
    var retried := RetryTranscript(suite.hash, c.hello, retry);
    if retry.selectedGroup == 0 && retry.cookie == [] then Fail(Protocol(UnnecessaryRetry))
    else if retry.serverShare.group != 0 then Fail(Protocol(MalformedKeyShare))
    else
      match RetryKeyShare(if retry.cookie == [] then c else c.(hello := c.hello.(cookie := retry.cookie)), retry)
      case Fail(e) => Fail(e)
      case Ok(c1) => SendSecondHello(c1, suite, retried)
  }

  function SendSecondHello(c: Client, suite: Suite, retried: Transcript): Result<(Client, seq<Wire>)> {
    match RetryBinders(c, suite, retried)
    case Fail(e) => Fail(e)
    case Ok(c2) =>
      Ok((c2.(transcript := retried + [Whole(ClientHelloMsg(c2.hello))], stage := WaitSecondServerHello),
          [Wire(c2.outSecret, ClientHelloMsg(c2.hello))]))
  }

  function ProcessServerHello(c: Client, suite: Suite, sh: ServerHello): Result<Client> {
    if sh.random == RetryRandom then Fail(Protocol(SecondRetry))
    else if sh.cookie != [] then Fail(Protocol(CookieInServerHello))
    else if sh.selectedGroup != 0 then Fail(Protocol(MalformedKeyShare))
    else if sh.serverShare.group == 0 then Fail(Protocol(NoServerShare))
    else if sh.serverShare.group != c.ecdhe.group then Fail(Protocol(GroupMismatch))
    else if !sh.selectedIdentityPresent then Ok(c)
    else if sh.selectedIdentity >= |c.hello.pskIdentities| then Fail(Protocol(InvalidPsk))
    else if |c.hello.pskIdentities| != 1 || c.session.None? then Fail(Protocol(InternalError))
    else
      var pskSuite := CipherSuiteTls13ById(c.session.value.cipherSuite);
      if pskSuite.None? then Fail(Protocol(InternalError))
      else if pskSuite.value.hash != suite.hash then Fail(Protocol(PskSuiteMismatch))
      else Ok(c.(usingPsk := true))
  }

  function EstablishHandshakeKeys(c: Client, suite: Suite, sh: ServerHello): Result<(Client, seq<Wire>)> {
    var h := suite.hash;
    var sharedKey := c.ecdhe.Shared(sh.serverShare.data);
    if sharedKey == Nil then Fail(Protocol(InvalidPeerShare))
    else
      var earlySecret := if c.usingPsk then c.earlySecret else Extract(h, Nil, Nil);
      var handshakeSecret := HandshakeSecret(h, sharedKey, earlySecret);
      Ok((c.(outSecret := DeriveSecret(h, handshakeSecret, CLIENT_HANDSHAKE_LABEL, c.transcript),
             inSecret := DeriveSecret(h, handshakeSecret, SERVER_HANDSHAKE_LABEL, c.transcript),
             masterSecret := MasterSecret(h, handshakeSecret), stage := WaitEncryptedExtensions), []))
  }

  /** From a ServerHello whose predecessors are in the transcript to the handshake keys. */
  function AcceptServerHello(c: Client, suite: Suite, sh: ServerHello): Result<(Client, seq<Wire>)> {
    match ProcessServerHello(c.(transcript := c.transcript + [Whole(ServerHelloMsg(sh))]), suite, sh)
    case Fail(e) => Fail(e)
    case Ok(c1) => EstablishHandshakeKeys(c1, suite, sh)
  }

  function OnFirstServerHello(c: Client, sh: ServerHello): Result<(Client, seq<Wire>)> {
    if (if sh.supportedVersion != 0 then sh.supportedVersion else sh.vers) != VERSION_TLS13 then
      Fail(Configuration(NotTls13))
    else
      match CheckServerHelloOrHrr(c, sh)
      case Fail(e) => Fail(e)
      case Ok(c0) => OnCheckedServerHello(c0, c0.suite.value, sh)
  }

  function OnCheckedServerHello(c: Client, suite: Suite, sh: ServerHello): Result<(Client, seq<Wire>)> {
    if sh.random == RetryRandom then ProcessHelloRetryRequest(c, suite, sh)
    else AcceptServerHello(c.(transcript := [Whole(ClientHelloMsg(c.hello))]), suite, sh)
  }

  function OnSecondServerHello(c: Client, sh: ServerHello): Result<(Client, seq<Wire>)> {
    match CheckServerHelloOrHrr(c, sh)
    case Fail(e) => Fail(e)
    case Ok(c0) => AcceptServerHello(c0, c0.suite.value, sh)
  }

  // ---------- the server's flight ----------

  function OnEncryptedExtensions(c: Client, m: Message): Result<(Client, seq<Wire>)>
    requires m.EncryptedExtensions?
  {
    if !AlpnAcceptable(c.hello.alpnProtocols, m.alpn) then Fail(Protocol(InvalidAlpn))
    else Ok((c.(transcript := c.transcript + [Whole(m)], alpn := m.alpn,
                stage := if c.usingPsk then WaitServerFinished else WaitCertificateOrRequest), []))
  }

  function OnCertificate(c: Client, m: Message): Result<(Client, seq<Wire>)>
    requires m.CertificateMsg?
  {
    if m.chain == [] then Fail(Configuration(EmptyCertificate))
    else if !c.cfg.serverChainOk then Fail(Configuration(BadCertificate))
    else Ok((c.(transcript := c.transcript + [Whole(m)], peerChain := m.chain, stage := WaitCertificateVerify), []))
  }

  function OnCertificateVerify(c: Client, suite: Suite, m: Message): Result<(Client, seq<Wire>)>
    requires m.CertificateVerify?
  {
    if c.peerChain == [] then Fail(Protocol(InternalError))
    else match VerifySignature(c.peerChain[0], m.scheme, m.signature, SERVER_SIGNATURE_CONTEXT, suite.hash, c.transcript)
      case Some(e) => Fail(e)
      case None => Ok((c.(transcript := c.transcript + [Whole(m)], stage := WaitServerFinished), []))
  }

  function ReadServerFinished(c: Client, suite: Suite, m: Message): Result<Client>
    requires m.Finished?
  {
    var h := suite.hash;
    if m.verifyData != FinishedHash(h, c.inSecret, c.transcript) then Fail(Protocol(InvalidFinished))
    else
      var t := c.transcript + [Whole(m)];
      Ok(c.(transcript := t,
            trafficSecret := DeriveSecret(h, c.masterSecret, CLIENT_APPLICATION_LABEL, t),
            inSecret := DeriveSecret(h, c.masterSecret, SERVER_APPLICATION_LABEL, t),
            exporter := DeriveSecret(h, c.masterSecret, EXPORTER_LABEL, t)))
  }

  function SendClientCertificate(c: Client, suite: Suite): Result<(Client, seq<Wire>)> {
    if c.certReq.None? then Ok((c, []))
    else if c.cfg.certificate.None? then Fail(Configuration(NoCertificates))
    else
      var id := c.cfg.certificate.value;
      var certMsg := CertificateMsg(id.chain);
      var t := c.transcript + [Whole(certMsg)];
      if id.chain == [] then
        Ok((c.(transcript := t), [Wire(c.outSecret, certMsg)]))
      else
        var scheme :- SelectSignatureScheme(id, if c.certReq.value.CertificateRequest? then c.certReq.value.schemes else []);
        var verify := CertificateVerify(scheme, Sign(id, scheme, CLIENT_SIGNATURE_CONTEXT, suite.hash, t));
        Ok((c.(transcript := t + [Whole(verify)]), [Wire(c.outSecret, certMsg), Wire(c.outSecret, verify)]))
  }

  function SendClientFinished(c: Client, suite: Suite): (Client, seq<Wire>) {
    var h := suite.hash;
    var finished := Finished(FinishedHash(h, c.outSecret, c.transcript));
    var t := c.transcript + [Whole(finished)];
    (c.(transcript := t, outSecret := c.trafficSecret, stage := Established,
        resumptionSecret := if c.cfg.ticketsEnabled then DeriveSecret(h, c.masterSecret, RESUMPTION_LABEL, t) else Nil),
     [Wire(c.outSecret, finished)])
  }

  function OnServerFinished(c: Client, suite: Suite, m: Message): Result<(Client, seq<Wire>)>
    requires m.Finished?
  {
    match ReadServerFinished(c, suite, m)
    case Fail(e) => Fail(e)
    case Ok(c0) => SendSecondFlight(c0, suite)
  }

  function SendSecondFlight(c: Client, suite: Suite): Result<(Client, seq<Wire>)> {
    match SendClientCertificate(c, suite)
    case Fail(e) => Fail(e)
    case Ok((c1, certificates)) =>
      var (c2, finished) := SendClientFinished(c1, suite);
      Ok((c2, certificates + finished))
  }

  function HandleNewSessionTicket(c: Client, m: Message): Result<(Client, seq<Wire>)>
    requires m.NewSessionTicket?
  {
    if !c.cfg.ticketsEnabled then Ok((c, []))
    else if m.lifetime == 0 then Ok((c, []))
    else if m.lifetime > MAX_TICKET_LIFETIME then Fail(Protocol(InvalidTicketLifetime))
    else if c.suite.None? || c.resumptionSecret == Nil then Fail(Protocol(InternalError))
    else Ok((c.(stored := Some(Session(m.ticket, VERSION_TLS13, c.suite.value.id, c.resumptionSecret,
                                       c.cfg.ticketTime, m.nonce, c.cfg.ticketTime + m.lifetime, m.ageAdd))), []))
  }

  /** One blocking read and everything the client does before the next one. */
  function Receive(c: Client, w: Wire): Result<(Client, seq<Wire>)> {
    var m := w.message;
    if w.secret != c.inSecret then Fail(Protocol(BadRecordMac))
    else match c.stage
      case WaitServerHello =>
        if m.ServerHelloMsg? then OnFirstServerHello(c, m.serverHello) else Fail(Protocol(UnexpectedMessage))
      case WaitSecondServerHello =>
        if m.ServerHelloMsg? then OnSecondServerHello(c, m.serverHello) else Fail(Protocol(UnexpectedMessage))
      case WaitEncryptedExtensions =>
        if m.EncryptedExtensions? then OnEncryptedExtensions(c, m) else Fail(Protocol(UnexpectedMessage))
      case WaitCertificateOrRequest =>
        if m.CertificateRequest? then
          Ok((c.(transcript := c.transcript + [Whole(m)], certReq := Some(m), stage := WaitCertificate), []))
        else if m.CertificateMsg? then OnCertificate(c, m)
        else Fail(Protocol(UnexpectedMessage))
      case WaitCertificate =>
        if m.CertificateMsg? then OnCertificate(c, m) else Fail(Protocol(UnexpectedMessage))
      case WaitCertificateVerify =>
        if m.CertificateVerify? && c.suite.Some? then OnCertificateVerify(c, c.suite.value, m)
        else Fail(Protocol(UnexpectedMessage))
      case WaitServerFinished =>
        if m.Finished? && c.suite.Some? then OnServerFinished(c, c.suite.value, m)
        else Fail(Protocol(UnexpectedMessage))
      case Established =>
        if m.NewSessionTicket? then HandleNewSessionTicket(c, m) else Fail(Protocol(UnexpectedMessage))
  }
}
