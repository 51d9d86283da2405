/** The server's side of the TLS 1.0-1.2 handshake, as functions from state and record to state. */
module Tls12Server {
  import opened Outcomes
  import opened Tls12Terms
  import Symbolic
  import C = Tls13Config
  import Client = Tls12Client

  datatype ServerConfig = ServerConfig(
    minVersion: nat, maxVersion: nat,
    preferenceOrder: seq<nat>,          // every suite the library knows, in the order it prefers for this client
    cipherSuites: seq<nat>, curves: seq<nat>, alpnProtocols: seq<string>,
    ticketsDisabled: bool, ticketKeys: seq<nat>,      // names of the ticket keys, the encrypting one first
    clientAuth: nat, authorities: seq<nat>,
    clientChainOk: bool,                // outcome of checking a client chain
    connectionOk: bool,                 // outcome of the VerifyConnection hook
    identity: Option<Identity>,         // what getCertificate returns, None for an error
    ocspStaple: Option<nat>, scts: bool,
    random: nat, exponent: nat, now: int)

  datatype ServerStage =
    | WaitClientHello | WaitClientCertificate | WaitClientKeyExchange | WaitClientVerify
    | WaitChangeCipherSpec | WaitFinished | Completed

  datatype Server = Server(
    cfg: ServerConfig, stage: ServerStage, clientHello: ClientHello, hello: ServerHello, vers: nat, suite: Suite,
    identity: Identity, curve: nat, abilities: Abilities, sessionState: Option<SessionState>, resumed: bool,
    hash: HandshakeHash, peerChain: seq<Certificate>, masterSecret: Term, alpn: string,
    inSpec: CipherSpec, outSpec: CipherSpec, nextIn: CipherSpec, nextOut: CipherSpec)

  type Step = Result<(Server, seq<Wire>)>

  const EMPTY_CLIENT_HELLO :=
    ClientHello(0, Nil, Nil, [], [], "", false, [], [], false, Nil, [], false, [], [], false, [], false)
  const NO_ABILITIES := Abilities(0, false, false, false, false)

  function Init(cfg: ServerConfig): Server {
    Server(cfg, WaitClientHello, EMPTY_CLIENT_HELLO, Client.EMPTY_HELLO, 0, Client.NO_SUITE, NO_IDENTITY, 0, NO_ABILITIES,
           None, false, Client.NO_HASH, [], Nil, "", Plaintext, Plaintext, Plaintext, Plaintext)
  }

  function Versions(cfg: ServerConfig): seq<nat> { SupportedVersions(cfg.minVersion, cfg.maxVersion, false) }

  predicate RequestsClientCert(cfg: ServerConfig) { cfg.clientAuth >= C.REQUEST_CLIENT_CERT }

  // ---------- readClientHello and processClientHello ----------

  function OfferedVersions(ch: ClientHello): seq<nat> {
    if ch.supportedVersions == [] then VersionsUpTo([TLS13, TLS12, TLS11, TLS10], ch.vers) else ch.supportedVersions
  }

  /** The server's random, with the canary of the version it settles for when it could do better. */
  function ServerRandom(cfg: ServerConfig, vers: nat): Term {
    var max := MaxVersion(Versions(cfg));
    if max >= TLS12 && vers < max then RandomWithCanary(cfg.random, if vers == TLS12 then TLS12 else TLS11)
    else Random(cfg.random)
  }

  predicate SupportsEcdhe(cfg: ServerConfig, ch: ClientHello) {
    && (exists c :: c in ch.supportedCurves && c in cfg.curves)
    && (ch.supportedPoints == [] || 0 in ch.supportedPoints)
  }

  function AbilitiesOf(vers: nat, ecdheOk: bool, id: Identity): Abilities {
    Abilities(vers, ecdheOk, id.signer && (id.key.kind.Ecdsa? || id.key.kind.Ed25519?),
              id.signer && id.key.kind.Rsa?, id.decrypter && id.key.kind.Rsa?)
  }

  predicate UsableKey(id: Identity) {
    && (id.signer ==> !id.key.kind.OtherKind?)
    && (id.decrypter ==> id.key.kind.Rsa?)
  }

  function OnClientHello(s: Server, ch: ClientHello): Step {
    var vers := MutualVersion(Versions(s.cfg), OfferedVersions(ch));
    if vers.None? then Fail(Configuration(NoVersion))
    else if vers.value == TLS13 then Fail(Configuration(Tls13Negotiated))
    else Welcome(s.(clientHello := ch, vers := vers.value), ch)
  }

  function Welcome(s: Server, ch: ClientHello): Step {
    match ProcessClientHello(s, ch)
    case Fail(e) => Fail(e)
    case Ok(s1) => Answer(s1, ch)
  }

  function ProcessClientHello(s: Server, ch: ClientHello): Result<Server> {
    var proto := C.AlpnChoice(s.cfg.alpnProtocols, ch.alpnProtocols);
    if 0 !in ch.compressionMethods then Fail(Protocol(BadCompression))
    else if ch.secureRenegotiation != [] then Fail(Protocol(RenegotiationInfo))
    else if proto.None? then Fail(Configuration(NoApplicationProtocol))
    else if s.cfg.identity.None? then Fail(Configuration(NoCertificate))
    else if !UsableKey(s.cfg.identity.value) then Fail(Configuration(UnsupportedKey))
    else
      var ecdheOk := SupportsEcdhe(s.cfg, ch);
      Ok(s.(identity := s.cfg.identity.value, alpn := proto.value,
            abilities := AbilitiesOf(s.vers, ecdheOk, s.cfg.identity.value),
            hello := Client.EMPTY_HELLO.(
              vers := s.vers, random := ServerRandom(s.cfg, s.vers),
              secureRenegotiationSupported := ch.secureRenegotiationSupported, alpnProtocol := proto.value,
              scts := ch.scts && s.cfg.scts,
              supportedPoints := if ecdheOk && ch.supportedPoints != [] then [0] else [])))
  }

  // ---------- checkForResumption ----------

  /** A decrypted ticket, and whether it was sealed under a key that is not the current one. */
  datatype OpenedTicket = OpenedTicket(state: SessionState, usedOldKey: bool)

  function DecryptTicket(keys: seq<nat>, ticket: Term): (r: Option<OpenedTicket>)
    ensures r.Some? <==> ticket.Ticket? && ticket.keyName in keys
    ensures r.Some? ==> r.value.state == ticket.state
  {
    if ticket.Ticket? && ticket.keyName in keys then Some(OpenedTicket(ticket.state, ticket.keyName != keys[0])) else None
  }

  /** The suite in which the session may be resumed here and now, if it may. */
  function ResumptionSuite(s: Server, ch: ClientHello, state: SessionState): (r: Option<Suite>)
    ensures r.Some? ==>
      r.value.id == state.cipherSuite && SuiteById(r.value.id) == r && state.vers == s.vers && r.value.id in ch.cipherSuites
  {
    if s.cfg.now - state.createdAt > C.MAX_TICKET_LIFETIME || s.vers != state.vers || state.cipherSuite !in ch.cipherSuites then
      None
    else
      var suite := SelectCipherSuite([state.cipherSuite], s.cfg.cipherSuites, s.abilities);
      if C.RequiresClientCert(s.cfg.clientAuth) && state.chain == [] then None
      else if state.chain != [] && s.cfg.clientAuth == C.NO_CLIENT_CERT then None
      else suite
  }

  /** Resume if the ticket allows it; a ticket that opened is remembered even when it does not. */
  function Answer(s: Server, ch: ClientHello): Step {
    var ticket := if s.cfg.ticketsDisabled then None else DecryptTicket(s.cfg.ticketKeys, ch.sessionTicket);
    if ticket.None? then PickCipherSuite(s, ch)
    else
      var s1 := s.(sessionState := Some(ticket.value.state));
      var suite := ResumptionSuite(s1, ch, ticket.value.state);
      if suite.None? then PickCipherSuite(s1, ch)
      else DoResume(s1.(suite := suite.value, resumed := true), ch, ticket.value)
  }

  function ProcessCertsFromClient(s: Server, chain: seq<Certificate>): Result<Server> {
    if chain == [] && C.RequiresClientCert(s.cfg.clientAuth) then Fail(Configuration(BadCertificate))
    else if chain != [] && (!s.cfg.clientChainOk || chain[0].key.kind.OtherKind?) then Fail(Configuration(BadCertificate))
    else Ok(s.(peerChain := chain))
  }

  function BeginHash(s: Server, discard: bool): HandshakeHash {
    var begun := NewHandshakeHash(s.vers, s.suite);
    (if discard then begun.Discard() else begun).Write(ClientHelloMsg(s.clientHello)).Write(ServerHelloMsg(s.hello))
  }

  function Keys(s: Server): KeyBlock {
    KeysFromMaster(s.vers, s.suite, s.masterSecret, s.clientHello.random, s.hello.random)
  }

  function EstablishKeys(s: Server): Server {
    s.(nextIn := ClientSpec(s.vers, s.suite, Keys(s)), nextOut := ServerSpec(s.vers, s.suite, Keys(s)))
  }

  /** The abbreviated handshake: everything the server says before it hears from the client again. */
  function DoResume(s: Server, ch: ClientHello, ticket: OpenedTicket): Step {
    var s1 := s.(hello := s.hello.(cipherSuite := s.suite.id, sessionId := ch.sessionId, ticketSupported := ticket.usedOldKey));
    match ProcessCertsFromClient(s1.(hash := BeginHash(s1, true)), ticket.state.chain)
    case Fail(e) => Fail(e)
    case Ok(s2) =>
      if !s.cfg.connectionOk then Fail(Configuration(ConnectionRefused))
      else FinishResume(EstablishKeys(s2.(masterSecret := ticket.state.masterSecret)))
  }

  function FinishResume(s: Server): Step {
    match SendFinal(s)
    case Fail(e) => Fail(e)
    case Ok((s1, sent)) => Ok((s1.(stage := WaitChangeCipherSpec), Plain([ServerHelloMsg(s.hello)]) + sent))
  }

  // ---------- sendSessionTicket and sendFinished ----------

  /** A ticket that opened hands its creation time on, even when it was refused: what that costs is IssuedTicketAge of Tls12Proofs. */
  function TicketState(s: Server): SessionState {
    SessionState(s.vers, s.suite.id, if s.sessionState.Some? then s.sessionState.value.createdAt else s.cfg.now,
                 s.masterSecret, s.peerChain)
  }

  function SendSessionTicket(s: Server): Result<(Server, seq<Message>)> {
    if !s.hello.ticketSupported then Ok((s, []))
    else if s.cfg.ticketKeys == [] then Fail(Configuration(NoTicketKeys))
    else
      var m := NewSessionTicket(Ticket(s.cfg.ticketKeys[0], TicketState(s)));
      Ok((s.(hash := s.hash.Write(m)), [m]))
  }

  function SendFinished(s: Server): (Server, seq<Wire>) {
    var m := Finished(s.hash.ServerSum(s.masterSecret));
    (s.(hash := s.hash.Write(m), outSpec := s.nextOut, nextOut := Plaintext),
     [Wire(s.outSpec, ChangeCipherSpec), Wire(s.nextOut, Handshake(m))])
  }

  /** The ticket, if any, then change_cipher_spec and Finished. */
  function SendFinal(s: Server): Step {
    match SendSessionTicket(s)
    case Fail(e) => Fail(e)
    case Ok((s1, ticket)) =>
      var (s2, finished) := SendFinished(s1);
      Ok((s2, Plain(ticket) + finished))
  }

  // ---------- the full handshake ----------

  function PreferenceList(order: seq<nat>, configured: seq<nat>): seq<nat> { C.Filter(order, configured) }

  function PickCipherSuite(s: Server, ch: ClientHello): Step {
    var suite := SelectCipherSuite(PreferenceList(s.cfg.preferenceOrder, s.cfg.cipherSuites), ch.cipherSuites, s.abilities);
    if suite.None? then Fail(Configuration(NoMutualSuite))
    else if C.FALLBACK_SCSV in ch.cipherSuites && ch.vers < MaxVersion(Versions(s.cfg)) then
      Fail(Protocol(InappropriateFallback))
    else SendFlight(BeginFull(s.(suite := suite.value), ch))
  }

  function BeginFull(s: Server, ch: ClientHello): Server {
    var s1 := s.(hello := s.hello.(
      ocspStapling := ch.ocspStapling && s.cfg.ocspStaple.Some?,
      ticketSupported := ch.ticketSupported && !s.cfg.ticketsDisabled, cipherSuite := s.suite.id));
    s1.(hash := BeginHash(s1, s.cfg.clientAuth == C.NO_CLIENT_CERT))
  }

  /** The ServerKeyExchange of an ECDHE suite; None for a suite that needs none. */
  function GenerateServerKeyExchange(s: Server): Result<Option<Message>> {
    if !s.suite.ecdhe then Ok(None)
    else
      var curve := C.FirstIn(s.clientHello.supportedCurves, s.cfg.curves);
      if curve.None? || curve.value == 0 then Fail(Configuration(NoMutualCurve))
      else if !C.SupportedCurve(curve.value) then Fail(Configuration(UnsupportedCurve))
      else
        var how := ChooseSigning(s.vers, s.identity, s.clientHello.signatureAlgorithms);
        if how.None? then Fail(Configuration(NoSignatureScheme))
        else if (how.value.sigType in {Pkcs1, Pss}) == s.suite.ecSign then Fail(Protocol(KeyMismatch))
        else
          var point := Dh(Symbolic.Ecdhe(curve.value, s.cfg.exponent).Public());
          Ok(Some(ServerKeyExchange(curve.value, point, how.value.scheme,
            Sign(s.identity.key, how.value,
                 Client.ServerParams(how.value.hash, s.clientHello, s.hello, curve.value, point)))))
  }

  function Request(s: Server): Message {
    CertificateRequest(if s.vers >= TLS12 then Some(C.SUPPORTED_SIGNATURE_ALGORITHMS) else None, s.cfg.authorities)
  }

  function StatusPart(s: Server): seq<Message> {
    if s.hello.ocspStapling && s.cfg.ocspStaple.Some? then [CertificateStatus(s.cfg.ocspStaple.value)] else []
  }

  function RequestPart(s: Server): seq<Message> { if RequestsClientCert(s.cfg) then [Request(s)] else [] }

  function WriteAll(hash: HandshakeHash, ms: seq<Message>): (r: HandshakeHash)
    ensures r.vers == hash.vers && r.prf == hash.prf && r.messages == hash.messages + ms
    ensures r.buffer == if hash.buffer.Some? then Some(hash.buffer.value + ms) else None
    decreases |ms|
  {
    if ms == [] then
      assert hash.messages + ms == hash.messages;
      assert hash.buffer.Some? ==> hash.buffer.value + ms == hash.buffer.value;
      hash
    else
      assert hash.messages + [ms[0]] + ms[1..] == hash.messages + ms;
      assert hash.buffer.Some? ==> hash.buffer.value + [ms[0]] + ms[1..] == hash.buffer.value + ms;
      WriteAll(hash.Write(ms[0]), ms[1..])
  }

  /** Certificate, CertificateStatus, ServerKeyExchange, CertificateRequest, ServerHelloDone. */
  function Flight(s: Server, keyExchange: seq<Message>): seq<Message> {
    [CertificateMsg(s.identity.chain)] + (StatusPart(s) + (keyExchange + (RequestPart(s) + [ServerHelloDone])))
  }

  function SendFlight(s: Server): Step {
    match GenerateServerKeyExchange(s)
    case Fail(e) => Fail(e)
    case Ok(keyExchange) => SendParts(s, Parts(keyExchange))
  }

  function Parts(m: Option<Message>): seq<Message> { if m.Some? then [m.value] else [] }

  function SendParts(s: Server, keyExchange: seq<Message>): Step {
    Ok((s.(hash := WriteAll(s.hash, Flight(s, keyExchange)),
           curve := if keyExchange != [] && keyExchange[0].ServerKeyExchange? then keyExchange[0].curve else s.curve,
           stage := if RequestsClientCert(s.cfg) then WaitClientCertificate else WaitClientKeyExchange),
        Plain([ServerHelloMsg(s.hello)] + Flight(s, keyExchange))))
  }

  // ---------- the client's flight ----------

  function OnClientCertificate(s: Server, m: Message): Step {
    if !m.CertificateMsg? then Fail(Protocol(UnexpectedMessage))
    else match ProcessCertsFromClient(s.(hash := s.hash.Write(m)), m.chain)
      case Fail(e) => Fail(e)
      case Ok(s1) => Ok((s1.(stage := WaitClientKeyExchange), []))
  }

  /** processClientKeyExchange; a ciphertext for another key decrypts to something, but to nothing the client knows. */
  function PremasterOf(s: Server, ciphertext: Term): Option<Term> {
    if s.suite.ecdhe then
      var shared := SharedSecret(Symbolic.Ecdhe(s.curve, s.cfg.exponent), ciphertext);
      if shared == Nil then None else Some(shared)
    else if !s.identity.decrypter then None
    else if ciphertext.RsaEncrypted? && ciphertext.key == s.identity.key then Some(ciphertext.secret)
    else Some(Nil)
  }

  function OnClientKeyExchange(s: Server, m: Message): Step {
    if !s.cfg.connectionOk then Fail(Configuration(ConnectionRefused))
    else if !m.ClientKeyExchange? then Fail(Protocol(UnexpectedMessage))
    else
      var premaster := PremasterOf(s, m.ciphertext);
      if premaster.None? then Fail(Protocol(InvalidClientKeyExchange))
      else AwaitVerify(s.(hash := s.hash.Write(m),
        masterSecret := MasterFrom(s.vers, s.suite, premaster.value, s.clientHello.random, s.hello.random)))
  }

  function AwaitVerify(s: Server): Step {
    if s.peerChain != [] then Ok((s.(stage := WaitClientVerify), [])) else Ok((AwaitFinished(s), []))
  }

  function AwaitFinished(s: Server): Server {
    EstablishKeys(s.(hash := s.hash.Discard())).(stage := WaitChangeCipherSpec)
  }

  function OnClientVerify(s: Server, m: Message): Step {
    if !m.CertificateVerify? || s.peerChain == [] then Fail(Protocol(UnexpectedMessage))
    else if s.vers >= TLS12 && (m.scheme.None? || m.scheme.value !in C.SUPPORTED_SIGNATURE_ALGORITHMS) then
      Fail(Protocol(InvalidSignatureAlgorithm))
    else
      var key := s.peerChain[0].key;
      var how := CheckSigning(s.vers, key, m.scheme);
      if how.None? then Fail(Protocol(InvalidSignatureAlgorithm))
      else match s.hash.ForClientCertificate(how.value.sigType, how.value.hash)
        case None => Fail(Panic)
        case Some(signed) =>
          if !Verifies(key, how.value, signed, m.signature) then Fail(Protocol(InvalidSignature))
          else Ok((AwaitFinished(s.(hash := s.hash.Write(m))), []))
  }

  function OnChangeCipherSpec(s: Server): Step {
    if s.nextIn == Plaintext then Fail(Protocol(NoPendingCipher))
    else Ok((s.(inSpec := s.nextIn, nextIn := Plaintext, stage := WaitFinished), []))
  }

  function OnFinished(s: Server, m: Message): Step {
    if !m.Finished? then Fail(Protocol(UnexpectedMessage))
    else if m.verifyData != s.hash.ClientSum(s.masterSecret) then Fail(Protocol(InvalidFinished))
    else Complete(s.(hash := s.hash.Write(m)))
  }

  function Complete(s: Server): Step {
    if s.resumed then Ok((s.(stage := Completed), []))
    else match SendFinal(s)
      case Fail(e) => Fail(e)
      case Ok((s1, sent)) => Ok((s1.(stage := Completed), sent))
  }

  function Exporter(s: Server, lbl: string): Term {
    Prf(PrfFor(s.vers, s.suite), s.masterSecret, lbl, [s.clientHello.random, s.hello.random])
  }

  function OnMessage(s: Server, m: Message): Step {
    match s.stage
    case WaitClientHello =>
      if m.ClientHelloMsg? then OnClientHello(s, m.clientHello) else Fail(Protocol(UnexpectedMessage))
    case WaitClientCertificate => OnClientCertificate(s, m)
    case WaitClientKeyExchange => OnClientKeyExchange(s, m)
    case WaitClientVerify => OnClientVerify(s, m)
    case WaitChangeCipherSpec => Fail(Protocol(UnexpectedMessage))
    case WaitFinished => OnFinished(s, m)
    case Completed => Fail(Protocol(UnexpectedMessage))
  }

  /** One blocking read and everything the server does before the next one. */
  function Receive(s: Server, w: Wire): Step {
    if w.spec != s.inSpec then Fail(Protocol(Garbled))
    else match w.payload
      case ChangeCipherSpec =>
        if s.stage == WaitChangeCipherSpec then OnChangeCipherSpec(s) else Fail(Protocol(UnexpectedMessage))
      case Handshake(m) => OnMessage(s, m)
  }
}
