/** The server's side of the TLS 1.3 handshake, as functions from state and message to state. */
module Tls13Server {
  import opened Outcomes
  import opened Symbolic
  import opened Tls13Config
  import opened Tls13Client

  datatype ServerConfig = ServerConfig(
    supportedVersions: seq<Version>, suitePreference: seq<nat>, curves: seq<nat>, alpnProtocols: seq<string>,
    ticketsDisabled: bool, ticketKeys: seq<nat>,      // names of the ticket keys, the encrypting one first
    clientAuth: nat, authorities: seq<nat>,
    clientChainOk: bool,                              // outcome of checking a client chain
    identity: Option<Identity>,                       // what getCertificate returns, None for an error
    random: nat, exponent: nat, now: int, ageAdd: nat)

  datatype ServerStage =
    | WaitClientHello | WaitSecondClientHello | WaitClientCertificate | WaitClientCertificateVerify
    | WaitClientFinished | Completed

  datatype Server = Server(
    cfg: ServerConfig, stage: ServerStage, clientHello: Option<ClientHello>, hello: ServerHello,
    group: nat, suite: Suite, transcript: Transcript, usingPsk: bool, earlySecret: Term, sharedKey: Term,
    handshakeSecret: Term, masterSecret: Term, trafficSecret: Term, exporter: Term,
    clientFinished: Term, peerChain: seq<Certificate>, alpn: string, inSecret: Term, outSecret: Term)

  const NO_SHARE := KeyShare(0, Nil)
  const EMPTY_HELLO := ServerHello(0, Nil, 0, 0, 0, false, false, false, [], "", [], 0, NO_SHARE, false, 0, [], [], 0)

  function Init(cfg: ServerConfig): Server {
    Server(cfg, WaitClientHello, None, EMPTY_HELLO, 0, Suite(0, SHA256), [], false, Nil, Nil,
           Nil, Nil, Nil, Nil, Nil, [], "", Nil, Nil)
  }

  predicate RequestClientCert(s: Server) {
    s.cfg.clientAuth >= REQUEST_CLIENT_CERT && !s.usingPsk
  }

  // ---------- processClientHello ----------

  function FirstMutualSuite(preference: seq<nat>, offered: seq<nat>): (r: Option<Suite>)
    ensures r.Some? ==> r.value.id in offered && CipherSuiteTls13ById(r.value.id) == r
  {
    if preference == [] then None
    else
      var suite := MutualCipherSuiteTls13(offered, preference[0]);
      if suite.Some? then suite else FirstMutualSuite(preference[1..], offered)
  }

  function FirstVersion(offered: seq<nat>, supported: seq<Version>): Option<nat> {
    if offered == [] then None
    else if offered[0] in supported then Some(offered[0])
    else FirstVersion(offered[1..], supported)
  }

  /** The checks and choices before the group selection. */
  function NegotiateParameters(s: Server, ch: ClientHello): Result<Server> {
    if ch.supportedVersions == [] && ch.vers >= VERSION_TLS13 && VERSION_TLS13 in s.cfg.supportedVersions then
      Fail(Protocol(MissingClientVersions))
    else if FirstVersion(ch.supportedVersions, s.cfg.supportedVersions) != Some(VERSION_TLS13) then
      Fail(Configuration(NotTls13))
    else if FALLBACK_SCSV in ch.cipherSuites && (exists v :: v in s.cfg.supportedVersions && v > VERSION_TLS13) then
      Fail(Protocol(InappropriateFallback))
    else if ch.compressionMethods != [0] then Fail(Protocol(BadCompression))
    else if ch.secureRenegotiation != [] then Fail(Protocol(RenegotiationInfo))
    else if ch.earlyData then Fail(Protocol(UnexpectedEarlyData))
    else match FirstMutualSuite(s.cfg.suitePreference, ch.cipherSuites)
      case None => Fail(Configuration(NoMutualSuite))
      case Some(suite) =>
        Ok(s.(clientHello := Some(ch), suite := suite, hello := EMPTY_HELLO.(
          vers := VERSION_TLS12, supportedVersion := VERSION_TLS13, random := Random(s.cfg.random),
          sessionId := ch.sessionId, cipherSuite := suite.id)))
  }

  function HelloRetryRequest(s: Server, group: nat): ServerHello {
    EMPTY_HELLO.(vers := s.hello.vers, random := RetryRandom, sessionId := s.hello.sessionId,
                 cipherSuite := s.hello.cipherSuite, compressionMethod := s.hello.compressionMethod,
                 supportedVersion := s.hello.supportedVersion, selectedGroup := group)
  }

  /** The first half of doHelloRetryRequest: up to the read of the second ClientHello. */
  function DoHelloRetryRequest(s: Server, ch: ClientHello, group: nat): (Server, seq<Wire>) {
    var retry := HelloRetryRequest(s, group);
    (s.(group := group, transcript := RetryTranscript(s.suite.hash, ch, retry), stage := WaitSecondClientHello),
     [Wire(s.outSecret, ServerHelloMsg(retry))])
  }

  /** The end of processClientHello, once the group and the client's share are known. */
  function AgreeOnKey(s: Server, group: nat, share: KeyShare): Result<Server> {
    if !SupportedCurve(group) then Fail(Configuration(UnsupportedCurve))
    else
      var ecdhe := Ecdhe(group, s.cfg.exponent);
      var sharedKey := ecdhe.Shared(share.data);
      if sharedKey == Nil then Fail(Protocol(InvalidPeerShare))
      else Ok(s.(group := group, sharedKey := sharedKey, hello := s.hello.(serverShare := KeyShare(group, ecdhe.Public()))))
  }

  // ---------- checkForResumption ----------

  function DecryptTicket(keys: seq<nat>, ticket: Term): Option<SessionState> {
    if ticket.Ticket? && ticket.keyName in keys then Some(ticket.state) else None
  }

  /** Whether a decrypted session may be resumed here and now. */
  predicate Resumable(s: Server, state: SessionState) {
    && s.cfg.now - state.createdAt <= MAX_TICKET_LIFETIME
    && CipherSuiteTls13ById(state.cipherSuite).Some?
    && CipherSuiteTls13ById(state.cipherSuite).value.hash == s.suite.hash
    && !(RequiresClientCert(s.cfg.clientAuth) && state.chain == [])
    && !(state.chain != [] && s.cfg.clientAuth == NO_CLIENT_CERT)
  }

  function ProcessCertsFromClient(s: Server, chain: seq<Certificate>): Result<Server> {
    if chain == [] && RequiresClientCert(s.cfg.clientAuth) then Fail(Configuration(BadCertificate))
    else if chain != [] && !s.cfg.clientChainOk then Fail(Configuration(BadCertificate))
    else Ok(s.(peerChain := chain))
  }

  function EarlySecretFrom(s: Server, state: SessionState): Term {
    Extract(s.suite.hash, PskFrom(s.suite.hash, state.resumptionSecret, []), Nil)
  }

  function BinderOver(s: Server, ch: ClientHello, earlySecret: Term): Term {
    var h := s.suite.hash;
    FinishedHash(h, DeriveSecret(h, earlySecret, RESUMPTION_BINDER_LABEL, []), s.transcript + [WithoutBinders(ch)])
  }

  /** The loop over the offered identities, from the i-th on. */
  function TryIdentities(s: Server, ch: ClientHello, i: nat): Result<Server>
    requires |ch.pskIdentities| == |ch.pskBinders|
    decreases |ch.pskIdentities| - i
  {
    if i >= |ch.pskIdentities| || i >= MAX_CLIENT_PSK_IDENTITIES then Ok(s)
    else
      var state := DecryptTicket(s.cfg.ticketKeys, ch.pskIdentities[i].ticket);
      if state.None? || !Resumable(s, state.value) then TryIdentities(s, ch, i + 1)
      else
        var earlySecret := EarlySecretFrom(s, state.value);
        if ch.pskBinders[i] != BinderOver(s, ch, earlySecret) then Fail(Protocol(InvalidBinder))
        else
          var s1 :- ProcessCertsFromClient(s.(earlySecret := earlySecret), state.value.chain);
          Ok(s1.(usingPsk := true, hello := s1.hello.(selectedIdentityPresent := true, selectedIdentity := i)))
  }

  function CheckForResumption(s: Server, ch: ClientHello): Result<Server> {
    if s.cfg.ticketsDisabled || PSK_MODE_DHE !in ch.pskModes then Ok(s)
    else if |ch.pskIdentities| != |ch.pskBinders| then Fail(Protocol(BinderCount))
    else TryIdentities(s, ch, 0)
  }

  /** pickCertificate: the signature scheme for the configured certificate, unless a PSK is used. */
  function PickCertificate(usingPsk: bool, identity: Option<Identity>, clientAlgorithms: seq<nat>): (r: Result<nat>)
    ensures r.Ok? && !usingPsk ==> r.value in SUPPORTED_SIGNATURE_ALGORITHMS && AllowedInTls13(r.value)
    ensures r.Fail? && clientAlgorithms != [] ==> r.error.Configuration?
  {
    if usingPsk then Ok(0)
    else if clientAlgorithms == [] then Fail(Protocol(MissingSignatureAlgorithms))
    else if identity.None? then Fail(Configuration(NoCertificates))
    else SelectSignatureScheme(identity.value, clientAlgorithms)
  }

  // ---------- the server's flight ----------

  function SendServerParameters(s: Server, ch: ClientHello): Result<(Server, seq<Wire>)> {
    var h := s.suite.hash;
    var t := s.transcript + [Whole(ClientHelloMsg(ch)), Whole(ServerHelloMsg(s.hello))];
    var earlySecret := if s.earlySecret == Nil then Extract(h, Nil, Nil) else s.earlySecret;
    var handshakeSecret := HandshakeSecret(h, s.sharedKey, earlySecret);
    var serverSecret := DeriveSecret(h, handshakeSecret, SERVER_HANDSHAKE_LABEL, t);
    var proto := AlpnChoice(s.cfg.alpnProtocols, ch.alpnProtocols);
    if proto.None? then Fail(Configuration(NoApplicationProtocol))
    else
      var extensions := EncryptedExtensions(proto.value);
      Ok((s.(handshakeSecret := handshakeSecret,
             inSecret := DeriveSecret(h, handshakeSecret, CLIENT_HANDSHAKE_LABEL, t),
             outSecret := serverSecret, alpn := proto.value, transcript := t + [Whole(extensions)]),
          [Wire(s.outSecret, ServerHelloMsg(s.hello)), Wire(serverSecret, extensions)]))
  }

  function CertRequest(s: Server): Message { CertificateRequest(SUPPORTED_SIGNATURE_ALGORITHMS, s.cfg.authorities) }

  function SendServerCertificate(s: Server, scheme: nat): Result<(Server, seq<Wire>)> {
    if s.usingPsk then Ok((s, []))
    else if s.cfg.identity.None? then Fail(Protocol(InternalError))
    else
      var id := s.cfg.identity.value;
      var request := if RequestClientCert(s) then [CertRequest(s)] else [];
      var certMsg := CertificateMsg(id.chain);
      var t := (if RequestClientCert(s) then s.transcript + [Whole(CertRequest(s))] else s.transcript) + [Whole(certMsg)];
      var verify := CertificateVerify(scheme, Sign(id, scheme, SERVER_SIGNATURE_CONTEXT, s.suite.hash, t));
      Ok((s.(transcript := t + [Whole(verify)]),
          (if RequestClientCert(s) then [Wire(s.outSecret, CertRequest(s))] else [])
          + [Wire(s.outSecret, certMsg), Wire(s.outSecret, verify)]))
  }

  function ShouldSendSessionTickets(s: Server): bool {
    !s.cfg.ticketsDisabled && s.clientHello.Some? && PSK_MODE_DHE in s.clientHello.value.pskModes
  }

  /** Computes the client's Finished ahead of its arrival, and sends the ticket. */
  function SendSessionTickets(s: Server): Result<(Server, seq<Wire>)> {
    var h := s.suite.hash;
    var clientFinished := FinishedHash(h, s.inSecret, s.transcript);
    var t := s.transcript + [Whole(Finished(clientFinished))];
    var s1 := s.(clientFinished := clientFinished, transcript := t);
    if !ShouldSendSessionTickets(s) then Ok((s1, []))
    else if s.cfg.ticketKeys == [] then Fail(Configuration(NoTicketKeys))
    else
      var state := SessionState(s.suite.id, s.cfg.now, DeriveSecret(h, s.masterSecret, RESUMPTION_LABEL, t), s.peerChain);
      Ok((s1, [Wire(s.outSecret, NewSessionTicket(Ticket(s.cfg.ticketKeys[0], state), MAX_TICKET_LIFETIME, s.cfg.ageAdd, []))]))
  }

  function SendServerFinished(s: Server): Result<(Server, seq<Wire>)> {
    var h := s.suite.hash;
    var finished := Finished(FinishedHash(h, s.outSecret, s.transcript));
    var t := s.transcript + [Whole(finished)];
    var masterSecret := MasterSecret(h, s.handshakeSecret);
    var s1 := s.(transcript := t, masterSecret := masterSecret,
                 trafficSecret := DeriveSecret(h, masterSecret, CLIENT_APPLICATION_LABEL, t),
                 outSecret := DeriveSecret(h, masterSecret, SERVER_APPLICATION_LABEL, t),
                 exporter := DeriveSecret(h, masterSecret, EXPORTER_LABEL, t));
    if RequestClientCert(s) then Ok((s1, [Wire(s.outSecret, finished)]))
    else
      var (s2, tickets) :- SendSessionTickets(s1);
      Ok((s2, [Wire(s.outSecret, finished)] + tickets))
  }

  /** The flight itself, each part added to what was sent before it, up to the next blocking read. */
  function SendFlight(s: Server, ch: ClientHello, scheme: nat): Result<(Server, seq<Wire>)> {
    match SendServerParameters(s, ch)
    case Fail(e) => Fail(e)
    case Ok((s3, parameters)) => SendFromCertificate(s3, scheme, parameters)
  }

  function SendFromCertificate(s: Server, scheme: nat, sent: seq<Wire>): Result<(Server, seq<Wire>)> {
    match SendServerCertificate(s, scheme)
    case Fail(e) => Fail(e)
    case Ok((s4, certificates)) => SendFromFinished(s4, sent + certificates)
  }

  function SendFromFinished(s: Server, sent: seq<Wire>): Result<(Server, seq<Wire>)> {
    match SendServerFinished(s)
    case Fail(e) => Fail(e)
    case Ok((s5, finished)) => Ok((AwaitClient(s5), sent + finished))
  }

  function AwaitClient(s: Server): Server {
    s.(stage := if RequestClientCert(s) then WaitClientCertificate else WaitClientFinished)
  }

  /** Everything from an accepted ClientHello with its key share to the next blocking read. */
  function Respond(s: Server, ch: ClientHello, group: nat, share: KeyShare): Result<(Server, seq<Wire>)> {
    match AgreeOnKey(s, group, share)
    case Fail(e) => Fail(e)
    case Ok(s1) => RespondWithKey(s1, ch)
  }

  function RespondWithKey(s: Server, ch: ClientHello): Result<(Server, seq<Wire>)> {
    match CheckForResumption(s, ch)
    case Fail(e) => Fail(e)
    case Ok(s2) =>
      match PickCertificate(s2.usingPsk, s2.cfg.identity, ch.supportedSignatureAlgorithms)
      case Fail(e) => Fail(e)
      case Ok(scheme) => SendFlight(s2, ch, scheme)
  }

  function OnFirstClientHello(s: Server, ch: ClientHello): Result<(Server, seq<Wire>)> {
    match NegotiateParameters(s, ch)
    case Fail(e) => Fail(e)
    case Ok(s1) =>
      var choice := SelectGroup(s1.cfg.curves, ch, 0);
      if choice.group == 0 then Fail(Configuration(NoMutualCurve))
      else if choice.share.None? then Ok(DoHelloRetryRequest(s1, ch, choice.group))
      else Respond(s1, ch, choice.group, choice.share.value)
  }

  /** The second half of doHelloRetryRequest and what follows it. */
  function OnSecondClientHello(s: Server, ch: ClientHello): Result<(Server, seq<Wire>)> {
    if |ch.keyShares| != 1 || ch.keyShares[0].group != s.group then Fail(Protocol(InvalidSecondKeyShare))
    else if ch.earlyData then Fail(Protocol(EarlyDataAfterRetry))
    else if s.clientHello.None? || ch != WithAllowedChanges(s.clientHello.value, ch) then Fail(Protocol(IllegalHelloChange))
    else Respond(s.(clientHello := Some(ch)), ch, s.group, ch.keyShares[0])
  }

  // ---------- the client's flight ----------

  function OnClientCertificate(s: Server, m: Message): Result<(Server, seq<Wire>)>
    requires m.CertificateMsg?
  {
    match ProcessCertsFromClient(s.(transcript := s.transcript + [Whole(m)]), m.chain)
    case Fail(e) => Fail(e)
    case Ok(s1) => if m.chain != [] then Ok((s1.(stage := WaitClientCertificateVerify), [])) else TicketsThenFinished(s1)
  }

  function TicketsThenFinished(s: Server): Result<(Server, seq<Wire>)> {
    match SendSessionTickets(s)
    case Fail(e) => Fail(e)
    case Ok((s1, tickets)) => Ok((s1.(stage := WaitClientFinished), tickets))
  }

  function OnClientCertificateVerify(s: Server, m: Message): Result<(Server, seq<Wire>)>
    requires m.CertificateVerify?
  {
    if s.peerChain == [] then Fail(Protocol(InternalError))
    else match VerifySignature(s.peerChain[0], m.scheme, m.signature, CLIENT_SIGNATURE_CONTEXT, s.suite.hash, s.transcript)
      case Some(e) => Fail(e)
      case None => TicketsThenFinished(s.(transcript := s.transcript + [Whole(m)]))
  }

  function OnClientFinished(s: Server, m: Message): Result<(Server, seq<Wire>)>
    requires m.Finished?
  {
    if m.verifyData != s.clientFinished then Fail(Protocol(InvalidFinished))
    else Ok((s.(inSecret := s.trafficSecret, stage := Completed), []))
  }

  /** One blocking read and everything the server does before the next one. */
  function Receive(s: Server, w: Wire): Result<(Server, seq<Wire>)> {
    var m := w.message;
    if w.secret != s.inSecret then Fail(Protocol(BadRecordMac))
    else match s.stage
      case WaitClientHello =>
        if m.ClientHelloMsg? then OnFirstClientHello(s, m.clientHello) else Fail(Protocol(UnexpectedMessage))
      case WaitSecondClientHello =>
        if m.ClientHelloMsg? then OnSecondClientHello(s, m.clientHello) else Fail(Protocol(UnexpectedMessage))
      case WaitClientCertificate =>
        if m.CertificateMsg? then OnClientCertificate(s, m) else Fail(Protocol(UnexpectedMessage))
      case WaitClientCertificateVerify =>
        if m.CertificateVerify? then OnClientCertificateVerify(s, m) else Fail(Protocol(UnexpectedMessage))
      case WaitClientFinished =>
        if m.Finished? then OnClientFinished(s, m) else Fail(Protocol(UnexpectedMessage))
      case Completed => Fail(Protocol(UnexpectedMessage))
  }
}
