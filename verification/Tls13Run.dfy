/**
  Whole runs of the TLS 1.3 handshake: one client and one server joined by two in-order
  channels, stepping in any order. A run stops at the first failure.
 */
module Tls13Run {
  import opened Outcomes
  import opened Symbolic
  import opened Tls13Config
  import opened Tls13Client
  import Server = Tls13Server
  import Client = Tls13Client

  datatype System = System(
    client: Client.Client, server: Server.Server, toServer: seq<Wire>, toClient: seq<Wire>, failure: Option<Failure>)

  datatype Side = ClientSide | ServerSide

  /** The chosen side reads the next message in its channel, if there is one. */
  function Step(sys: System, side: Side): System {
    if sys.failure.Some? then sys
    else match side
      case ClientSide =>
        if sys.toClient == [] then sys
        else (match Client.Receive(sys.client, sys.toClient[0])
          case Ok((c, sent)) => sys.(client := c, toClient := sys.toClient[1..], toServer := sys.toServer + sent)
          case Fail(e) => sys.(failure := Some(e)))
      case ServerSide =>
        if sys.toServer == [] then sys
        else (match Server.Receive(sys.server, sys.toServer[0])
          case Ok((s, sent)) => sys.(server := s, toServer := sys.toServer[1..], toClient := sys.toClient + sent)
          case Fail(e) => sys.(failure := Some(e)))
  }

  function Run(sys: System, schedule: seq<Side>): System
    decreases |schedule|
  {
    if schedule == [] then sys else Run(Step(sys, schedule[0]), schedule[1..])
  }

  /** The system when the client has sent its hello. */
  function Boot(client: ClientConfig, server: Server.ServerConfig): Result<System> {
    var (c, sent) :- Client.Start(client);
    Ok(System(c, Server.Init(server), sent, [], None))
  }

  predicate BothFinished(sys: System) {
    sys.failure.None? && sys.client.stage == Established && sys.server.stage == Server.Completed
  }

  /**
    A session this server issued: whenever its ticket opens under the server's keys, it holds
    the secret and the suite the client stored. RunIssuesSessions shows where such
    sessions come from.
   */
  predicate IssuedBy(session: Session, ticketKeys: seq<nat>) {
    var state := Server.DecryptTicket(ticketKeys, session.ticket);
    state.Some? ==>
      state.value.resumptionSecret == session.masterSecret && state.value.cipherSuite == session.cipherSuite
      && session.nonce == []
  }

  predicate GoodCache(client: ClientConfig, server: Server.ServerConfig) {
    client.cached.Some? ==> IssuedBy(client.cached.value, server.ticketKeys)
  }

  // ---------- the flights, as they must be from any point on ----------

  function SchemeOf(s: Server.Server): nat {
    if s.clientHello.None? then 0
    else match Server.PickCertificate(s.usingPsk, s.cfg.identity, s.clientHello.value.supportedSignatureAlgorithms)
      case Ok(scheme) => scheme
      case Fail(_) => 0
  }

  /** What the server's flight is computed from, once its keys are fixed. */
  datatype Script = Script(
    hash: Hash, alpn: string, usingPsk: bool, request: Option<Message>, identity: Option<Identity>, scheme: nat)

  function ScriptOf(s: Server.Server): Script {
    Script(s.suite.hash, s.alpn, s.usingPsk, if Server.RequestClientCert(s) then Some(Server.CertRequest(s)) else None,
           s.cfg.identity, SchemeOf(s))
  }

  function VerifyMsg(s: Script, t: Transcript): Message {
    CertificateVerify(s.scheme,
      if s.identity.None? then Nil else Sign(s.identity.value, s.scheme, SERVER_SIGNATURE_CONTEXT, s.hash, t))
  }

  function ChainMsg(s: Script): Message {
    CertificateMsg(if s.identity.None? then [] else s.identity.value.chain)
  }

  function FinishedMsg(h: Hash, secret: Term, t: Transcript): Message { Finished(FinishedHash(h, secret, t)) }

  /** What the client has still to read, and the transcript it will then have. */
  datatype Rest = Rest(flight: seq<Wire>, transcript: Transcript)

  function Then(secret: Term, m: Message, rest: Rest): Rest { rest.(flight := [Wire(secret, m)] + rest.flight) }

  function FromFinished(h: Hash, secret: Term, t: Transcript): Rest {
    var m := FinishedMsg(h, secret, t);
    Rest([Wire(secret, m)], t + [Whole(m)])
  }

  function FromVerify(s: Script, secret: Term, t: Transcript): Rest {
    var m := VerifyMsg(s, t);
    Then(secret, m, FromFinished(s.hash, secret, t + [Whole(m)]))
  }

  function FromCertificate(s: Script, secret: Term, t: Transcript): Rest {
    var m := ChainMsg(s);
    Then(secret, m, FromVerify(s, secret, t + [Whole(m)]))
  }

  function FromAuthentication(s: Script, secret: Term, t: Transcript): Rest {
    if s.usingPsk then FromFinished(s.hash, secret, t)
    else if s.request.Some? then
      Then(secret, s.request.value, FromCertificate(s, secret, t + [Whole(s.request.value)]))
    else FromCertificate(s, secret, t)
  }

  function FromExtensions(s: Script, secret: Term, t: Transcript): Rest {
    var m := EncryptedExtensions(s.alpn);
    Then(secret, m, FromAuthentication(s, secret, t + [Whole(m)]))
  }

  /** The rest of the server's flight as seen by a client in this stage. */
  function RestFor(stage: ClientStage, s: Script, secret: Term, t: Transcript): Rest {
    match stage
    case WaitEncryptedExtensions => FromExtensions(s, secret, t)
    case WaitCertificateOrRequest => FromAuthentication(s, secret, t)
    case WaitCertificate => FromCertificate(s, secret, t)
    case WaitCertificateVerify => FromVerify(s, secret, t)
    case WaitServerFinished => FromFinished(s.hash, secret, t)
    case _ => Rest([], t)
  }

  /** The ticket of a server whose transcript ends with the client's Finished. */
  function TicketWires(s: Server.Server): seq<Wire> {
    if !Server.ShouldSendSessionTickets(s) || s.cfg.ticketKeys == [] then []
    else [Wire(s.outSecret, NewSessionTicket(
      Ticket(s.cfg.ticketKeys[0], SessionState(s.suite.id, s.cfg.now,
        DeriveSecret(s.suite.hash, s.masterSecret, RESUMPTION_LABEL, s.transcript), s.peerChain)),
      MAX_TICKET_LIFETIME, s.cfg.ageAdd, []))]
  }

  // ---------- invariants ----------

  /** What a client that has not yet read a ServerHello offers; before is what precedes its hello in the transcript. */
  ghost predicate Offering(c: Client.Client, keys: seq<nat>, before: Transcript) {
    && c.inSecret == Nil && c.outSecret == Nil && !c.usingPsk && c.certReq.None? && c.stored.None?
    && c.hello.keyShares == [KeyShare(c.ecdhe.group, c.ecdhe.Public())]
    && SupportedCurve(c.ecdhe.group)
    && (PSK_MODE_DHE in c.hello.pskModes ==> c.cfg.ticketsEnabled)
    && c.hello.supportedSignatureAlgorithms == SUPPORTED_SIGNATURE_ALGORITHMS
    && c.hello.compressionMethods == [0] && c.hello.secureRenegotiation == [] && !c.hello.earlyData
    && c.hello.supportedVersions != []
    && PskOffer(c, keys, before)
  }

  /** The offered PSK, if any: its ticket, its early secret and its binder over this transcript. */
  ghost predicate PskOffer(c: Client.Client, keys: seq<nat>, before: Transcript) {
    if c.hello.pskIdentities == [] then c.hello.pskBinders == []
    else
      && OfferedSession(c, keys)
      && c.hello.pskBinders[0] == FinishedHash(SessionHash(c), c.binderKey, before + [WithoutBinders(c.hello)])
  }

  function SessionHash(c: Client.Client): Hash {
    if c.session.Some? && CipherSuiteTls13ById(c.session.value.cipherSuite).Some?
    then CipherSuiteTls13ById(c.session.value.cipherSuite).value.hash else SHA256
  }

  /** One identity and one binder, for a session this server issued. */
  ghost predicate OfferedSession(c: Client.Client, keys: seq<nat>) {
    && |c.hello.pskIdentities| == |c.hello.pskBinders| == 1
    && c.session.Some?
    && var session := c.session.value;
    && c.hello.pskIdentities[0].ticket == session.ticket && IssuedBy(session, keys)
    && CipherSuiteTls13ById(session.cipherSuite).Some?
    && c.earlySecret == Extract(SessionHash(c), PskFrom(SessionHash(c), session.masterSecret, session.nonce), Nil)
    && c.binderKey == DeriveSecret(SessionHash(c), c.earlySecret, RESUMPTION_BINDER_LABEL, [])
  }

  /** What holds of the server from the moment it has sent its flight; t ends with its Finished. */
  ghost predicate Responded(s: Server.Server, hello: ClientHello, t: Transcript) {
    var h := s.suite.hash;
    && s.clientHello == Some(hello)
    && s.masterSecret == MasterSecret(h, s.handshakeSecret)
    && s.trafficSecret == DeriveSecret(h, s.masterSecret, CLIENT_APPLICATION_LABEL, t)
    && s.outSecret == DeriveSecret(h, s.masterSecret, SERVER_APPLICATION_LABEL, t)
    && s.exporter == DeriveSecret(h, s.masterSecret, EXPORTER_LABEL, t)
    && (!s.usingPsk ==> SchemeOf(s) in SUPPORTED_SIGNATURE_ALGORITHMS && AllowedInTls13(SchemeOf(s)))
    && AlpnAcceptable(hello.alpnProtocols, s.alpn)
    && if Server.RequestClientCert(s) then s.stage == Server.WaitClientCertificate && s.transcript == t
       else s.stage == Server.WaitClientFinished && TicketsSent(s, t)
  }

  /** The server has computed the client's Finished over t and, if it sends tickets, could seal one. */
  ghost predicate TicketsSent(s: Server.Server, t: Transcript) {
    && s.clientFinished == FinishedHash(s.suite.hash, s.inSecret, t)
    && s.transcript == t + [Whole(Finished(s.clientFinished))]
    && (Server.ShouldSendSessionTickets(s) ==> s.cfg.ticketKeys != [])
  }

  function EarlyTickets(s: Server.Server): seq<Wire> {
    if Server.RequestClientCert(s) then [] else TicketWires(s)
  }

  /** The ServerHello of this server answers this client. */
  ghost predicate Answers(c: Client.Client, s: Server.Server, t: Transcript) {
    var h := s.suite.hash;
    var sh := s.hello;
    && sh == Server.EMPTY_HELLO.(vers := VERSION_TLS12, supportedVersion := VERSION_TLS13, random := Random(s.cfg.random),
         sessionId := c.hello.sessionId, cipherSuite := s.suite.id, serverShare := sh.serverShare,
         selectedIdentityPresent := s.usingPsk, selectedIdentity := 0)
    && s.suite.id in c.hello.cipherSuites && CipherSuiteTls13ById(s.suite.id) == Some(s.suite)
    && (c.suite.Some? ==> c.suite == Some(s.suite))
    && sh.serverShare.group == c.ecdhe.group
    && c.ecdhe.Shared(sh.serverShare.data) == s.sharedKey != Nil
    && (s.usingPsk ==>
         c.hello.pskIdentities != [] && c.session.Some?
         && CipherSuiteTls13ById(c.session.value.cipherSuite).Some? && SessionHash(c) == h)
    && s.handshakeSecret == HandshakeSecret(h, s.sharedKey, if s.usingPsk then c.earlySecret else Extract(h, Nil, Nil))
    && s.inSecret == DeriveSecret(h, s.handshakeSecret, CLIENT_HANDSHAKE_LABEL, t)
  }

  // The phases of a run, each with what is then in the channels.

  ghost predicate Greeting(c: Client.Client, s: Server.Server, toServer: seq<Wire>, sc: Server.ServerConfig, keys: seq<nat>) {
    && Offering(c, keys, []) && c.stage == WaitServerHello && c.suite.None? && c.hello.cookie == []
    && s == Server.Init(sc) && toServer == [Wire(Nil, ClientHelloMsg(c.hello))]
  }

  /** What a HelloRetryRequest leaves behind at the server and puts on the wire. */
  ghost predicate RetrySent(c: Client.Client, s: Server.Server, sent: seq<Wire>, sc: Server.ServerConfig) {
    var retry := Server.HelloRetryRequest(s, s.group);
    && AwaitingSecondHello(s, c.hello, sc)
    && sent == [Wire(Nil, ServerHelloMsg(retry))]
    && s.group in c.hello.supportedCurves && s.group != c.ecdhe.group
  }

  ghost predicate AwaitingSecondHello(s: Server.Server, first: ClientHello, sc: Server.ServerConfig) {
    && s.cfg == sc && s.stage == Server.WaitSecondClientHello
    && s.group != 0 && s.transcript == RetryTranscript(s.suite.hash, first, Server.HelloRetryRequest(s, s.group))
    && s.clientHello == Some(first)
    && s.inSecret == Nil && s.outSecret == Nil && s.earlySecret == Nil && !s.usingPsk && s.peerChain == []
    && s.suite.id in first.cipherSuites && CipherSuiteTls13ById(s.suite.id) == Some(s.suite)
    && s.hello == Server.EMPTY_HELLO.(vers := VERSION_TLS12, supportedVersion := VERSION_TLS13,
         random := Random(s.cfg.random), sessionId := first.sessionId, cipherSuite := s.suite.id)
  }

  ghost predicate Retrying(c: Client.Client, s: Server.Server, toClient: seq<Wire>, sc: Server.ServerConfig, keys: seq<nat>) {
    && Offering(c, keys, []) && c.stage == WaitServerHello && c.suite.None? && c.hello.cookie == []
    && RetrySent(c, s, toClient, sc)
  }

  /** The second hello is on its way: it differs from the first only where it may, and has the share asked for. */
  ghost predicate Retried(c: Client.Client, s: Server.Server, toServer: seq<Wire>, sc: Server.ServerConfig, keys: seq<nat>) {
    && c.stage == WaitSecondServerHello && s.clientHello.Some?
    && AwaitingSecondHello(s, s.clientHello.value, sc)
    && Offering(c, keys, s.transcript)
    && c.hello == WithAllowedChanges(s.clientHello.value, c.hello)
    && c.suite == Some(s.suite) && c.ecdhe.group == s.group
    && c.transcript == s.transcript + [Whole(ClientHelloMsg(c.hello))] && c.transcript[..2] == s.transcript
    && toServer == [Wire(Nil, ClientHelloMsg(c.hello))]
  }

  /** The transcript of a waiting client up to and including its latest hello, and what precedes that hello. */
  function Prior(c: Client.Client): Transcript {
    if c.stage == WaitServerHello then [Whole(ClientHelloMsg(c.hello))] else c.transcript
  }

  function Before(c: Client.Client): Transcript {
    if c.stage == WaitServerHello || |c.transcript| < 2 then [] else c.transcript[..2]
  }

  ghost predicate Answered(c: Client.Client, s: Server.Server, toClient: seq<Wire>, sc: Server.ServerConfig, keys: seq<nat>) {
    var t := Prior(c) + [Whole(ServerHelloMsg(s.hello))];
    var rest := FromExtensions(ScriptOf(s), DeriveSecret(s.suite.hash, s.handshakeSecret, SERVER_HANDSHAKE_LABEL, t), t);
    && c.stage in {WaitServerHello, WaitSecondServerHello} && s.cfg == sc
    && Offering(c, keys, Before(c))
    && Answers(c, s, t)
    && Responded(s, c.hello, rest.transcript)
    && toClient == [Wire(Nil, ServerHelloMsg(s.hello))] + rest.flight + EarlyTickets(s)
  }

  ghost predicate Reading(c: Client.Client, s: Server.Server, toClient: seq<Wire>, sc: Server.ServerConfig) {
    var rest := RestFor(c.stage, ScriptOf(s), c.inSecret, c.transcript);
    && c.stage !in {WaitServerHello, WaitSecondServerHello, Established} && s.cfg == sc
    && c.suite == Some(s.suite) && c.usingPsk == s.usingPsk
    && c.outSecret == s.inSecret && c.masterSecret == s.masterSecret
    && Responded(s, c.hello, rest.transcript)
    && toClient == rest.flight + EarlyTickets(s)
    && (PSK_MODE_DHE in c.hello.pskModes ==> c.cfg.ticketsEnabled)
    && c.stored.None?
    && (s.usingPsk ==> c.stage in {WaitEncryptedExtensions, WaitServerFinished})
    && (c.stage == WaitCertificate ==> Server.RequestClientCert(s))
    && c.certReq == (if c.stage !in {WaitEncryptedExtensions, WaitCertificateOrRequest} && Server.RequestClientCert(s)
                     then Some(Server.CertRequest(s)) else None)
    && (c.stage == WaitCertificateVerify ==> CertificateMsg(c.peerChain) == ChainMsg(ScriptOf(s)) && c.peerChain != [])
    && (c.stage != WaitEncryptedExtensions ==> c.alpn == s.alpn)
  }

  /** What an established client has still in flight towards the server, and the transcript at its end. */
  function ClientFinishedFrom(s: Server.Server, t: Transcript): Rest {
    FromFinished(s.suite.hash, s.inSecret, t)
  }

  function ClientVerifyFrom(s: Server.Server, scheme: nat, key: nat, t: Transcript): Rest {
    var m := CertificateVerify(scheme, Signature(key, scheme, CLIENT_SIGNATURE_CONTEXT, Digest(s.suite.hash, t)));
    Then(s.inSecret, m, ClientFinishedFrom(s, t + [Whole(m)]))
  }

  function ClientCertificateFrom(s: Server.Server, scheme: nat, chain: seq<Certificate>, t: Transcript): Rest {
    var m := CertificateMsg(chain);
    Then(s.inSecret, m, if chain == [] then ClientFinishedFrom(s, t + [Whole(m)])
                        else ClientVerifyFrom(s, scheme, chain[0].key, t + [Whole(m)]))
  }

  ghost predicate Closing(c: Client.Client, s: Server.Server, toServer: seq<Wire>, toClient: seq<Wire>,
                          sc: Server.ServerConfig) {
    var h := s.suite.hash;
    && c.stage == Established && s.cfg == sc
    && c.suite == Some(s.suite) && c.usingPsk == s.usingPsk && c.alpn == s.alpn
    && c.inSecret == s.outSecret && c.outSecret == s.trafficSecret
    && c.masterSecret == s.masterSecret && c.exporter == s.exporter
    && s.clientHello == Some(c.hello)
    && (PSK_MODE_DHE in c.hello.pskModes ==> c.cfg.ticketsEnabled)
    && c.resumptionSecret == (if c.cfg.ticketsEnabled then DeriveSecret(h, c.masterSecret, RESUMPTION_LABEL, c.transcript) else Nil)
    && (c.stored.Some? ==> StoredFromTicket(c, s))
    && match s.stage
       case WaitClientCertificate => toClient == [] && c.stored.None? && CertificateComing(c, s, toServer)
       case WaitClientCertificateVerify => toClient == [] && c.stored.None? && VerifyComing(c, s, toServer)
       case WaitClientFinished =>
         && (toClient == TicketWires(s) || toClient == [])
         && (Server.ShouldSendSessionTickets(s) ==> s.cfg.ticketKeys != [])
         && toServer == [Wire(s.inSecret, Finished(s.clientFinished))] && c.transcript == s.transcript
       case Completed =>
         && (toClient == TicketWires(s) || toClient == [])
         && toServer == [] && c.transcript == s.transcript && s.inSecret == s.trafficSecret
       case _ => false
  }

  predicate Usable(scheme: nat) { scheme in SUPPORTED_SIGNATURE_ALGORITHMS && AllowedInTls13(scheme) }

  ghost predicate CertificateComing(c: Client.Client, s: Server.Server, toServer: seq<Wire>) {
    exists chain, scheme ::
      Usable(scheme) && ClientCertificateFrom(s, scheme, chain, s.transcript) == Rest(toServer, c.transcript)
  }

  ghost predicate VerifyComing(c: Client.Client, s: Server.Server, toServer: seq<Wire>) {
    s.peerChain != [] &&
    exists scheme ::
      Usable(scheme) && ClientVerifyFrom(s, scheme, s.peerChain[0].key, s.transcript) == Rest(toServer, c.transcript)
  }

  /** The stored session is the one in this server's ticket. */
  ghost predicate StoredFromTicket(c: Client.Client, s: Server.Server)
    requires c.stored.Some?
  {
    var session := c.stored.value;
    && c.cfg.ticketsEnabled && s.cfg.ticketKeys != [] && c.suite == Some(s.suite)
    && session.ticket == Ticket(s.cfg.ticketKeys[0],
         SessionState(s.suite.id, s.cfg.now, c.resumptionSecret, s.peerChain))
    && session.masterSecret == c.resumptionSecret && session.cipherSuite == s.suite.id
    && session.vers == VERSION_TLS13 && session.nonce == []
  }

  ghost predicate Phase(c: Client.Client, s: Server.Server, toServer: seq<Wire>, toClient: seq<Wire>, sc: Server.ServerConfig,
                        keys: seq<nat>) {
    || (Greeting(c, s, toServer, sc, keys) && toClient == [])
    || (Retrying(c, s, toClient, sc, keys) && toServer == [])
    || (Retried(c, s, toServer, sc, keys) && toClient == [])
    || (Answered(c, s, toClient, sc, keys) && toServer == [])
    || (Reading(c, s, toClient, sc) && toServer == [])
    || Closing(c, s, toServer, toClient, sc)
  }

  /**
    The failures of a run whose cached session was issued under these keys, or under none of
    the server's: a configuration failure, or the refusal of a binder the server cannot have meant.
   */
  predicate Tolerated(e: Failure, sc: Server.ServerConfig, keys: seq<nat>) {
    e.Configuration? || (keys != sc.ticketKeys && e == Protocol(InvalidBinder))
  }

  /**
    What holds of every reachable system of this server configuration. The keys are those under
    which the cached session is known to be the server's own; none for a cache of any content.
   */
  ghost predicate Invariant(sys: System, sc: Server.ServerConfig, keys: seq<nat>) {
    if sys.failure.Some? then Tolerated(sys.failure.value, sc, keys)
    else Phase(sys.client, sys.server, sys.toServer, sys.toClient, sc, keys)
  }
}
