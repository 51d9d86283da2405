/**
  Whole runs of the TLS 1.0-1.2 handshake: one client and one server joined by two in-order
  channels, stepping in any order, and the invariant of every reachable state. A run stops at
  the first failure.
 */
module Tls12Run {
  import opened Outcomes
  import opened Tls12Terms
  import C = Tls13Config
  import Client = Tls12Client
  import Server = Tls12Server

  datatype System = System(
    client: Client.Client, server: Server.Server, toServer: seq<Wire>, toClient: seq<Wire>, failure: Option<Failure>)

  datatype Side = ClientSide | ServerSide

  /** The chosen side reads the next record in its channel, if there is one. */
  function Step(sys: System, side: Side): System {
    if sys.failure.Some? then sys
    else match side
      case ClientSide =>
        if sys.toClient == [] then sys
        else (match Client.Receive(sys.client, sys.toClient[0])
          case Ok((c, sent)) => sys.(client := c, toClient := sys.toClient[1..], toServer := sys.toServer + sent)
          case Fail(e) => sys.(failure := Some(e)))
      case ServerSide =>
        if sys.toServer == [] then sys
        else (match Server.Receive(sys.server, sys.toServer[0])
          case Ok((s, sent)) => sys.(server := s, toServer := sys.toServer[1..], toClient := sys.toClient + sent)
          case Fail(e) => sys.(failure := Some(e)))
  }

  function Run(sys: System, schedule: seq<Side>): System
    decreases |schedule|
  {
    if schedule == [] then sys else Run(Step(sys, schedule[0]), schedule[1..])
  }

  /** The system when the client has sent its hello. */
  function Boot(cc: Client.ClientConfig, sc: Server.ServerConfig): Result<System> {
    match Client.Start(cc)
    case Fail(e) => Fail(e)
    case Ok((c, sent)) => Ok(System(c, Server.Init(sc), sent, [], None))
  }

  predicate BothFinished(sys: System) {
    sys.failure.None? && sys.client.stage == Client.Established && sys.server.stage == Server.Completed
  }

  /**
    A session this server issued: whenever its ticket opens under the server's keys, it holds
    the master secret, version and suite the client stored.
   */
  predicate IssuedBy(session: Client.Session, ticketKeys: seq<nat>) {
    var opened' := Server.DecryptTicket(ticketKeys, session.ticket);
    opened'.Some? ==> Restores(opened'.value.state, session)
  }

  predicate Restores(state: SessionState, session: Client.Session) {
    state.masterSecret == session.masterSecret && state.vers == session.vers && state.cipherSuite == session.cipherSuite
  }

  predicate GoodCache(cc: Client.ClientConfig, sc: Server.ServerConfig) {
    cc.cached.Some? && cc.cached.value.vers != TLS13 ==> IssuedBy(cc.cached.value, sc.ticketKeys)
  }

  // ---------- the two hellos ----------

  ghost predicate Offering(c: Client.Client, keys: seq<nat>) {
    && c.stage == Client.WaitServerHello && !c.resumed
    && c.inSpec == c.outSpec == c.nextIn == c.nextOut == Plaintext
    && c.agreed.None? && c.requested.None? && c.issued.None? && c.stored.None? && c.reply.chain == []
    && c.hello.compressionMethods == [0] && c.hello.secureRenegotiation == [] && c.hello.sessionId.Random?
    && c.hello.supportedVersions == Client.Versions(c.cfg) != []
    && C.FALLBACK_SCSV !in c.hello.cipherSuites
    && (TLS12 in Client.Versions(c.cfg) ==> c.hello.signatureAlgorithms == C.SUPPORTED_SIGNATURE_ALGORITHMS)
    && (c.hello.ticketSupported ==> c.cfg.ticketsEnabled)
    && (c.hello.sessionTicket != Nil ==> TicketOffered(c, keys))
  }

  ghost predicate TicketOffered(c: Client.Client, keys: seq<nat>) {
    c.cfg.ticketsEnabled && c.session.Some? && c.session.value.ticket == c.hello.sessionTicket && IssuedBy(c.session.value, keys)
  }

  /** The ServerHello of s is one that c accepts. */
  ghost predicate Acceptable(c: Client.Client, s: Server.Server) {
    var sh := s.hello;
    && s.clientHello == c.hello
    && sh.vers == s.vers && sh.supportedVersion == 0 && s.vers != 0 && s.vers < TLS13 && s.vers in Client.Versions(c.cfg)
    && !Client.DowngradeSignalled(MaxVersion(Client.Versions(c.cfg)), s.vers, sh.random)
    && MutualSuite(c.hello.cipherSuites, sh.cipherSuite) == Some(s.suite)
    && sh.compressionMethod == 0 && sh.secureRenegotiation == []
    && sh.alpnProtocol == s.alpn && C.AlpnAcceptable(c.hello.alpnProtocols, s.alpn)
    && (sh.ticketSupported ==> c.cfg.ticketsEnabled)
  }

  predicate HashOf(h: HandshakeHash, vers: nat, suite: Suite) {
    && h.vers == vers && h.prf == PrfFor(vers, suite)
    && (h.buffer.Some? ==> h.buffer.value == h.messages)
  }

  /** Both sides settled on the same parameters. */
  ghost predicate Paired(c: Client.Client, s: Server.Server) {
    && s.clientHello == c.hello && c.serverHello == s.hello && c.vers == s.vers && c.suite == s.suite
    && c.resumed == s.resumed && c.alpn == s.alpn
    && HashOf(c.hash, c.vers, c.suite) && HashOf(s.hash, c.vers, c.suite)
    && (s.hello.ticketSupported ==> c.cfg.ticketsEnabled)
    && (TLS12 <= s.vers ==> c.hello.signatureAlgorithms == C.SUPPORTED_SIGNATURE_ALGORITHMS)
    && c.stored.None?
  }

  // ---------- the full handshake ----------

  function KeyExchangePart(s: Server.Server): seq<Message> {
    match Server.GenerateServerKeyExchange(s)
    case Ok(Some(m)) => [m]
    case _ => []
  }

  function ServerFlight(s: Server.Server): seq<Message> { Server.Flight(s, KeyExchangePart(s)) }

  /** A server that has sent its flight and waits for the client's. */
  ghost predicate Serving(s: Server.Server, sc: Server.ServerConfig) {
    && s.cfg == sc && !s.resumed
    && s.stage == (if Server.RequestsClientCert(sc) then Server.WaitClientCertificate else Server.WaitClientKeyExchange)
    && s.inSpec == s.outSpec == Plaintext && s.peerChain == []
    && Server.GenerateServerKeyExchange(s).Ok?
    && (s.suite.ecdhe ==> KeyExchangePart(s) != [] && KeyExchangePart(s)[0].ServerKeyExchange? && s.curve == KeyExchangePart(s)[0].curve)
    && (!s.suite.ecdhe ==> s.identity.decrypter && s.identity.key.kind.Rsa?)
    && (s.vers >= TLS12 && Server.RequestsClientCert(sc) ==> s.hash.buffer.Some?)
  }

  ghost predicate Answered(c: Client.Client, s: Server.Server, toClient: seq<Wire>, sc: Server.ServerConfig) {
    && Offering(c, sc.ticketKeys) && Acceptable(c, s) && Serving(s, sc)
    && s.hello.sessionId == Nil
    && HashOf(s.hash, s.vers, s.suite)
    && s.hash.messages == [ClientHelloMsg(c.hello), ServerHelloMsg(s.hello)] + ServerFlight(s)
    && toClient == Plain([ServerHelloMsg(s.hello)] + ServerFlight(s))
  }

  // What is left of the server's flight from each part on.

  function FromRequest(s: Server.Server): seq<Message> { Server.RequestPart(s) + [ServerHelloDone] }

  function FromKeyExchange(s: Server.Server): seq<Message> { KeyExchangePart(s) + FromRequest(s) }

  function FromStatus(s: Server.Server): seq<Message> { Server.StatusPart(s) + FromKeyExchange(s) }

  function RestFor(stage: Client.ClientStage, s: Server.Server): seq<Message> {
    match stage
    case WaitCertificate => [CertificateMsg(s.identity.chain)] + FromStatus(s)
    case WaitStatus => FromStatus(s)
    case WaitKeyExchange => FromKeyExchange(s)
    case WaitRequest => FromRequest(s)
    case WaitDone => [ServerHelloDone]
    case _ => []
  }

  /** The client's part of an ECDHE or RSA agreement leads the server to the client's premaster secret. */
  ghost predicate Agrees(a: Client.Agreement, s: Server.Server) {
    a.message.ClientKeyExchange? && Server.PremasterOf(s, a.message.ciphertext) == Some(a.premaster)
  }

  ghost predicate InFlight(c: Client.Client, s: Server.Server, rest: seq<Message>, sc: Server.ServerConfig) {
    && Paired(c, s) && Serving(s, sc)
    && c.inSpec == c.outSpec == Plaintext && c.issued.None?
    && s.hash.messages == c.hash.messages + rest
  }

  ghost predicate Reading(c: Client.Client, s: Server.Server, toClient: seq<Wire>, sc: Server.ServerConfig) {
    && InFlight(c, s, RestFor(c.stage, s), sc) && toClient == Plain(RestFor(c.stage, s))
    && ReadsFlight(c.stage) && ClientSafe(c)
    && (c.stage != Client.WaitCertificate ==> c.peerChain == s.identity.chain != [])
    && (s.suite.ecdhe && c.stage in {Client.WaitRequest, Client.WaitDone} ==> c.agreed.Some? && Agrees(c.agreed.value, s))
    && (c.stage != Client.WaitDone ==> c.requested.None?)
    && (c.stage == Client.WaitDone ==> RequestRead(c, s))
  }

  ghost predicate RequestRead(c: Client.Client, s: Server.Server) {
    && Server.RequestsClientCert(s.cfg)
    && c.requested == Some(if s.vers >= TLS12 then C.SUPPORTED_SIGNATURE_ALGORITHMS else [])
  }

  /**
    Holds of a client whatever its peer sends: while a certificate may still have to be signed
    for, the handshake is buffered.
   */
  ghost predicate ClientSafe(c: Client.Client) {
    && (c.stage != Client.WaitServerHello ==> c.hash.vers == c.vers)
    && (MaySign(c.cfg) && ReadsFlight(c.stage) && c.vers >= TLS12 ==> c.hash.buffer.Some?)
    && (c.reply.chain != [] ==> MaySign(c.cfg))
  }

  predicate MaySign(cfg: Client.ClientConfig) { cfg.certificates != [] || cfg.getClientCertificate.Some? }

  predicate ReadsFlight(stage: Client.ClientStage) {
    stage in {Client.WaitCertificate, Client.WaitStatus, Client.WaitKeyExchange, Client.WaitRequest, Client.WaitDone}
  }

  // ---------- the keys ----------

  function ClientSpecOf(c: Client.Client): CipherSpec { ClientSpec(c.vers, c.suite, Client.Keys(c)) }

  function ServerSpecOf(c: Client.Client): CipherSpec { ServerSpec(c.vers, c.suite, Client.Keys(c)) }

  // ---------- the client's flight ----------

  function FinishedBy(hash: HandshakeHash, messages: seq<Message>, lbl: string, master: Term): Message {
    Finished(Prf(hash.prf, master, lbl, [hash.(messages := messages).Sum()]))
  }

  /** What a client signs when it has hashed these messages. */
  function Signed(vers: nat, suite: Suite, messages: seq<Message>, how: Signing): Option<Term> {
    HandshakeHash(vers, PrfFor(vers, suite), messages, Some(messages)).ForClientCertificate(how.sigType, how.hash)
  }

  ghost predicate VerifyFits(s: Server.Server, m: Message, key: PublicKey, signed: seq<Message>) {
    && m.CertificateVerify?
    && (s.vers >= TLS12 ==> m.scheme.Some? && m.scheme.value in C.SUPPORTED_SIGNATURE_ALGORITHMS)
    && CheckSigning(s.vers, key, m.scheme).Some?
    && SignedBy(s, m, key, CheckSigning(s.vers, key, m.scheme).value, signed)
  }

  ghost predicate SignedBy(s: Server.Server, m: Message, key: PublicKey, how: Signing, signed: seq<Message>)
    requires m.CertificateVerify?
  {
    var content := Signed(s.vers, s.suite, signed, how);
    && (s.vers >= TLS12 || how.sigType != Ed25519Signature)
    && content.Some? && Verifies(key, how, content.value, m.signature)
  }

  ghost predicate KeyExchangeFits(s: Server.Server, m: Message, master: Term) {
    m.ClientKeyExchange? && MasterOf(s, m.ciphertext) == Some(master)
  }

  function MasterOf(s: Server.Server, ciphertext: Term): Option<Term> {
    match Server.PremasterOf(s, ciphertext)
    case None => None
    case Some(premaster) => Some(MasterFrom(s.vers, s.suite, premaster, s.clientHello.random, s.hello.random))
  }

  /** The messages of the client's flight this server has not read yet are the ones it expects. */
  ghost predicate PendingFits(s: Server.Server, pending: seq<Message>, master: Term) {
    match s.stage
    case WaitClientCertificate =>
      && |pending| >= 2 && pending[0].CertificateMsg? && KeyExchangeFits(s, pending[1], master)
      && (if pending[0].chain == [] then |pending| == 2
          else |pending| == 3 && VerifyFits(s, pending[2], pending[0].chain[0].key, s.hash.messages + pending[..2]))
    case WaitClientKeyExchange =>
      && |pending| >= 1 && KeyExchangeFits(s, pending[0], master)
      && (if s.peerChain == [] then |pending| == 1
          else |pending| == 2 && VerifyFits(s, pending[1], s.peerChain[0].key, s.hash.messages + pending[..1]))
    case WaitClientVerify =>
      && s.masterSecret == master && s.peerChain != [] && |pending| == 1
      && VerifyFits(s, pending[0], s.peerChain[0].key, s.hash.messages)
    case WaitChangeCipherSpec => s.masterSecret == master && pending == []
    case WaitFinished => s.masterSecret == master && pending == []
    case _ => false
  }

  /** A server that is still to read the client's change_cipher_spec or, then, its Finished. */
  ghost predicate Expecting(c: Client.Client, s: Server.Server) {
    match s.stage
    case WaitChangeCipherSpec => s.inSpec == Plaintext && s.nextIn == ClientSpecOf(c)
    case WaitFinished => s.inSpec == ClientSpecOf(c)
    case _ => s.inSpec == Plaintext
  }

  function FinalRecords(c: Client.Client, s: Server.Server, finished: Message): seq<Wire> {
    (if s.stage == Server.WaitFinished then [] else [Wire(Plaintext, ChangeCipherSpec)])
    + [Wire(ClientSpecOf(c), Handshake(finished))]
  }

  ghost predicate ClientFlight(c: Client.Client, s: Server.Server, pending: seq<Message>, toServer: seq<Wire>,
                               sc: Server.ServerConfig) {
    var finished := FinishedBy(s.hash, s.hash.messages + pending, "client finished", c.masterSecret);
    && Paired(c, s) && s.cfg == sc && !s.resumed && c.issued.None?
    && c.stage == (if s.hello.ticketSupported then Client.WaitTicket else Client.WaitChangeCipherSpec)
    && c.inSpec == Plaintext && c.nextIn == ServerSpecOf(c) && c.outSpec == ClientSpecOf(c)
    && s.outSpec == Plaintext && Expecting(c, s)
    && (s.stage in {Server.WaitChangeCipherSpec, Server.WaitFinished} ==> s.nextOut == ServerSpecOf(c))
    && (s.stage == Server.WaitClientCertificate ==> s.peerChain == [])
    && (s.stage !in {Server.WaitChangeCipherSpec, Server.WaitFinished} && s.vers >= TLS12 && Server.RequestsClientCert(sc) ==>
          s.hash.buffer.Some?)
    && (s.stage == Server.WaitClientCertificate || s.peerChain != [] ==> Server.RequestsClientCert(sc))
    && PendingFits(s, pending, c.masterSecret)
    && c.hash.messages == s.hash.messages + pending + [finished]
    && toServer == Plain(pending) + FinalRecords(c, s, finished)
  }

  // ---------- the server's ticket and Finished ----------

  function TicketMsg(s: Server.Server): Message {
    NewSessionTicket(Ticket(if s.cfg.ticketKeys == [] then 0 else s.cfg.ticketKeys[0], Server.TicketState(s)))
  }

  /** Records and transcript of what the server sends last, for a client at this stage with these messages. */
  datatype Final = Final(records: seq<Wire>, messages: seq<Message>)

  function FinalFor(stage: Client.ClientStage, s: Server.Server, spec: CipherSpec, t: seq<Message>): Final {
    match stage
    case WaitTicket =>
      var m := TicketMsg(s);
      var rest := FinishedAfter(s, spec, t + [m]);
      Final([Wire(Plaintext, Handshake(m)), Wire(Plaintext, ChangeCipherSpec)] + rest.records, rest.messages)
    case WaitChangeCipherSpec =>
      var rest := FinishedAfter(s, spec, t);
      Final([Wire(Plaintext, ChangeCipherSpec)] + rest.records, rest.messages)
    case _ => FinishedAfter(s, spec, t)
  }

  function FinishedAfter(s: Server.Server, spec: CipherSpec, t: seq<Message>): Final {
    var m := FinishedBy(s.hash, t, "server finished", s.masterSecret);
    Final([Wire(spec, Handshake(m))], t + [m])
  }

  function FirstFinalStage(s: Server.Server): Client.ClientStage {
    if s.hello.ticketSupported then Client.WaitTicket else Client.WaitChangeCipherSpec
  }

  /** A server that has sent its Finished. */
  ghost predicate Closed(s: Server.Server, block: KeyBlock, sc: Server.ServerConfig) {
    && s.cfg == sc && s.outSpec == ServerSpec(s.vers, s.suite, block)
    && (s.hello.ticketSupported ==> sc.ticketKeys != [])
    && if s.resumed then
         s.stage == Server.WaitChangeCipherSpec && s.inSpec == Plaintext && s.nextIn == ClientSpec(s.vers, s.suite, block)
       else s.stage == Server.Completed && s.inSpec == ClientSpec(s.vers, s.suite, block)
  }

  ghost predicate Resumed(c: Client.Client, s: Server.Server, toClient: seq<Wire>, sc: Server.ServerConfig) {
    var final := FinalFor(FirstFinalStage(s), s, s.outSpec, [ClientHelloMsg(c.hello), ServerHelloMsg(s.hello)]);
    && Offering(c, sc.ticketKeys) && Acceptable(c, s) && s.resumed
    && HashOf(s.hash, s.vers, s.suite) && Closed(s, Server.Keys(s), sc)
    && s.hello.sessionId == c.hello.sessionId && c.session.Some? && c.session.value.vers == s.vers
    && c.session.value.cipherSuite == s.suite.id && c.session.value.masterSecret == s.masterSecret
    && s.hash.messages == final.messages
    && toClient == Plain([ServerHelloMsg(s.hello)]) + final.records
  }

  /** A session taken from a ticket of this server. */
  ghost predicate Issued(session: Client.Session, c: Client.Client, s: Server.Server) {
    && session.ticket == TicketMsg(s).ticket && s.cfg.ticketKeys != []
    && session.vers == c.vers && session.cipherSuite == c.suite.id && session.masterSecret == c.masterSecret
  }

  ghost predicate Closing(c: Client.Client, s: Server.Server, toClient: seq<Wire>, sc: Server.ServerConfig) {
    var final := FinalFor(c.stage, s, s.outSpec, c.hash.messages);
    && Paired(c, s) && Closed(s, Client.Keys(c), sc) && s.masterSecret == c.masterSecret
    && c.stage in {Client.WaitTicket, Client.WaitChangeCipherSpec, Client.WaitFinished}
    && (c.stage == Client.WaitTicket ==> s.hello.ticketSupported && c.issued.None?)
    && (if c.stage == Client.WaitFinished then c.inSpec == ServerSpecOf(c)
        else c.inSpec == Plaintext && c.nextIn == ServerSpecOf(c))
    && (if s.resumed then c.outSpec == Plaintext && c.nextOut == ClientSpecOf(c) else c.outSpec == ClientSpecOf(c))
    && (c.issued.Some? ==> Issued(c.issued.value, c, s))
    && s.hash.messages == final.messages && toClient == final.records
  }

  // ---------- the end ----------

  /** Everything both sides hold alike once they are done. */
  ghost predicate Agreed(c: Client.Client, s: Server.Server, sc: Server.ServerConfig) {
    && s.cfg == sc && c.stage == Client.Established
    && s.clientHello == c.hello && c.serverHello == s.hello && c.vers == s.vers && c.suite == s.suite
    && c.resumed == s.resumed && c.alpn == s.alpn && c.masterSecret == s.masterSecret
    && HashOf(s.hash, c.vers, c.suite)
    && c.inSpec == s.outSpec == ServerSpecOf(c) && c.outSpec == ClientSpecOf(c)
    && (c.stored.Some? ==> c.cfg.ticketsEnabled && Issued(c.stored.value, c, s))
    && (s.hello.ticketSupported ==> c.cfg.ticketsEnabled)
  }

  /** A resumed client is done and its Finished is on its way. */
  ghost predicate Confirming(c: Client.Client, s: Server.Server, toServer: seq<Wire>, sc: Server.ServerConfig) {
    var finished := FinishedBy(s.hash, s.hash.messages, "client finished", c.masterSecret);
    && Agreed(c, s, sc) && s.resumed
    && s.stage in {Server.WaitChangeCipherSpec, Server.WaitFinished} && Expecting(c, s)
    && c.hash.messages == s.hash.messages + [finished]
    && toServer == FinalRecords(c, s, finished)
  }

  ghost predicate Done(c: Client.Client, s: Server.Server, sc: Server.ServerConfig) {
    Agreed(c, s, sc) && s.stage == Server.Completed && s.inSpec == c.outSpec && c.hash.messages == s.hash.messages
  }

  ghost predicate Phase(c: Client.Client, s: Server.Server, toServer: seq<Wire>, toClient: seq<Wire>, sc: Server.ServerConfig) {
    || (Offering(c, sc.ticketKeys) && s == Server.Init(sc) && toServer == Plain([ClientHelloMsg(c.hello)]) && toClient == [])
    || (Answered(c, s, toClient, sc) && toServer == [])
    || (Resumed(c, s, toClient, sc) && toServer == [])
    || (Reading(c, s, toClient, sc) && toServer == [])
    || ((exists pending :: ClientFlight(c, s, pending, toServer, sc)) && toClient == [])
    || (Closing(c, s, toClient, sc) && toServer == [])
    || (Confirming(c, s, toServer, sc) && toClient == [])
    || (Done(c, s, sc) && toServer == [] && toClient == [])
  }

  /** What holds of every reachable system of this server configuration. */
  ghost predicate Invariant(sys: System, sc: Server.ServerConfig) {
    if sys.failure.Some? then sys.failure.value.Configuration?
    else Phase(sys.client, sys.server, sys.toServer, sys.toClient, sc)
  }
}
