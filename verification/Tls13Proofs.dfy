/** Every step keeps the invariant of Tls13Run, and what follows for whole runs. */
module Tls13Proofs {
  import opened Outcomes
  import opened Symbolic
  import opened Tls13Config
  import opened Tls13Client
  import opened Tls13Run
  import Server = Tls13Server
  import Client = Tls13Client

  // ---------- the client's first hello ----------

  lemma StartOffers(cc: ClientConfig, keys: seq<nat>)
    requires Client.Start(cc).Ok? && (cc.cached.Some? ==> IssuedBy(cc.cached.value, keys))
    ensures var (c, sent) := Client.Start(cc).value;
      Offering(c, keys, []) && c.stage == WaitServerHello && c.suite.None? && c.transcript == []
      && sent == [Wire(Nil, ClientHelloMsg(c.hello))] && c.hello.cookie == []
  {
    var (c, sent) := Client.Start(cc).value;
    var (made, ecdhe) := MakeClientHello(cc).value;
    var offer := LoadSession(cc, made);
    if c.hello.pskIdentities != [] {
      var h := CipherSuiteTls13ById(cc.cached.value.cipherSuite).value.hash;
      var hello := made.(ticketSupported := true, pskModes := [PSK_MODE_DHE]);
      var offering := hello.(
              pskIdentities := [PskIdentity(cc.cached.value.ticket, ObfuscatedAge(cc.cached.value, cc.loadTime))],
              pskBinders := [Zeros(h)]);
      SamePrefix(offering, c.hello);
      assert [] + [WithoutBinders(c.hello)] == [WithoutBinders(offering)];
    }
  }

  /** Replacing binders one for one leaves the octets they are computed over unchanged. */
  lemma SamePrefix(a: ClientHello, b: ClientHello)
    requires a.(pskBinders := b.pskBinders) == b && |a.pskBinders| == |b.pskBinders|
    ensures WithoutBinders(a) == WithoutBinders(b)
  {
    assert seq(|a.pskBinders|, (_: int) => Nil) == seq(|b.pskBinders|, (_: int) => Nil);
  }

  // ---------- the server's answer ----------

  /** The server state in which an acceptable hello is answered. */
  ghost predicate ReadyToAnswer(c: Client.Client, s: Server.Server, group: nat, share: KeyShare) {
    && s.inSecret == Nil && s.outSecret == Nil && s.earlySecret == Nil && !s.usingPsk && s.peerChain == []
    && s.clientHello == Some(c.hello)
    && s.suite.id in c.hello.cipherSuites && CipherSuiteTls13ById(s.suite.id) == Some(s.suite)
    && (c.suite.Some? ==> c.suite == Some(s.suite))
    && s.hello == Server.EMPTY_HELLO.(vers := VERSION_TLS12, supportedVersion := VERSION_TLS13,
         random := Random(s.cfg.random), sessionId := c.hello.sessionId, cipherSuite := s.suite.id)
    && group == share.group == c.ecdhe.group && share.data == c.ecdhe.Public()
    && s.transcript == Before(c)
    && Prior(c) == Before(c) + [Whole(ClientHelloMsg(c.hello))]
  }

  /** Binders that agree were made from the same early secret. */
  lemma BinderBinds(h: Hash, earlySecret: Term, t: Transcript, h': Hash, earlySecret': Term, t': Transcript)
    requires FinishedHash(h, DeriveSecret(h, earlySecret, RESUMPTION_BINDER_LABEL, []), t)
      == FinishedHash(h', DeriveSecret(h', earlySecret', RESUMPTION_BINDER_LABEL, []), t')
    ensures h == h' && earlySecret == earlySecret'
  {
  }

  /** What comes of the ticket: no resumption, the PSK both sides know, or a tolerated failure. */
  ghost predicate Resumes(c: Client.Client, s: Server.Server, r: Result<Server.Server>, keys: seq<nat>) {
    match r
    case Fail(e) => Tolerated(e, s.cfg, keys)
    case Ok(s1) =>
      if s1.usingPsk then
        c.hello.pskIdentities != [] && SessionHash(c) == s.suite.hash
        && s1 == s.(usingPsk := true, earlySecret := c.earlySecret, peerChain := s1.peerChain,
                    hello := s.hello.(selectedIdentityPresent := true))
        && c.earlySecret != Nil
      else s1 == s
  }

  lemma IdentityTried(c: Client.Client, s: Server.Server, keys: seq<nat>, state: SessionState)
    requires Offering(c, keys, s.transcript) && s.earlySecret == Nil && !s.usingPsk && c.hello.pskIdentities != []
    requires s.hello.selectedIdentity == 0 && !s.hello.selectedIdentityPresent
    requires Server.DecryptTicket(s.cfg.ticketKeys, c.hello.pskIdentities[0].ticket) == Some(state) && Server.Resumable(s, state)
    ensures Resumes(c, s, Server.TryIdentities(s, c.hello, 0), keys)
  {
    BinderDecides(c, s, keys, state);
  }

  /** For a ticket this server issued the comparison succeeds; for any other, when it succeeds the secrets are the same. */
  lemma ResumptionAgrees(c: Client.Client, s: Server.Server, keys: seq<nat>)
    requires Offering(c, keys, s.transcript) && s.earlySecret == Nil && !s.usingPsk
    requires s.hello.selectedIdentity == 0 && !s.hello.selectedIdentityPresent
    ensures Resumes(c, s, Server.CheckForResumption(s, c.hello), keys)
  {
    if c.hello.pskIdentities != [] {
      var state := Server.DecryptTicket(s.cfg.ticketKeys, c.hello.pskIdentities[0].ticket);
      assert Server.TryIdentities(s, c.hello, 1) == Ok(s);
      if state.Some? && Server.Resumable(s, state.value) {
        IdentityTried(c, s, keys, state.value);
      }
    }
  }

  lemma BinderDecides(c: Client.Client, s: Server.Server, keys: seq<nat>, state: SessionState)
    requires Offering(c, keys, s.transcript) && c.hello.pskIdentities != []
    requires Server.DecryptTicket(s.cfg.ticketKeys, c.hello.pskIdentities[0].ticket) == Some(state) && Server.Resumable(s, state)
    ensures var earlySecret := Server.EarlySecretFrom(s, state);
      if c.hello.pskBinders[0] == Server.BinderOver(s, c.hello, earlySecret)
      then earlySecret == c.earlySecret != Nil && SessionHash(c) == s.suite.hash
      else keys != s.cfg.ticketKeys
  {
    var earlySecret := Server.EarlySecretFrom(s, state);
    if c.hello.pskBinders[0] == Server.BinderOver(s, c.hello, earlySecret) {
      BinderBinds(SessionHash(c), c.earlySecret, s.transcript + [WithoutBinders(c.hello)],
                  s.suite.hash, earlySecret, s.transcript + [WithoutBinders(c.hello)]);
    }
  }

  /** The state between checkForResumption and sendServerParameters. */
  ghost predicate Agreed(c: Client.Client, s: Server.Server, s2: Server.Server) {
    && s2 == s.(group := c.ecdhe.group, sharedKey := s2.sharedKey, usingPsk := s2.usingPsk, earlySecret := s2.earlySecret,
                peerChain := s2.peerChain,
                hello := s.hello.(serverShare := s2.hello.serverShare, selectedIdentityPresent := s2.usingPsk))
    && s2.hello.serverShare.group == c.ecdhe.group
    && c.ecdhe.Shared(s2.hello.serverShare.data) == s2.sharedKey != Nil
    && (s2.usingPsk ==>
         c.hello.pskIdentities != [] && c.session.Some?
         && CipherSuiteTls13ById(c.session.value.cipherSuite).Some? && SessionHash(c) == s.suite.hash)
    && s2.earlySecret == (if s2.usingPsk then c.earlySecret else Nil) && (s2.usingPsk ==> c.earlySecret != Nil)
  }

  ghost predicate Picked(s: Server.Server, scheme: nat) {
    s.clientHello.Some?
    && Server.PickCertificate(s.usingPsk, s.cfg.identity, s.clientHello.value.supportedSignatureAlgorithms) == Ok(scheme)
  }

  lemma CertificateFlight(s3: Server.Server, scheme: nat)
    requires s3.clientHello.Some? && Picked(s3, scheme)
    ensures match Server.SendServerCertificate(s3, scheme)
      case Fail(e) => e.Configuration?
      case Ok((s4, certificates)) =>
        var finished := FinishedMsg(s3.suite.hash, s3.outSecret, s4.transcript);
        && s4 == s3.(transcript := s4.transcript)
        && FromAuthentication(ScriptOf(s3), s3.outSecret, s3.transcript)
           == Rest(certificates + [Wire(s3.outSecret, finished)], s4.transcript + [Whole(finished)])
  {
    var secret, script := s3.outSecret, ScriptOf(s3);
    if !s3.usingPsk && s3.cfg.identity.Some? {
      assert SchemeOf(s3) == scheme;
      var (s4, certificates) := Server.SendServerCertificate(s3, scheme).value;
      var finished := FinishedMsg(s3.suite.hash, secret, s4.transcript);
      var t := if Server.RequestClientCert(s3) then s3.transcript + [Whole(Server.CertRequest(s3))] else s3.transcript;
      var t1 := t + [Whole(ChainMsg(script))];
      var rest := FromCertificate(script, secret, t);
      assert s4.transcript == t1 + [Whole(VerifyMsg(script, t1))];
      assert rest.flight == [Wire(secret, ChainMsg(script)), Wire(secret, VerifyMsg(script, t1)), Wire(secret, finished)];
    }
  }

  /** How sendServerFinished leaves the server: the state the invariants describe, and what it sent. */
  ghost predicate FinishedSent(s4: Server.Server, s': Server.Server, sent: seq<Wire>, hello: ClientHello) {
    var finished := FinishedMsg(s4.suite.hash, s4.outSecret, s4.transcript);
    && Responded(s', hello, s4.transcript + [Whole(finished)])
    && ScriptOf(s') == ScriptOf(s4) && s'.inSecret == s4.inSecret && s'.handshakeSecret == s4.handshakeSecret
    && s'.hello == s4.hello && s'.sharedKey == s4.sharedKey && s'.suite == s4.suite && s'.cfg == s4.cfg
    && sent == [Wire(s4.outSecret, finished)] + EarlyTickets(s')
  }

  ghost predicate BeforeFinished(s4: Server.Server, hello: ClientHello, scheme: nat) {
    s4.clientHello == Some(hello) && Picked(s4, scheme) && AlpnAcceptable(hello.alpnProtocols, s4.alpn)
  }

  /** The server after its Finished, before any ticket. */
  function WithFinished(s: Server.Server, t: Transcript): Server.Server {
    var h := s.suite.hash;
    var masterSecret := MasterSecret(h, s.handshakeSecret);
    s.(transcript := t, masterSecret := masterSecret,
       trafficSecret := DeriveSecret(h, masterSecret, CLIENT_APPLICATION_LABEL, t),
       outSecret := DeriveSecret(h, masterSecret, SERVER_APPLICATION_LABEL, t),
       exporter := DeriveSecret(h, masterSecret, EXPORTER_LABEL, t))
  }

  lemma FinishedRequested(s: Server.Server)
    requires Server.RequestClientCert(s)
    ensures var finished := FinishedMsg(s.suite.hash, s.outSecret, s.transcript);
      Server.SendServerFinished(s) == Ok((WithFinished(s, s.transcript + [Whole(finished)]), [Wire(s.outSecret, finished)]))
  {
  }

  lemma RequestResponded(s4: Server.Server, s': Server.Server, hello: ClientHello, scheme: nat)
    requires BeforeFinished(s4, hello, scheme) && Server.RequestClientCert(s4)
    requires s' == WithFinished(s4, s4.transcript + [Whole(FinishedMsg(s4.suite.hash, s4.outSecret, s4.transcript))])
                     .(stage := Server.WaitClientCertificate)
    ensures FinishedSent(s4, s', [Wire(s4.outSecret, FinishedMsg(s4.suite.hash, s4.outSecret, s4.transcript))], hello)
  {
    assert ScriptOf(s') == ScriptOf(s4);
  }

  lemma FinishedWithRequest(s4: Server.Server, hello: ClientHello, scheme: nat)
    requires BeforeFinished(s4, hello, scheme) && Server.RequestClientCert(s4)
    ensures Server.SendServerFinished(s4).Ok?
    ensures var (s5, sent) := Server.SendServerFinished(s4).value; FinishedSent(s4, Server.AwaitClient(s5), sent, hello)
  {
    FinishedRequested(s4);
    RequestResponded(s4, Server.AwaitClient(Server.SendServerFinished(s4).value.0), hello, scheme);
  }

  lemma FinishedWithoutRequest(s4: Server.Server, hello: ClientHello, scheme: nat)
    requires BeforeFinished(s4, hello, scheme) && !Server.RequestClientCert(s4)
    ensures match Server.SendServerFinished(s4)
      case Fail(e) => e.Configuration?
      case Ok((s5, sent)) => FinishedSent(s4, Server.AwaitClient(s5), sent, hello)
  {
    if Server.SendServerFinished(s4).Ok? {
      var (s5, sent) := Server.SendServerFinished(s4).value;
      var s' := Server.AwaitClient(s5);
      assert ScriptOf(s') == ScriptOf(s4);
      assert TicketsSent(s', s4.transcript + [Whole(FinishedMsg(s4.suite.hash, s4.outSecret, s4.transcript))]);
    }
  }

  lemma FinishedResponds(s4: Server.Server, hello: ClientHello, scheme: nat)
    requires BeforeFinished(s4, hello, scheme)
    ensures match Server.SendServerFinished(s4)
      case Fail(e) => e.Configuration?
      case Ok((s5, sent)) => FinishedSent(s4, Server.AwaitClient(s5), sent, hello)
  {
    if Server.RequestClientCert(s4) {
      FinishedWithRequest(s4, hello, scheme);
    } else {
      FinishedWithoutRequest(s4, hello, scheme);
    }
  }

  /** How sendServerParameters leaves the server, for a client that is still waiting for its ServerHello. */
  ghost predicate ParametersSent(c: Client.Client, s3: Server.Server, parameters: seq<Wire>) {
    var t := Prior(c) + [Whole(ServerHelloMsg(s3.hello))];
    var extensions := EncryptedExtensions(s3.alpn);
    && Answers(c, s3, t) && s3.clientHello == Some(c.hello)
    && AlpnAcceptable(c.hello.alpnProtocols, s3.alpn)
    && s3.outSecret == DeriveSecret(s3.suite.hash, s3.handshakeSecret, SERVER_HANDSHAKE_LABEL, t)
    && s3.transcript == t + [Whole(extensions)]
    && parameters == [Wire(Nil, ServerHelloMsg(s3.hello)), Wire(s3.outSecret, extensions)]
  }

  lemma ParametersAnswer(c: Client.Client, s: Server.Server, s2: Server.Server, scheme: nat)
    requires Agreed(c, s, s2) && ReadyToAnswer(c, s, c.ecdhe.group, KeyShare(c.ecdhe.group, c.ecdhe.Public()))
    requires Picked(s2, scheme)
    ensures match Server.SendServerParameters(s2, c.hello)
      case Fail(e) => e.Configuration?
      case Ok((s3, parameters)) => ParametersSent(c, s3, parameters) && Picked(s3, scheme) && s3.cfg == s.cfg
  {
    var t := Prior(c) + [Whole(ServerHelloMsg(s2.hello))];
    assert t == s2.transcript + [Whole(ClientHelloMsg(c.hello)), Whole(ServerHelloMsg(s2.hello))];
    if Server.SendServerParameters(s2, c.hello).Ok? {
      var (s3, parameters) := Server.SendServerParameters(s2, c.hello).value;
      ParametersAgree(c, s, s2, s3, t);
    }
  }

  lemma ParametersAgree(c: Client.Client, s: Server.Server, s2: Server.Server, s3: Server.Server, t: Transcript)
    requires Agreed(c, s, s2) && ReadyToAnswer(c, s, c.ecdhe.group, KeyShare(c.ecdhe.group, c.ecdhe.Public()))
    requires s3 == s2.(handshakeSecret := s3.handshakeSecret, inSecret := s3.inSecret, outSecret := s3.outSecret,
                       alpn := s3.alpn, transcript := s3.transcript)
    requires s3.handshakeSecret == HandshakeSecret(s.suite.hash, s2.sharedKey,
      if s2.earlySecret == Nil then Extract(s.suite.hash, Nil, Nil) else s2.earlySecret)
    requires s3.inSecret == DeriveSecret(s.suite.hash, s3.handshakeSecret, CLIENT_HANDSHAKE_LABEL, t)
    ensures Answers(c, s3, t)
  {
  }

  lemma FlightConcatenates(c: Client.Client, s3: Server.Server, s4: Server.Server, s': Server.Server, keys: seq<nat>,
                           parameters: seq<Wire>, certificates: seq<Wire>, finished: seq<Wire>)
    requires c.stage in {WaitServerHello, WaitSecondServerHello}
    requires Offering(c, keys, Before(c))
    requires ParametersSent(c, s3, parameters)
    requires s4 == s3.(transcript := s4.transcript)
    requires FromAuthentication(ScriptOf(s3), s3.outSecret, s3.transcript)
      == Rest(certificates + [Wire(s3.outSecret, FinishedMsg(s3.suite.hash, s3.outSecret, s4.transcript))],
              s4.transcript + [Whole(FinishedMsg(s3.suite.hash, s3.outSecret, s4.transcript))])
    requires FinishedSent(s4, s', finished, c.hello)
    ensures Answered(c, s', parameters + certificates + finished, s3.cfg, keys)
  {
    var secret := s3.outSecret;
    var t := Prior(c) + [Whole(ServerHelloMsg(s3.hello))];
    assert ScriptOf(s4) == ScriptOf(s3);
    AnswersStill(c, s3, s', t);
    Regroup(Wire(Nil, ServerHelloMsg(s3.hello)), Wire(secret, EncryptedExtensions(s3.alpn)), certificates,
            [Wire(secret, FinishedMsg(s3.suite.hash, secret, s4.transcript))], EarlyTickets(s'));
  }

  lemma AnswersStill(c: Client.Client, s: Server.Server, s': Server.Server, t: Transcript)
    requires Answers(c, s, t)
    requires s'.hello == s.hello && s'.cfg == s.cfg && s'.suite == s.suite && s'.sharedKey == s.sharedKey
    requires s'.handshakeSecret == s.handshakeSecret && s'.inSecret == s.inSecret && s'.usingPsk == s.usingPsk
    ensures Answers(c, s', t)
  {
  }

  lemma Regroup<T>(a: T, b: T, c: seq<T>, d: seq<T>, e: seq<T>)
    ensures [a, b] + c + (d + e) == [a] + ([b] + (c + d)) + e
  {
  }

  lemma LastAnswers(c: Client.Client, s3: Server.Server, s4: Server.Server, scheme: nat, keys: seq<nat>,
                    parameters: seq<Wire>, certificates: seq<Wire>)
    requires c.stage in {WaitServerHello, WaitSecondServerHello}
    requires Offering(c, keys, Before(c))
    requires ParametersSent(c, s3, parameters) && Picked(s3, scheme)
    requires s4 == s3.(transcript := s4.transcript)
    requires FromAuthentication(ScriptOf(s3), s3.outSecret, s3.transcript)
      == Rest(certificates + [Wire(s3.outSecret, FinishedMsg(s3.suite.hash, s3.outSecret, s4.transcript))],
              s4.transcript + [Whole(FinishedMsg(s3.suite.hash, s3.outSecret, s4.transcript))])
    ensures AnsweredBy(c, Server.SendFromFinished(s4, parameters + certificates), s3.cfg, keys)
  {
    FinishedResponds(s4, c.hello, scheme);
    match Server.SendServerFinished(s4)
    case Fail(e) =>
    case Ok((s5, finished)) =>
      FlightConcatenates(c, s3, s4, Server.AwaitClient(s5), keys, parameters, certificates, finished);
  }

  lemma FlightAnswers(c: Client.Client, s: Server.Server, s2: Server.Server, scheme: nat, keys: seq<nat>)
    requires Offering(c, keys, s.transcript) && ReadyToAnswer(c, s, c.ecdhe.group, KeyShare(c.ecdhe.group, c.ecdhe.Public()))
    requires c.stage in {WaitServerHello, WaitSecondServerHello}
    requires Agreed(c, s, s2)
    requires Picked(s2, scheme)
    ensures AnsweredBy(c, Server.SendFlight(s2, c.hello, scheme), s.cfg, keys)
  {
    ParametersAnswer(c, s, s2, scheme);
    match Server.SendServerParameters(s2, c.hello)
    case Fail(e) =>
    case Ok((s3, parameters)) =>
      CertificateFlight(s3, scheme);
      match Server.SendServerCertificate(s3, scheme)
      case Fail(e) =>
      case Ok((s4, certificates)) =>
        LastAnswers(c, s3, s4, scheme, keys, parameters, certificates);
        assert AnsweredBy(c, Server.SendFromCertificate(s3, scheme, parameters), s.cfg, keys);
  }

  /** The outcome of answering: a failure the configurations account for, or the invariant of an answered client. */
  ghost predicate AnsweredBy(c: Client.Client, r: Result<(Server.Server, seq<Wire>)>, sc: Server.ServerConfig, keys: seq<nat>) {
    match r
    case Fail(e) => Tolerated(e, sc, keys)
    case Ok((s, sent)) => Answered(c, s, sent, sc, keys)
  }

  lemma AgreesOnKeys(c: Client.Client, s: Server.Server, group: nat, share: KeyShare, keys: seq<nat>)
    requires Offering(c, keys, s.transcript) && ReadyToAnswer(c, s, group, share)
    ensures match Server.AgreeOnKey(s, group, share)
      case Fail(e) => e.Configuration?
      case Ok(s1) =>
        match Server.CheckForResumption(s1, c.hello)
        case Fail(e) => Tolerated(e, s.cfg, keys)
        case Ok(s2) => Agreed(c, s, s2)
  {
    DiffieHellmanCommutes(Ecdhe(group, s.cfg.exponent), c.ecdhe);
    if Server.AgreeOnKey(s, group, share).Ok? {
      ResumptionAgrees(c, Server.AgreeOnKey(s, group, share).value, keys);
    }
  }

  /** The answer to an accepted hello is the flight the client's invariant describes. */
  lemma RespondAnswers(c: Client.Client, s: Server.Server, group: nat, share: KeyShare, keys: seq<nat>)
    requires Offering(c, keys, s.transcript) && ReadyToAnswer(c, s, group, share)
    requires c.stage in {WaitServerHello, WaitSecondServerHello}
    ensures AnsweredBy(c, Server.Respond(s, c.hello, group, share), s.cfg, keys)
  {
    AgreesOnKeys(c, s, group, share, keys);
    var a1 := Server.AgreeOnKey(s, group, share);
    if a1.Ok? {
      var a2 := Server.CheckForResumption(a1.value, c.hello);
      if a2.Ok? {
        var s2 := a2.value;
        var a3 := Server.PickCertificate(s2.usingPsk, s2.cfg.identity, c.hello.supportedSignatureAlgorithms);
        if a3.Ok? {
          FlightAnswers(c, s, s2, a3.value, keys);
        }
      }
    }
  }

  // ---------- first hello and HelloRetryRequest ----------

  /** A server that has accepted the parameters of the first hello. */
  ghost predicate Negotiated(c: Client.Client, s: Server.Server, sc: Server.ServerConfig) {
    && s.cfg == sc && s.clientHello == Some(c.hello) && s.transcript == [] && s.stage == Server.WaitClientHello
    && s.inSecret == Nil && s.outSecret == Nil && s.earlySecret == Nil && !s.usingPsk && s.peerChain == []
    && s.suite.id in c.hello.cipherSuites && CipherSuiteTls13ById(s.suite.id) == Some(s.suite)
    && s.hello == Server.EMPTY_HELLO.(vers := VERSION_TLS12, supportedVersion := VERSION_TLS13,
         random := Random(s.cfg.random), sessionId := c.hello.sessionId, cipherSuite := s.suite.id)
  }

  lemma ParametersNegotiated(c: Client.Client, sc: Server.ServerConfig, keys: seq<nat>)
    requires Offering(c, keys, [])
    ensures match Server.NegotiateParameters(Server.Init(sc), c.hello)
      case Fail(e) => e.Configuration?
      case Ok(s) => Negotiated(c, s, sc)
  {
    NoFallback(c.hello.cipherSuites, sc.supportedVersions);
  }

  /** The server on the first hello: a retry for a group the client supports but sent no share for, or an answer. */
  lemma FirstHelloAnswered(c: Client.Client, sc: Server.ServerConfig, keys: seq<nat>)
    requires Offering(c, keys, []) && c.stage == WaitServerHello && c.suite.None?
    ensures match Server.OnFirstClientHello(Server.Init(sc), c.hello)
      case Fail(e) => Tolerated(e, sc, keys)
      case Ok((s, sent)) =>
        if s.stage == Server.WaitSecondClientHello then RetrySent(c, s, sent, sc)
        else Answered(c, s, sent, sc, keys)
  {
    ParametersNegotiated(c, sc, keys);
    var n := Server.NegotiateParameters(Server.Init(sc), c.hello);
    if n.Ok? {
      var choice := SelectGroup(sc.curves, c.hello, 0);
      if choice.group != 0 {
        if choice.share.Some? {
          FirstHelloWithShare(c, n.value, choice.group, choice.share.value, sc, keys);
        } else {
          RetryAsked(c, n.value, choice.group, sc);
        }
      }
    }
  }

  lemma FirstHelloWithShare(c: Client.Client, s: Server.Server, group: nat, share: KeyShare, sc: Server.ServerConfig, keys: seq<nat>)
    requires Offering(c, keys, []) && c.stage == WaitServerHello && c.suite.None? && Negotiated(c, s, sc)
    requires share in c.hello.keyShares && share.group == group
    ensures AnsweredBy(c, Server.Respond(s, c.hello, group, share), sc, keys)
    ensures Waits(Server.Respond(s, c.hello, group, share))
  {
    assert [] + [Whole(ClientHelloMsg(c.hello))] == Prior(c);
    RespondAnswers(c, s, group, share, keys);
    AnswerWaits(s, c.hello, group, share);
  }

  lemma RetryAsked(c: Client.Client, s: Server.Server, group: nat, sc: Server.ServerConfig)
    requires Negotiated(c, s, sc) && c.hello.keyShares == [KeyShare(c.ecdhe.group, c.ecdhe.Public())]
    requires SelectGroup(sc.curves, c.hello, 0) == GroupChoice(group, None) && group != 0
    ensures var (s', sent) := Server.DoHelloRetryRequest(s, c.hello, group); RetrySent(c, s', sent, sc)
  {
    assert c.hello.keyShares[0] in c.hello.keyShares;
  }

  /** An answering server waits for the client's second flight. */
  ghost predicate Waits(r: Result<(Server.Server, seq<Wire>)>) {
    match r
    case Fail(e) => true
    case Ok((s, sent)) => s.stage in {Server.WaitClientCertificate, Server.WaitClientFinished}
  }

  lemma FinishedWaits(s: Server.Server, sent: seq<Wire>)
    ensures Waits(Server.SendFromFinished(s, sent))
  {
  }

  lemma FlightWaits(s: Server.Server, ch: ClientHello, scheme: nat)
    ensures Waits(Server.SendFlight(s, ch, scheme))
  {
    match Server.SendServerParameters(s, ch)
    case Fail(e) =>
    case Ok((s3, parameters)) =>
      match Server.SendServerCertificate(s3, scheme)
      case Fail(e) =>
      case Ok((s4, certificates)) => FinishedWaits(s4, parameters + certificates);
  }

  lemma AnswerWaits(s: Server.Server, ch: ClientHello, group: nat, share: KeyShare)
    ensures Waits(Server.Respond(s, ch, group, share))
  {
    var a1 := Server.AgreeOnKey(s, group, share);
    if a1.Ok? {
      var a2 := Server.CheckForResumption(a1.value, ch);
      if a2.Ok? {
        var scheme := Server.PickCertificate(a2.value.usingPsk, a2.value.cfg.identity, ch.supportedSignatureAlgorithms);
        if scheme.Ok? {
          FlightWaits(a2.value, ch, scheme.value);
        }
      }
    }
  }

  lemma NoFallback(suites: seq<nat>, versions: seq<Version>)
    ensures !exists v :: v in versions && v > VERSION_TLS13
  {
  }

  /** The client after a retry that it has checked and whose key share it has replaced. */
  function AfterRetry(c1: Client.Client, suite: Suite, retried: Transcript): Client.Client {
    match Client.RetryBinders(c1, suite, retried)
    case Fail(_) => c1
    case Ok(c2) => c2.(transcript := retried + [Whole(ClientHelloMsg(c2.hello))], stage := WaitSecondServerHello)
  }

  lemma RetryChecked(c: Client.Client, s: Server.Server, retry: ServerHello, sc: Server.ServerConfig)
    requires AwaitingSecondHello(s, c.hello, sc) && c.suite.None? && retry == Server.HelloRetryRequest(s, s.group)
    ensures Client.CheckServerHelloOrHrr(c, retry) == Ok(c.(suite := Some(s.suite), serverHello := Some(retry)))
  {
  }

  lemma RetryReceived(c: Client.Client, s: Server.Server, retry: ServerHello, c0: Client.Client)
    requires c.stage == WaitServerHello && c.inSecret == Nil && retry.random == RetryRandom && retry.supportedVersion == VERSION_TLS13
    requires Client.CheckServerHelloOrHrr(c, retry) == Ok(c0) && c0.suite == Some(s.suite)
    ensures Client.Receive(c, Wire(Nil, ServerHelloMsg(retry))) == Client.ProcessHelloRetryRequest(c0, s.suite, retry)
  {
  }

  lemma RetryProcessed(c: Client.Client, s: Server.Server, sent: seq<Wire>, sc: Server.ServerConfig, keys: seq<nat>)
    requires Offering(c, keys, []) && c.stage == WaitServerHello && c.suite.None? && c.hello.cookie == []
    requires RetrySent(c, s, sent, sc)
    ensures var c0 := c.(suite := Some(s.suite), serverHello := Some(sent[0].message.serverHello));
      match Client.RetryKeyShare(c0, sent[0].message.serverHello)
      case Fail(e) => e.Configuration? && Client.Receive(c, sent[0]) == Fail(e)
      case Ok(c1) =>
        var c' := AfterRetry(c1, s.suite, s.transcript);
        ShareReplaced(c, c1, s) && Client.Receive(c, sent[0]) == Ok((c', [Wire(Nil, ClientHelloMsg(c'.hello))]))
  {
    var retry := sent[0].message.serverHello;
    var c0 := c.(suite := Some(s.suite), serverHello := Some(retry));
    RetryRead(c, s, sent, sc, keys);
    ShareChosen(c, c0, s, retry);
    RetryHandled(c, c0, s, retry, sc, keys);
  }

  lemma ShareChosen(c: Client.Client, c0: Client.Client, s: Server.Server, retry: ServerHello)
    requires c0 == c.(suite := Some(s.suite), serverHello := Some(retry)) && retry == Server.HelloRetryRequest(s, s.group)
    requires s.group != 0 && s.group in c.hello.supportedCurves && s.group != c.ecdhe.group
    ensures match Client.RetryKeyShare(c0, retry)
      case Fail(e) => e.Configuration?
      case Ok(c1) => ShareReplaced(c, c1, s)
  {
  }

  /** With a share chosen, the client answers the request with its second hello. */
  lemma RetryHandled(c: Client.Client, c0: Client.Client, s: Server.Server, retry: ServerHello, sc: Server.ServerConfig, keys: seq<nat>)
    requires Offering(c, keys, []) && AwaitingSecondHello(s, c.hello, sc)
    requires c0 == c.(suite := Some(s.suite), serverHello := Some(retry)) && retry == Server.HelloRetryRequest(s, s.group)
    ensures match Client.RetryKeyShare(c0, retry)
      case Fail(e) => Client.ProcessHelloRetryRequest(c0, s.suite, retry) == Fail(e)
      case Ok(c1) =>
        var c' := AfterRetry(c1, s.suite, s.transcript);
        Client.ProcessHelloRetryRequest(c0, s.suite, retry) == Ok((c', [Wire(Nil, ClientHelloMsg(c'.hello))]))
  {
    if Client.RetryKeyShare(c0, retry).Ok? {
      RetriedBinders(Client.RetryKeyShare(c0, retry).value, s.suite, s.transcript, keys);
    }
  }

  lemma RetryRead(c: Client.Client, s: Server.Server, sent: seq<Wire>, sc: Server.ServerConfig, keys: seq<nat>)
    requires Offering(c, keys, []) && c.stage == WaitServerHello && c.suite.None? && RetrySent(c, s, sent, sc)
    ensures var retry := sent[0].message.serverHello;
      Client.Receive(c, sent[0])
      == Client.ProcessHelloRetryRequest(c.(suite := Some(s.suite), serverHello := Some(retry)), s.suite, retry)
  {
    var retry := sent[0].message.serverHello;
    RetryChecked(c, s, retry, sc);
    RetryReceived(c, s, retry, c.(suite := Some(s.suite), serverHello := Some(retry)));
  }

  /** What the key share part of a retry leaves of the client. */
  ghost predicate ShareReplaced(c: Client.Client, c1: Client.Client, s: Server.Server) {
    var ecdhe := Ecdhe(s.group, c.cfg.retryExponent);
    && c1 == c.(suite := Some(s.suite), serverHello := c1.serverHello, ecdhe := ecdhe,
                hello := c.hello.(keyShares := [KeyShare(s.group, ecdhe.Public())]))
    && SupportedCurve(s.group)
  }

  lemma AfterRetryIsRetried(c: Client.Client, c1: Client.Client, s: Server.Server, sc: Server.ServerConfig, keys: seq<nat>)
    requires Offering(c, keys, []) && AwaitingSecondHello(s, c.hello, sc)
    requires ShareReplaced(c, c1, s)
    ensures var c' := AfterRetry(c1, s.suite, s.transcript);
      Retried(c', s, [Wire(Nil, ClientHelloMsg(c'.hello))], sc, keys)
  {
    RetriedBinders(c1, s.suite, s.transcript, keys);
    var c2 := Client.RetryBinders(c1, s.suite, s.transcript).value;
    BindersRetried(c, c1, c2, s, keys);
    SecondHelloSent(c, c2, s, sc, keys);
  }

  lemma SecondHelloSent(c: Client.Client, c2: Client.Client, s: Server.Server, sc: Server.ServerConfig, keys: seq<nat>)
    requires AwaitingSecondHello(s, c.hello, sc) && Offering(c2, keys, s.transcript)
    requires c2.hello == WithAllowedChanges(c.hello, c2.hello) && c2.suite == Some(s.suite) && c2.ecdhe.group == s.group
    ensures var c' := c2.(transcript := s.transcript + [Whole(ClientHelloMsg(c2.hello))], stage := WaitSecondServerHello);
      Retried(c', s, [Wire(Nil, ClientHelloMsg(c2.hello))], sc, keys)
  {
    var t := s.transcript + [Whole(ClientHelloMsg(c2.hello))];
    assert t[..2] == s.transcript;
  }

  /** Only the key share, the identities and the binders of the second hello are new. */
  lemma BindersRetried(c: Client.Client, c1: Client.Client, c2: Client.Client, s: Server.Server, keys: seq<nat>)
    requires Offering(c, keys, []) && ShareReplaced(c, c1, s)
    requires c2 == c1.(hello := c1.hello.(pskIdentities := c2.hello.pskIdentities, pskBinders := c2.hello.pskBinders))
    requires PskOffer(c2, keys, s.transcript)
    ensures Offering(c2, keys, s.transcript) && c2.hello == WithAllowedChanges(c.hello, c2.hello)
  {
  }

  /** The client's reaction: it takes the retry, and its second hello differs from the first only where it may. */
  lemma RetryTaken(c: Client.Client, s: Server.Server, sent: seq<Wire>, sc: Server.ServerConfig, keys: seq<nat>)
    requires Offering(c, keys, []) && c.stage == WaitServerHello && c.suite.None? && c.hello.cookie == []
    requires RetrySent(c, s, sent, sc)
    ensures match Client.Receive(c, sent[0])
      case Fail(e) => e.Configuration?
      case Ok((c', reply)) => Retried(c', s, reply, sc, keys)
  {
    RetryProcessed(c, s, sent, sc, keys);
    var c0 := c.(suite := Some(s.suite), serverHello := Some(sent[0].message.serverHello));
    var shared := Client.RetryKeyShare(c0, sent[0].message.serverHello);
    if shared.Ok? {
      AfterRetryIsRetried(c, shared.value, s, sc, keys);
    }
  }

  /** The binders of the second hello are over the retried transcript. */
  lemma RetriedBinders(c1: Client.Client, suite: Suite, retried: Transcript, keys: seq<nat>)
    requires if c1.hello.pskIdentities == [] then c1.hello.pskBinders == [] else OfferedSession(c1, keys)
    ensures Client.RetryBinders(c1, suite, retried).Ok?
    ensures PskOffer(Client.RetryBinders(c1, suite, retried).value, keys, retried)
  {
    var psk := Client.RetryPsk(c1, suite, retried).value;
    if psk.identities != [] {
      SamePrefix(c1.hello.(pskIdentities := psk.identities),
                 c1.hello.(pskIdentities := psk.identities, pskBinders := psk.binders));
    }
  }

  /** The server on the second hello: it is accepted, and answered like a first one. */
  lemma SecondHelloAnswered(c: Client.Client, s: Server.Server, toServer: seq<Wire>, sc: Server.ServerConfig, keys: seq<nat>)
    requires Retried(c, s, toServer, sc, keys)
    ensures AnsweredBy(c, Server.OnSecondClientHello(s, c.hello), sc, keys)
  {
    RespondAnswers(c, s.(clientHello := Some(c.hello)), s.group, c.hello.keyShares[0], keys);
  }

  // ---------- the client reads the server's flight ----------

  /** The client with the handshake keys of the answering server. */
  function WithHandshakeKeys(c: Client.Client, s: Server.Server, secret: Term, t: Transcript): Client.Client {
    c.(suite := Some(s.suite), serverHello := Some(s.hello), transcript := t, usingPsk := s.usingPsk,
       outSecret := s.inSecret, inSecret := secret, masterSecret := MasterSecret(s.suite.hash, s.handshakeSecret),
       stage := WaitEncryptedExtensions)
  }

  lemma ServerHelloChecked(c: Client.Client, s: Server.Server, t: Transcript)
    requires Answers(c, s, t)
    ensures Client.CheckServerHelloOrHrr(c, s.hello) == Ok(c.(suite := Some(s.suite), serverHello := Some(s.hello)))
    ensures s.hello.supportedVersion == VERSION_TLS13 && s.hello.random != RetryRandom
  {
  }

  /** Both waiting stages come to the same point once the ServerHello has been checked. */
  lemma ServerHelloReceived(c: Client.Client, sh: ServerHello, c0: Client.Client)
    requires c.stage in {WaitServerHello, WaitSecondServerHello} && c.inSecret == Nil
    requires Client.CheckServerHelloOrHrr(c, sh) == Ok(c0) && c0 == c.(suite := c0.suite, serverHello := c0.serverHello)
    requires c0.suite.Some? && sh.supportedVersion == VERSION_TLS13 && sh.random != RetryRandom
    ensures Client.Receive(c, Wire(Nil, ServerHelloMsg(sh)))
      == Client.AcceptServerHello(c0.(transcript := Prior(c)), c0.suite.value, sh)
  {
  }

  lemma ServerHelloProcessed(c: Client.Client, s: Server.Server, keys: seq<nat>, t: Transcript)
    requires t == Prior(c) + [Whole(ServerHelloMsg(s.hello))] && c.stage in {WaitServerHello, WaitSecondServerHello}
    requires Offering(c, keys, Before(c)) && Answers(c, s, t)
    ensures Client.Receive(c, Wire(Nil, ServerHelloMsg(s.hello)))
      == Ok((WithHandshakeKeys(c, s, DeriveSecret(s.suite.hash, s.handshakeSecret, SERVER_HANDSHAKE_LABEL, t), t), []))
  {
    var c0 := c.(suite := Some(s.suite), serverHello := Some(s.hello));
    ServerHelloChecked(c, s, t);
    ServerHelloReceived(c, s.hello, c0);
    HelloAccepted(c, c0.(transcript := Prior(c)), s, t);
  }

  lemma HelloAccepted(c: Client.Client, c0: Client.Client, s: Server.Server, t: Transcript)
    requires c0 == c.(suite := Some(s.suite), serverHello := Some(s.hello), transcript := c0.transcript)
    requires t == c0.transcript + [Whole(ServerHelloMsg(s.hello))]
    requires Answers(c, s, t) && !c.usingPsk && SupportedCurve(c.ecdhe.group)
    requires s.usingPsk ==> |c.hello.pskIdentities| == 1
    ensures Client.AcceptServerHello(c0, s.suite, s.hello)
      == Ok((WithHandshakeKeys(c, s, DeriveSecret(s.suite.hash, s.handshakeSecret, SERVER_HANDSHAKE_LABEL, t), t), []))
  {
    KeysEstablished(c0.(transcript := t), s, t);
  }

  lemma KeysEstablished(c: Client.Client, s: Server.Server, t: Transcript)
    requires Answers(c, s, t) && c.transcript == t && !c.usingPsk && SupportedCurve(c.ecdhe.group)
    requires s.usingPsk ==> |c.hello.pskIdentities| == 1
    ensures Client.ProcessServerHello(c, s.suite, s.hello) == Ok(c.(usingPsk := s.usingPsk))
    ensures Client.EstablishHandshakeKeys(c.(usingPsk := s.usingPsk), s.suite, s.hello)
      == Ok((c.(usingPsk := s.usingPsk, outSecret := s.inSecret,
                inSecret := DeriveSecret(s.suite.hash, s.handshakeSecret, SERVER_HANDSHAKE_LABEL, t),
                masterSecret := MasterSecret(s.suite.hash, s.handshakeSecret), stage := WaitEncryptedExtensions), []))
  {
  }

  lemma FirstReading(c: Client.Client, s: Server.Server, toClient: seq<Wire>, sc: Server.ServerConfig, keys: seq<nat>)
    requires Answered(c, s, toClient, sc, keys)
    ensures var t := Prior(c) + [Whole(ServerHelloMsg(s.hello))];
      var secret := DeriveSecret(s.suite.hash, s.handshakeSecret, SERVER_HANDSHAKE_LABEL, t);
      Reading(WithHandshakeKeys(c, s, secret, t), s, toClient[1..], sc)
  {
    var t := Prior(c) + [Whole(ServerHelloMsg(s.hello))];
    var secret := DeriveSecret(s.suite.hash, s.handshakeSecret, SERVER_HANDSHAKE_LABEL, t);
    DropFirst(Wire(Nil, ServerHelloMsg(s.hello)), FromExtensions(ScriptOf(s), secret, t).flight, EarlyTickets(s));
    var c' := WithHandshakeKeys(c, s, secret, t);
    assert RestFor(c'.stage, ScriptOf(s), c'.inSecret, c'.transcript) == FromExtensions(ScriptOf(s), secret, t);
  }

  lemma DropFirst<T>(a: T, b: seq<T>, c: seq<T>)
    ensures ([a] + b + c)[1..] == b + c
  {
  }

  /** Reading one message: the configuration may refuse it, else the invariant moves on. */
  ghost predicate MovesOn(r: Result<(Client.Client, seq<Wire>)>, s: Server.Server, left: seq<Wire>, sc: Server.ServerConfig) {
    match r
    case Fail(e) => e.Configuration?
    case Ok((c, sent)) => sent == [] && Reading(c, s, left, sc)
  }

  /** The ServerHello of an answering server is always accepted, and both sides then hold mirrored handshake keys. */
  lemma ServerHelloAccepted(c: Client.Client, s: Server.Server, toClient: seq<Wire>, sc: Server.ServerConfig, keys: seq<nat>)
    requires Answered(c, s, toClient, sc, keys)
    ensures Client.Receive(c, toClient[0]).Ok? && MovesOn(Client.Receive(c, toClient[0]), s, toClient[1..], sc)
  {
    var t := Prior(c) + [Whole(ServerHelloMsg(s.hello))];
    ServerHelloProcessed(c, s, keys, t);
    FirstReading(c, s, toClient, sc, keys);
  }

  lemma ReadOne(c: Client.Client, s: Server.Server, toClient: seq<Wire>, sc: Server.ServerConfig, m: Message, rest: Rest)
    requires Reading(c, s, toClient, sc)
    requires RestFor(c.stage, ScriptOf(s), c.inSecret, c.transcript) == Then(c.inSecret, m, rest)
    ensures toClient != [] && toClient[0] == Wire(c.inSecret, m)
    ensures toClient[1..] == rest.flight + EarlyTickets(s)
    ensures Responded(s, c.hello, rest.transcript)
  {
    DropFirst(Wire(c.inSecret, m), rest.flight, EarlyTickets(s));
  }

  /** The client that has hashed one more message of the server's flight and waits for the next. */
  ghost predicate Took(c: Client.Client, c': Client.Client, m: Message) {
    c' == c.(transcript := c.transcript + [Whole(m)], stage := c'.stage, alpn := c'.alpn, certReq := c'.certReq, peerChain := c'.peerChain)
  }

  /** If the message taken was the next of the flight, the client reads on. */
  lemma ReadsOn(c: Client.Client, c': Client.Client, s: Server.Server, toClient: seq<Wire>, sc: Server.ServerConfig, m: Message)
    requires Reading(c, s, toClient, sc) && Took(c, c', m) && Next(c.stage, c'.stage, ScriptOf(s), c.inSecret, c.transcript, m)
    requires c'.stage !in {WaitServerHello, WaitSecondServerHello, WaitEncryptedExtensions, Established}
    requires s.usingPsk ==> c'.stage == WaitServerFinished
    requires c'.stage == WaitCertificate ==> Server.RequestClientCert(s)
    requires c'.certReq == (if c'.stage != WaitCertificateOrRequest && Server.RequestClientCert(s) then Some(Server.CertRequest(s)) else None)
    requires c'.stage == WaitCertificateVerify ==> CertificateMsg(c'.peerChain) == ChainMsg(ScriptOf(s)) && c'.peerChain != []
    requires c'.alpn == s.alpn
    ensures toClient != [] && toClient[0] == Wire(c.inSecret, m) && Reading(c', s, toClient[1..], sc)
  {
    ReadOne(c, s, toClient, sc, m, RestFor(c'.stage, ScriptOf(s), c.inSecret, c.transcript + [Whole(m)]));
  }

  // What the next message of the flight is, stage by stage.

  ghost predicate Next(stage: ClientStage, next: ClientStage, script: Script, secret: Term, t: Transcript, m: Message) {
    RestFor(stage, script, secret, t) == Then(secret, m, RestFor(next, script, secret, t + [Whole(m)]))
  }

  lemma ExtensionsNext(script: Script, secret: Term, t: Transcript)
    ensures Next(WaitEncryptedExtensions, if script.usingPsk then WaitServerFinished else WaitCertificateOrRequest,
                 script, secret, t, EncryptedExtensions(script.alpn))
  {
  }

  lemma RequestNext(script: Script, secret: Term, t: Transcript)
    requires !script.usingPsk && script.request.Some?
    ensures Next(WaitCertificateOrRequest, WaitCertificate, script, secret, t, script.request.value)
  {
  }

  lemma CertificateNext(stage: ClientStage, script: Script, secret: Term, t: Transcript)
    requires stage == WaitCertificate || (stage == WaitCertificateOrRequest && !script.usingPsk && script.request.None?)
    ensures Next(stage, WaitCertificateVerify, script, secret, t, ChainMsg(script))
  {
  }

  lemma VerifyNext(script: Script, secret: Term, t: Transcript)
    ensures Next(WaitCertificateVerify, WaitServerFinished, script, secret, t, VerifyMsg(script, t))
  {
  }

  lemma ExtensionsRead(c: Client.Client, s: Server.Server, toClient: seq<Wire>, sc: Server.ServerConfig) returns (c': Client.Client)
    requires Reading(c, s, toClient, sc) && c.stage == WaitEncryptedExtensions
    ensures toClient != [] && Client.Receive(c, toClient[0]) == Ok((c', [])) && Reading(c', s, toClient[1..], sc)
  {
    var m := EncryptedExtensions(s.alpn);
    c' := c.(transcript := c.transcript + [Whole(m)], alpn := m.alpn,
             stage := if c.usingPsk then WaitServerFinished else WaitCertificateOrRequest);
    ExtensionsTaken(c, c', s, toClient, sc, m);
    ExtensionsReceived(c, m);
  }

  lemma ExtensionsTaken(c: Client.Client, c': Client.Client, s: Server.Server, toClient: seq<Wire>, sc: Server.ServerConfig, m: Message)
    requires Reading(c, s, toClient, sc) && c.stage == WaitEncryptedExtensions && m == EncryptedExtensions(s.alpn)
    requires c' == c.(transcript := c.transcript + [Whole(m)], alpn := s.alpn,
                      stage := if c.usingPsk then WaitServerFinished else WaitCertificateOrRequest)
    ensures toClient != [] && toClient[0] == Wire(c.inSecret, m) && Reading(c', s, toClient[1..], sc)
    ensures AlpnAcceptable(c.hello.alpnProtocols, s.alpn)
  {
    ExtensionsNext(ScriptOf(s), c.inSecret, c.transcript);
    ReadsOn(c, c', s, toClient, sc, m);
  }

  lemma ExtensionsReceived(c: Client.Client, m: Message)
    requires c.stage == WaitEncryptedExtensions && m.EncryptedExtensions? && AlpnAcceptable(c.hello.alpnProtocols, m.alpn)
    ensures Client.Receive(c, Wire(c.inSecret, m))
      == Ok((c.(transcript := c.transcript + [Whole(m)], alpn := m.alpn,
                stage := if c.usingPsk then WaitServerFinished else WaitCertificateOrRequest), []))
  {
  }

  lemma RequestRead(c: Client.Client, s: Server.Server, toClient: seq<Wire>, sc: Server.ServerConfig) returns (c': Client.Client)
    requires Reading(c, s, toClient, sc) && c.stage == WaitCertificateOrRequest && Server.RequestClientCert(s)
    ensures toClient != [] && Client.Receive(c, toClient[0]) == Ok((c', [])) && Reading(c', s, toClient[1..], sc)
  {
    var m := Server.CertRequest(s);
    c' := c.(transcript := c.transcript + [Whole(m)], certReq := Some(m), stage := WaitCertificate);
    RequestNext(ScriptOf(s), c.inSecret, c.transcript);
    ReadsOn(c, c', s, toClient, sc, m);
    RequestReceived(c, m);
  }

  lemma RequestReceived(c: Client.Client, m: Message)
    requires c.stage == WaitCertificateOrRequest && m.CertificateRequest?
    ensures Client.Receive(c, Wire(c.inSecret, m))
      == Ok((c.(transcript := c.transcript + [Whole(m)], certReq := Some(m), stage := WaitCertificate), []))
  {
  }

  lemma CertificateRead(c: Client.Client, s: Server.Server, toClient: seq<Wire>, sc: Server.ServerConfig) returns (c': Client.Client)
    requires Reading(c, s, toClient, sc)
    requires c.stage == WaitCertificate || (c.stage == WaitCertificateOrRequest && !Server.RequestClientCert(s))
    ensures toClient != []
    ensures match Client.Receive(c, toClient[0])
      case Fail(e) => e.Configuration?
      case Ok((c1, sent)) => c1 == c' && sent == [] && Reading(c', s, toClient[1..], sc)
  {
    var m := ChainMsg(ScriptOf(s));
    c' := c.(transcript := c.transcript + [Whole(m)], peerChain := m.chain, stage := WaitCertificateVerify);
    ChainNext(c, s, toClient, sc, m);
    CertificateReceived(c, m);
    if m.chain != [] {
      ChainRead(c, c', s, toClient, sc, m);
    }
  }

  lemma ChainNext(c: Client.Client, s: Server.Server, toClient: seq<Wire>, sc: Server.ServerConfig, m: Message)
    requires Reading(c, s, toClient, sc) && m == ChainMsg(ScriptOf(s))
    requires c.stage == WaitCertificate || (c.stage == WaitCertificateOrRequest && !Server.RequestClientCert(s))
    ensures toClient != [] && toClient[0] == Wire(c.inSecret, m)
  {
    CertificateNext(c.stage, ScriptOf(s), c.inSecret, c.transcript);
    ReadOne(c, s, toClient, sc, m, RestFor(WaitCertificateVerify, ScriptOf(s), c.inSecret, c.transcript + [Whole(m)]));
  }

  lemma ChainRead(c: Client.Client, c': Client.Client, s: Server.Server, toClient: seq<Wire>, sc: Server.ServerConfig, m: Message)
    requires Reading(c, s, toClient, sc) && m == ChainMsg(ScriptOf(s)) && m.chain != []
    requires c.stage == WaitCertificate || (c.stage == WaitCertificateOrRequest && !Server.RequestClientCert(s))
    requires c' == c.(transcript := c.transcript + [Whole(m)], peerChain := m.chain, stage := WaitCertificateVerify)
    ensures toClient != [] && Reading(c', s, toClient[1..], sc)
  {
    CertificateNext(c.stage, ScriptOf(s), c.inSecret, c.transcript);
    ReadsOn(c, c', s, toClient, sc, m);
  }

  lemma CertificateReceived(c: Client.Client, m: Message)
    requires c.stage in {WaitCertificate, WaitCertificateOrRequest} && m.CertificateMsg?
    ensures match Client.Receive(c, Wire(c.inSecret, m))
      case Fail(e) => e.Configuration?
      case Ok((c', sent)) =>
        && m.chain != [] && sent == []
        && c' == c.(transcript := c.transcript + [Whole(m)], peerChain := m.chain, stage := WaitCertificateVerify)
  {
  }

  lemma VerifyRead(c: Client.Client, s: Server.Server, toClient: seq<Wire>, sc: Server.ServerConfig) returns (c': Client.Client)
    requires Reading(c, s, toClient, sc) && c.stage == WaitCertificateVerify
    ensures toClient != [] && Client.Receive(c, toClient[0]) == Ok((c', [])) && Reading(c', s, toClient[1..], sc)
  {
    var m := VerifyMsg(ScriptOf(s), c.transcript);
    c' := c.(transcript := c.transcript + [Whole(m)], stage := WaitServerFinished);
    VerifyTaken(c, c', s, toClient, sc, m);
    VerifySigned(c, s, toClient, sc, m);
    VerifyReceived(c, s.suite, m);
  }

  lemma VerifyTaken(c: Client.Client, c': Client.Client, s: Server.Server, toClient: seq<Wire>, sc: Server.ServerConfig, m: Message)
    requires Reading(c, s, toClient, sc) && c.stage == WaitCertificateVerify && m == VerifyMsg(ScriptOf(s), c.transcript)
    requires c' == c.(transcript := c.transcript + [Whole(m)], stage := WaitServerFinished)
    ensures toClient != [] && toClient[0] == Wire(c.inSecret, m) && Reading(c', s, toClient[1..], sc)
  {
    VerifyNext(ScriptOf(s), c.inSecret, c.transcript);
    ReadsOn(c, c', s, toClient, sc, m);
  }

  lemma VerifySigned(c: Client.Client, s: Server.Server, toClient: seq<Wire>, sc: Server.ServerConfig, m: Message)
    requires Reading(c, s, toClient, sc) && c.stage == WaitCertificateVerify && m == VerifyMsg(ScriptOf(s), c.transcript)
    ensures m.CertificateVerify? && c.suite == Some(s.suite) && c.peerChain != []
    ensures VerifySignature(c.peerChain[0], m.scheme, m.signature, SERVER_SIGNATURE_CONTEXT, s.suite.hash, c.transcript).None?
  {
    OwnSignatureVerifies(s.cfg.identity.value, m.scheme, SERVER_SIGNATURE_CONTEXT, s.suite.hash, c.transcript);
  }

  lemma VerifyReceived(c: Client.Client, suite: Suite, m: Message)
    requires c.stage == WaitCertificateVerify && m.CertificateVerify? && c.suite == Some(suite) && c.peerChain != []
    requires VerifySignature(c.peerChain[0], m.scheme, m.signature, SERVER_SIGNATURE_CONTEXT, suite.hash, c.transcript).None?
    ensures Client.Receive(c, Wire(c.inSecret, m))
      == Ok((c.(transcript := c.transcript + [Whole(m)], stage := WaitServerFinished), []))
  {
  }

  lemma OwnSignatureVerifies(id: Identity, scheme: nat, purpose: string, h: Hash, t: Transcript)
    requires id.chain != [] && Usable(scheme)
    ensures VerifySignature(id.chain[0], scheme, Sign(id, scheme, purpose, h, t), purpose, h, t).None?
  {
  }

  // ---------- the client's second flight ----------

  /** The client once it has read the server's Finished: application keys of the server, handshake keys of its own. */
  function WithApplicationKeys(c: Client.Client, s: Server.Server, t: Transcript): Client.Client {
    c.(transcript := t, trafficSecret := s.trafficSecret, inSecret := s.outSecret, exporter := s.exporter)
  }

  lemma FinishedAccepted(c: Client.Client, s: Server.Server, toClient: seq<Wire>, sc: Server.ServerConfig)
    requires Reading(c, s, toClient, sc) && c.stage == WaitServerFinished
    ensures var m := FinishedMsg(s.suite.hash, c.inSecret, c.transcript);
      && toClient == [Wire(c.inSecret, m)] + EarlyTickets(s)
      && Responded(s, c.hello, c.transcript + [Whole(m)])
      && Client.Receive(c, toClient[0]) == Client.SendSecondFlight(WithApplicationKeys(c, s, c.transcript + [Whole(m)]), s.suite)
  {
    var m := FinishedMsg(s.suite.hash, c.inSecret, c.transcript);
    ReadOne(c, s, toClient, sc, m, Rest([], c.transcript + [Whole(m)]));
    FinishedReceived(c, s, m);
  }

  lemma FinishedReceived(c: Client.Client, s: Server.Server, m: Message)
    requires c.stage == WaitServerFinished && c.suite == Some(s.suite) && c.masterSecret == s.masterSecret
    requires m == FinishedMsg(s.suite.hash, c.inSecret, c.transcript) && Responded(s, c.hello, c.transcript + [Whole(m)])
    ensures Client.Receive(c, Wire(c.inSecret, m)) == Client.SendSecondFlight(WithApplicationKeys(c, s, c.transcript + [Whole(m)]), s.suite)
  {
    assert Client.ReadServerFinished(c, s.suite, m) == Ok(WithApplicationKeys(c, s, c.transcript + [Whole(m)]));
  }

  /** What a client about to send its second flight has in common with the server. */
  ghost predicate Mirrored(c: Client.Client, s: Server.Server, sc: Server.ServerConfig) {
    && s.cfg == sc && c.suite == Some(s.suite) && c.usingPsk == s.usingPsk && c.alpn == s.alpn
    && c.inSecret == s.outSecret && c.outSecret == s.inSecret && c.trafficSecret == s.trafficSecret
    && c.masterSecret == s.masterSecret && c.exporter == s.exporter
    && (PSK_MODE_DHE in c.hello.pskModes ==> c.cfg.ticketsEnabled) && c.stored.None?
    && c.certReq == (if Server.RequestClientCert(s) then Some(Server.CertRequest(s)) else None)
    && Responded(s, c.hello, c.transcript)
  }

  lemma SecondFlightCloses(c: Client.Client, s: Server.Server, sc: Server.ServerConfig)
    requires Mirrored(c, s, sc)
    ensures match Client.SendSecondFlight(c, s.suite)
      case Fail(e) => e.Configuration?
      case Ok((c', sent)) => Closing(c', s, sent, EarlyTickets(s), sc)
  {
    if Server.RequestClientCert(s) {
      CertificateCloses(c, s, sc);
    } else {
      FinishedCloses(c, s, sc);
    }
  }

  lemma FinishedCloses(c: Client.Client, s: Server.Server, sc: Server.ServerConfig)
    requires Mirrored(c, s, sc) && !Server.RequestClientCert(s)
    ensures Client.SendSecondFlight(c, s.suite).Ok?
    ensures var (c', sent) := Client.SendSecondFlight(c, s.suite).value; Closing(c', s, sent, EarlyTickets(s), sc)
  {
    var (c', sent) := Client.SendSecondFlight(c, s.suite).value;
    assert sent == [Wire(s.inSecret, Finished(s.clientFinished))];
  }

  lemma CertificateCloses(c: Client.Client, s: Server.Server, sc: Server.ServerConfig)
    requires Mirrored(c, s, sc) && Server.RequestClientCert(s)
    ensures match Client.SendSecondFlight(c, s.suite)
      case Fail(e) => e.Configuration?
      case Ok((c', sent)) => Closing(c', s, sent, [], sc)
  {
    match Client.SendClientCertificate(c, s.suite)
    case Fail(e) =>
    case Ok((c1, certificates)) =>
      var (c', finished) := Client.SendClientFinished(c1, s.suite);
      var id := c.cfg.certificate.value;
      var scheme := CertificateFlightSent(c, s, id, c1, certificates);
      assert ClientCertificateFrom(s, scheme, id.chain, s.transcript) == Rest(certificates + finished, c'.transcript);
      assert CertificateComing(c', s, certificates + finished);
  }

  /** The Finished of a client whose transcript this is. */
  function OwnFinished(s: Server.Server, t: Transcript): Message { FinishedMsg(s.suite.hash, s.inSecret, t) }

  lemma CertificateFlightSent(c: Client.Client, s: Server.Server, id: Identity, c1: Client.Client, certificates: seq<Wire>)
      returns (scheme: nat)
    requires c.certReq == Some(Server.CertRequest(s)) && c.outSecret == s.inSecret && c.cfg.certificate == Some(id)
    requires Client.SendClientCertificate(c, s.suite) == Ok((c1, certificates))
    ensures c1 == c.(transcript := c1.transcript) && Usable(scheme)
    ensures ClientCertificateFrom(s, scheme, id.chain, c.transcript)
      == Rest(certificates + [Wire(s.inSecret, OwnFinished(s, c1.transcript))],
              c1.transcript + [Whole(OwnFinished(s, c1.transcript))])
  {
    var m := CertificateMsg(id.chain);
    var t := c.transcript + [Whole(m)];
    if id.chain == [] {
      scheme := PSS_SHA256;
      FinishedAlone(s, m, t);
    } else {
      scheme := SelectSignatureScheme(id, SUPPORTED_SIGNATURE_ALGORITHMS).value;
      var verify := CertificateVerify(scheme, Sign(id, scheme, CLIENT_SIGNATURE_CONTEXT, s.suite.hash, t));
      VerifyThenFinished(s, m, verify, scheme, id.chain[0].key, t);
    }
  }

  lemma FinishedAlone(s: Server.Server, m: Message, t: Transcript)
    ensures Then(s.inSecret, m, ClientFinishedFrom(s, t))
      == Rest([Wire(s.inSecret, m)] + [Wire(s.inSecret, OwnFinished(s, t))], t + [Whole(OwnFinished(s, t))])
  {
  }

  lemma VerifyThenFinished(s: Server.Server, m: Message, verify: Message, scheme: nat, key: nat, t: Transcript)
    requires verify == CertificateVerify(scheme, Signature(key, scheme, CLIENT_SIGNATURE_CONTEXT, Digest(s.suite.hash, t)))
    ensures var t1 := t + [Whole(verify)];
      Then(s.inSecret, m, ClientVerifyFrom(s, scheme, key, t))
        == Rest([Wire(s.inSecret, m), Wire(s.inSecret, verify)] + [Wire(s.inSecret, OwnFinished(s, t1))],
                t1 + [Whole(OwnFinished(s, t1))])
  {
    var t1 := t + [Whole(verify)];
    assert [Wire(s.inSecret, m)] + ([Wire(s.inSecret, verify)] + [Wire(s.inSecret, OwnFinished(s, t1))])
        == [Wire(s.inSecret, m), Wire(s.inSecret, verify)] + [Wire(s.inSecret, OwnFinished(s, t1))];
  }

  // ---------- the server reads the second flight, the client its ticket ----------

  /** The part of the closing invariant that no server step of this phase changes. */
  ghost predicate Agreeing(c: Client.Client, s: Server.Server, sc: Server.ServerConfig) {
    && c.stage == Established && s.cfg == sc
    && c.suite == Some(s.suite) && c.usingPsk == s.usingPsk && c.alpn == s.alpn
    && c.inSecret == s.outSecret && c.outSecret == s.trafficSecret
    && c.masterSecret == s.masterSecret && c.exporter == s.exporter
    && s.clientHello == Some(c.hello)
    && (PSK_MODE_DHE in c.hello.pskModes ==> c.cfg.ticketsEnabled)
    && c.resumptionSecret == (if c.cfg.ticketsEnabled then DeriveSecret(s.suite.hash, c.masterSecret, RESUMPTION_LABEL, c.transcript) else Nil)
    && c.stored.None?
  }

  /** A step of the server in the closing phase: a configuration failure, or the phase goes on. */
  ghost predicate StaysClosing(c: Client.Client, r: Result<(Server.Server, seq<Wire>)>, left: seq<Wire>, sc: Server.ServerConfig) {
    match r
    case Fail(e) => e.Configuration?
    case Ok((s, sent)) => Closing(c, s, left, sent, sc)
  }

  lemma TicketsClose(c: Client.Client, s: Server.Server, toServer: seq<Wire>, sc: Server.ServerConfig)
    requires Agreeing(c, s, sc)
    requires ClientFinishedFrom(s, s.transcript) == Rest(toServer, c.transcript)
    ensures StaysClosing(c, Server.TicketsThenFinished(s), toServer, sc)
  {
  }

  lemma ClientCertificateRead(c: Client.Client, s: Server.Server, toServer: seq<Wire>, sc: Server.ServerConfig)
    requires Agreeing(c, s, sc) && s.stage == Server.WaitClientCertificate && CertificateComing(c, s, toServer)
    ensures toServer != [] && StaysClosing(c, Server.Receive(s, toServer[0]), toServer[1..], sc)
  {
    var chain: seq<Certificate>, scheme: nat :| Usable(scheme) && ClientCertificateFrom(s, scheme, chain, s.transcript) == Rest(toServer, c.transcript);
    var m := CertificateMsg(chain);
    assert toServer[0] == Wire(s.inSecret, m);
    CertificateAtServer(s, m);
    match Server.ProcessCertsFromClient(s.(transcript := s.transcript + [Whole(m)]), chain)
    case Fail(e) =>
    case Ok(s1) => CertificateTaken(c, s1, toServer[1..], scheme, chain, sc);
  }

  lemma CertificateAtServer(s: Server.Server, m: Message)
    requires s.stage == Server.WaitClientCertificate && m.CertificateMsg?
    ensures Server.Receive(s, Wire(s.inSecret, m)) == Server.OnClientCertificate(s, m)
  {
  }

  /** The server that has hashed the client's certificate message, with the rest of the client's flight to come. */
  lemma CertificateTaken(c: Client.Client, s: Server.Server, left: seq<Wire>, scheme: nat, chain: seq<Certificate>, sc: Server.ServerConfig)
    requires Agreeing(c, s, sc) && Usable(scheme) && s.peerChain == chain
    requires (if chain == [] then ClientFinishedFrom(s, s.transcript) else ClientVerifyFrom(s, scheme, chain[0].key, s.transcript))
      == Rest(left, c.transcript)
    ensures StaysClosing(c, if chain != [] then Ok((s.(stage := Server.WaitClientCertificateVerify), []))
                            else Server.TicketsThenFinished(s), left, sc)
  {
    if chain == [] {
      TicketsClose(c, s, left, sc);
    } else {
      var s' := s.(stage := Server.WaitClientCertificateVerify);
      assert ClientVerifyFrom(s', scheme, s'.peerChain[0].key, s'.transcript) == Rest(left, c.transcript);
      assert VerifyComing(c, s', left);
    }
  }

  lemma ClientVerifyRead(c: Client.Client, s: Server.Server, toServer: seq<Wire>, sc: Server.ServerConfig)
    requires Agreeing(c, s, sc) && s.stage == Server.WaitClientCertificateVerify && VerifyComing(c, s, toServer)
    ensures toServer != [] && StaysClosing(c, Server.Receive(s, toServer[0]), toServer[1..], sc)
  {
    var scheme: nat :| Usable(scheme) && ClientVerifyFrom(s, scheme, s.peerChain[0].key, s.transcript) == Rest(toServer, c.transcript);
    var m := CertificateVerify(scheme, Signature(s.peerChain[0].key, scheme, CLIENT_SIGNATURE_CONTEXT, Digest(s.suite.hash, s.transcript)));
    assert toServer[0] == Wire(s.inSecret, m);
    var s1 := s.(transcript := s.transcript + [Whole(m)]);
    assert Server.Receive(s, toServer[0]) == Server.TicketsThenFinished(s1);
    assert toServer[1..] == ClientFinishedFrom(s1, s1.transcript).flight;
    TicketsClose(c, s1, toServer[1..], sc);
  }

  lemma ClientFinishedRead(c: Client.Client, s: Server.Server, toServer: seq<Wire>, toClient: seq<Wire>, sc: Server.ServerConfig)
    requires Closing(c, s, toServer, toClient, sc) && s.stage == Server.WaitClientFinished
    ensures toServer != []
    ensures var r := Server.Receive(s, toServer[0]);
      r.Ok? && r.value.1 == [] && Closing(c, r.value.0, toServer[1..], toClient, sc)
  {
    var s' := s.(inSecret := s.trafficSecret, stage := Server.Completed);
    assert Server.Receive(s, toServer[0]) == Ok((s', []));
  }

  lemma TicketRead(c: Client.Client, s: Server.Server, toServer: seq<Wire>, toClient: seq<Wire>, sc: Server.ServerConfig)
    requires Closing(c, s, toServer, toClient, sc) && toClient != []
    ensures var r := Client.Receive(c, toClient[0]);
      r.Ok? && r.value.1 == [] && Closing(r.value.0, s, toServer, toClient[1..], sc) && r.value.0.stored.Some?
  {
    var w := toClient[0];
    var c' := Client.Receive(c, w).value.0;
    assert c' == c.(stored := c'.stored);
  }
  // ---------- whole runs ----------

  /** What a party's outcome must satisfy for the system to keep its invariant. */
  ghost predicate ServerGoesTo(c: Client.Client, r: Result<(Server.Server, seq<Wire>)>, toServer: seq<Wire>,
                               toClient: seq<Wire>, sc: Server.ServerConfig, keys: seq<nat>) {
    match r
    case Fail(e) => Tolerated(e, sc, keys)
    case Ok((s, sent)) => Phase(c, s, toServer, Append(toClient, sent), sc, keys)
  }

  ghost predicate ClientGoesTo(r: Result<(Client.Client, seq<Wire>)>, s: Server.Server, toServer: seq<Wire>,
                               toClient: seq<Wire>, sc: Server.ServerConfig, keys: seq<nat>) {
    match r
    case Fail(e) => e.Configuration?
    case Ok((c, sent)) => Phase(c, s, Append(toServer, sent), toClient, sc, keys)
  }

  /** Concatenation, with its two unit laws built in. */
  function Append(a: seq<Wire>, b: seq<Wire>): (r: seq<Wire>)
    ensures r == a + b
  {
    if a == [] then b else if b == [] then a else a + b
  }

  lemma RetryingIsPhase(c: Client.Client, s: Server.Server, sent: seq<Wire>, sc: Server.ServerConfig, keys: seq<nat>)
    requires Retrying(c, s, sent, sc, keys)
    ensures Phase(c, s, [], sent, sc, keys)
  {
  }

  lemma AnsweredIsPhase(c: Client.Client, s: Server.Server, sent: seq<Wire>, sc: Server.ServerConfig, keys: seq<nat>)
    requires Answered(c, s, sent, sc, keys)
    ensures Phase(c, s, [], sent, sc, keys)
  {
  }

  lemma FirstHelloReceived(s: Server.Server, ch: ClientHello)
    requires s.stage == Server.WaitClientHello && s.inSecret == Nil
    ensures Server.Receive(s, Wire(Nil, ClientHelloMsg(ch))) == Server.OnFirstClientHello(s, ch)
  {
  }

  lemma GreetingStep(c: Client.Client, s: Server.Server, toServer: seq<Wire>, sc: Server.ServerConfig, keys: seq<nat>)
    requires Greeting(c, s, toServer, sc, keys)
    ensures ServerGoesTo(c, Server.Receive(s, toServer[0]), toServer[1..], [], sc, keys)
  {
    FirstHelloGoes(c, sc, keys);
    FirstHelloRead(c, s, toServer, sc, keys);
  }

  lemma FirstHelloRead(c: Client.Client, s: Server.Server, toServer: seq<Wire>, sc: Server.ServerConfig, keys: seq<nat>)
    requires Greeting(c, s, toServer, sc, keys)
    ensures toServer != [] && toServer[1..] == [] && s == Server.Init(sc)
    ensures Server.Receive(s, toServer[0]) == Server.OnFirstClientHello(s, c.hello)
  {
    FirstHelloReceived(s, c.hello);
  }

  lemma FirstHelloGoes(c: Client.Client, sc: Server.ServerConfig, keys: seq<nat>)
    requires Offering(c, keys, []) && c.stage == WaitServerHello && c.suite.None? && c.hello.cookie == []
    ensures ServerGoesTo(c, Server.OnFirstClientHello(Server.Init(sc), c.hello), [], [], sc, keys)
  {
    FirstHelloAnswered(c, sc, keys);
    FirstAnswerGoes(c, Server.OnFirstClientHello(Server.Init(sc), c.hello), sc, keys);
  }

  lemma FirstAnswerGoes(c: Client.Client, r: Result<(Server.Server, seq<Wire>)>, sc: Server.ServerConfig, keys: seq<nat>)
    requires Offering(c, keys, []) && c.stage == WaitServerHello && c.suite.None? && c.hello.cookie == []
    requires match r
      case Fail(e) => Tolerated(e, sc, keys)
      case Ok((s, sent)) =>
        if s.stage == Server.WaitSecondClientHello then RetrySent(c, s, sent, sc) else Answered(c, s, sent, sc, keys)
    ensures ServerGoesTo(c, r, [], [], sc, keys)
  {
    match r
    case Fail(e) =>
    case Ok((s, sent)) => FirstAnswerIsPhase(c, s, sent, sc, keys);
  }

  lemma AnswerGoes(c: Client.Client, r: Result<(Server.Server, seq<Wire>)>, sc: Server.ServerConfig, keys: seq<nat>)
    requires AnsweredBy(c, r, sc, keys)
    ensures ServerGoesTo(c, r, [], [], sc, keys)
  {
    match r
    case Fail(e) =>
    case Ok((s, sent)) => AnsweredIsPhase(c, s, sent, sc, keys);
  }

  lemma FirstAnswerIsPhase(c: Client.Client, s: Server.Server, sent: seq<Wire>, sc: Server.ServerConfig, keys: seq<nat>)
    requires Offering(c, keys, []) && c.stage == WaitServerHello && c.suite.None? && c.hello.cookie == []
    requires if s.stage == Server.WaitSecondClientHello then RetrySent(c, s, sent, sc) else Answered(c, s, sent, sc, keys)
    ensures Phase(c, s, [], sent, sc, keys)
  {
    if s.stage == Server.WaitSecondClientHello {
      RetryingIsPhase(c, s, sent, sc, keys);
    } else {
      AnsweredIsPhase(c, s, sent, sc, keys);
    }
  }

  lemma SecondHelloReceived(s: Server.Server, ch: ClientHello)
    requires s.stage == Server.WaitSecondClientHello && s.inSecret == Nil
    ensures Server.Receive(s, Wire(Nil, ClientHelloMsg(ch))) == Server.OnSecondClientHello(s, ch)
  {
  }

  lemma RetriedStep(c: Client.Client, s: Server.Server, toServer: seq<Wire>, sc: Server.ServerConfig, keys: seq<nat>)
    requires Retried(c, s, toServer, sc, keys)
    ensures ServerGoesTo(c, Server.Receive(s, toServer[0]), toServer[1..], [], sc, keys)
  {
    SecondHelloGoes(c, s, toServer, sc, keys);
    SecondHelloRead(c, s, toServer, sc, keys);
  }

  lemma SecondHelloRead(c: Client.Client, s: Server.Server, toServer: seq<Wire>, sc: Server.ServerConfig, keys: seq<nat>)
    requires Retried(c, s, toServer, sc, keys)
    ensures toServer != [] && toServer[1..] == [] && Server.Receive(s, toServer[0]) == Server.OnSecondClientHello(s, c.hello)
  {
    SecondHelloReceived(s, c.hello);
  }

  lemma SecondHelloGoes(c: Client.Client, s: Server.Server, toServer: seq<Wire>, sc: Server.ServerConfig, keys: seq<nat>)
    requires Retried(c, s, toServer, sc, keys)
    ensures ServerGoesTo(c, Server.OnSecondClientHello(s, c.hello), [], [], sc, keys)
  {
    SecondHelloAnswered(c, s, toServer, sc, keys);
    AnswerGoes(c, Server.OnSecondClientHello(s, c.hello), sc, keys);
  }

  lemma ClosingIsPhase(c: Client.Client, s: Server.Server, toServer: seq<Wire>, toClient: seq<Wire>, sc: Server.ServerConfig,
                       keys: seq<nat>)
    requires Closing(c, s, toServer, toClient, sc)
    ensures Phase(c, s, toServer, toClient, sc, keys)
  {
  }

  lemma ClosingStep(c: Client.Client, s: Server.Server, toServer: seq<Wire>, toClient: seq<Wire>, sc: Server.ServerConfig,
                    keys: seq<nat>)
    requires Closing(c, s, toServer, toClient, sc) && toServer != []
    ensures ServerGoesTo(c, Server.Receive(s, toServer[0]), toServer[1..], toClient, sc, keys)
  {
    match s.stage
    case WaitClientCertificate => ClientCertificateRead(c, s, toServer, sc);
    case WaitClientCertificateVerify => ClientVerifyRead(c, s, toServer, sc);
    case WaitClientFinished => ClientFinishedRead(c, s, toServer, toClient, sc);
    match Server.Receive(s, toServer[0])
    case Fail(e) =>
    case Ok((s', sent)) => ClosingIsPhase(c, s', toServer[1..], Append(toClient, sent), sc, keys);
  }

  lemma ServerStep(c: Client.Client, s: Server.Server, toServer: seq<Wire>, toClient: seq<Wire>, sc: Server.ServerConfig,
                   keys: seq<nat>)
    requires Phase(c, s, toServer, toClient, sc, keys) && toServer != []
    ensures ServerGoesTo(c, Server.Receive(s, toServer[0]), toServer[1..], toClient, sc, keys)
  {
    if Greeting(c, s, toServer, sc, keys) && toClient == [] {
      GreetingStep(c, s, toServer, sc, keys);
    } else if Retried(c, s, toServer, sc, keys) && toClient == [] {
      RetriedStep(c, s, toServer, sc, keys);
    } else {
      ClosingStep(c, s, toServer, toClient, sc, keys);
    }
  }

  lemma RetriedIsPhase(c: Client.Client, s: Server.Server, sent: seq<Wire>, sc: Server.ServerConfig, keys: seq<nat>)
    requires Retried(c, s, sent, sc, keys)
    ensures Phase(c, s, sent, [], sc, keys)
  {
  }

  lemma RetryingStep(c: Client.Client, s: Server.Server, toClient: seq<Wire>, sc: Server.ServerConfig, keys: seq<nat>)
    requires Retrying(c, s, toClient, sc, keys)
    ensures ClientGoesTo(Client.Receive(c, toClient[0]), s, [], toClient[1..], sc, keys)
  {
    RetryTaken(c, s, toClient, sc, keys);
    assert toClient[1..] == [];
    match Client.Receive(c, toClient[0])
    case Fail(e) =>
    case Ok((c', sent)) => RetriedIsPhase(c', s, sent, sc, keys);
  }

  /** A client that goes on reading keeps the invariant. */
  lemma ReadingGoesOn(c: Client.Client, s: Server.Server, left: seq<Wire>, sc: Server.ServerConfig, keys: seq<nat>)
    requires Reading(c, s, left, sc)
    ensures ClientGoesTo(Ok((c, [])), s, [], left, sc, keys)
  {
  }

  lemma AnsweredStep(c: Client.Client, s: Server.Server, toClient: seq<Wire>, sc: Server.ServerConfig, keys: seq<nat>)
    requires Answered(c, s, toClient, sc, keys)
    ensures ClientGoesTo(Client.Receive(c, toClient[0]), s, [], toClient[1..], sc, keys)
  {
    ServerHelloAccepted(c, s, toClient, sc, keys);
    ReadingGoesOn(Client.Receive(c, toClient[0]).value.0, s, toClient[1..], sc, keys);
  }

  lemma ReadingStep(c: Client.Client, s: Server.Server, toClient: seq<Wire>, sc: Server.ServerConfig, keys: seq<nat>)
    requires Reading(c, s, toClient, sc)
    ensures toClient != [] && ClientGoesTo(Client.Receive(c, toClient[0]), s, [], toClient[1..], sc, keys)
  {
    if c.stage == WaitServerFinished {
      FinishedStep(c, s, toClient, sc, keys);
    } else if c.stage == WaitCertificate || (c.stage == WaitCertificateOrRequest && !Server.RequestClientCert(s)) {
      CertificateStep(c, s, toClient, sc, keys);
    } else {
      var c': Client.Client;
      match c.stage {
        case WaitEncryptedExtensions => c' := ExtensionsRead(c, s, toClient, sc);
        case WaitCertificateOrRequest => c' := RequestRead(c, s, toClient, sc);
        case WaitCertificateVerify => c' := VerifyRead(c, s, toClient, sc);
      }
      ReadingGoesOn(c', s, toClient[1..], sc, keys);
    }
  }

  lemma CertificateStep(c: Client.Client, s: Server.Server, toClient: seq<Wire>, sc: Server.ServerConfig, keys: seq<nat>)
    requires Reading(c, s, toClient, sc)
    requires c.stage == WaitCertificate || (c.stage == WaitCertificateOrRequest && !Server.RequestClientCert(s))
    ensures toClient != [] && ClientGoesTo(Client.Receive(c, toClient[0]), s, [], toClient[1..], sc, keys)
  {
    var c' := CertificateRead(c, s, toClient, sc);
    match Client.Receive(c, toClient[0])
    case Fail(e) =>
    case Ok((c1, sent)) => ReadingGoesOn(c', s, toClient[1..], sc, keys);
  }

  lemma FinishedStep(c: Client.Client, s: Server.Server, toClient: seq<Wire>, sc: Server.ServerConfig, keys: seq<nat>)
    requires Reading(c, s, toClient, sc) && c.stage == WaitServerFinished
    ensures toClient != [] && ClientGoesTo(Client.Receive(c, toClient[0]), s, [], toClient[1..], sc, keys)
  {
    FinishedAccepted(c, s, toClient, sc);
    var c1 := WithApplicationKeys(c, s, c.transcript + [Whole(FinishedMsg(s.suite.hash, c.inSecret, c.transcript))]);
    ApplicationKeysMirror(c, s, toClient, sc);
    SecondFlightCloses(c1, s, sc);
    assert toClient[1..] == EarlyTickets(s);
    match Client.SendSecondFlight(c1, s.suite)
    case Fail(e) =>
    case Ok((c', sent)) => ClosingIsPhase(c', s, sent, EarlyTickets(s), sc, keys);
  }

  lemma ApplicationKeysMirror(c: Client.Client, s: Server.Server, toClient: seq<Wire>, sc: Server.ServerConfig)
    requires Reading(c, s, toClient, sc) && c.stage == WaitServerFinished
    ensures Mirrored(WithApplicationKeys(c, s, c.transcript + [Whole(FinishedMsg(s.suite.hash, c.inSecret, c.transcript))]), s, sc)
  {
  }

  lemma TicketStep(c: Client.Client, s: Server.Server, toServer: seq<Wire>, toClient: seq<Wire>, sc: Server.ServerConfig,
                   keys: seq<nat>)
    requires Closing(c, s, toServer, toClient, sc) && toClient != []
    ensures ClientGoesTo(Client.Receive(c, toClient[0]), s, toServer, toClient[1..], sc, keys)
  {
    TicketRead(c, s, toServer, toClient, sc);
    ClosingIsPhase(Client.Receive(c, toClient[0]).value.0, s, toServer, toClient[1..], sc, keys);
  }

  lemma ClientStep(c: Client.Client, s: Server.Server, toServer: seq<Wire>, toClient: seq<Wire>, sc: Server.ServerConfig,
                   keys: seq<nat>)
    requires Phase(c, s, toServer, toClient, sc, keys) && toClient != []
    ensures ClientGoesTo(Client.Receive(c, toClient[0]), s, toServer, toClient[1..], sc, keys)
  {
    if Retrying(c, s, toClient, sc, keys) && toServer == [] {
      RetryingStep(c, s, toClient, sc, keys);
    } else if Answered(c, s, toClient, sc, keys) && toServer == [] {
      AnsweredStep(c, s, toClient, sc, keys);
    } else if Reading(c, s, toClient, sc) && toServer == [] {
      ReadingStep(c, s, toClient, sc, keys);
    } else {
      TicketStep(c, s, toServer, toClient, sc, keys);
    }
  }

  lemma StepKeeps(sys: System, side: Side, sc: Server.ServerConfig, keys: seq<nat>)
    requires Invariant(sys, sc, keys)
    ensures Invariant(Step(sys, side), sc, keys)
  {
    if sys.failure.None? {
      if side == ServerSide && sys.toServer != [] {
        ServerStep(sys.client, sys.server, sys.toServer, sys.toClient, sc, keys);
      } else if side == ClientSide && sys.toClient != [] {
        ClientStep(sys.client, sys.server, sys.toServer, sys.toClient, sc, keys);
      }
    }
  }

  lemma {:induction false} RunKeeps(sys: System, schedule: seq<Side>, sc: Server.ServerConfig, keys: seq<nat>)
    requires Invariant(sys, sc, keys)
    ensures Invariant(Run(sys, schedule), sc, keys)
    decreases |schedule|
  {
    if schedule != [] {
      StepKeeps(sys, schedule[0], sc, keys);
      RunKeeps(Step(sys, schedule[0]), schedule[1..], sc, keys);
    }
  }

  lemma BootHolds(cc: ClientConfig, sc: Server.ServerConfig, keys: seq<nat>)
    requires Boot(cc, sc).Ok? && (cc.cached.Some? ==> IssuedBy(cc.cached.value, keys))
    ensures Invariant(Boot(cc, sc).value, sc, keys)
  {
    StartOffers(cc, keys);
  }

  lemma Reachable(cc: ClientConfig, sc: Server.ServerConfig, schedule: seq<Side>, keys: seq<nat>)
    requires Boot(cc, sc).Ok? && (cc.cached.Some? ==> IssuedBy(cc.cached.value, keys))
    ensures Invariant(Run(Boot(cc, sc).value, schedule), sc, keys)
  {
    BootHolds(cc, sc, keys);
    RunKeeps(Boot(cc, sc).value, schedule, sc, keys);
  }

  /** Everything both sides hold alike once they are done. */
  ghost predicate Agreement(sys: System) {
    var c, s := sys.client, sys.server;
    && c.transcript == s.transcript && c.suite == Some(s.suite) && c.usingPsk == s.usingPsk && c.alpn == s.alpn
    && c.outSecret == s.inSecret && c.inSecret == s.outSecret
    && c.masterSecret == s.masterSecret && c.exporter == s.exporter
    && sys.toServer == []
    && (c.stored.Some? ==>
          StoredFromTicket(c, s)
          && c.resumptionSecret == DeriveSecret(s.suite.hash, s.masterSecret, RESUMPTION_LABEL, s.transcript))
  }

  lemma EndAgrees(sys: System, sc: Server.ServerConfig, keys: seq<nat>)
    requires Invariant(sys, sc, keys) && BothFinished(sys)
    ensures Agreement(sys)
  {
    ClosedAtEnd(sys.client, sys.server, sys.toServer, sys.toClient, sc, keys);
  }

  lemma ClosedAtEnd(c: Client.Client, s: Server.Server, toServer: seq<Wire>, toClient: seq<Wire>, sc: Server.ServerConfig,
                    keys: seq<nat>)
    requires Phase(c, s, toServer, toClient, sc, keys) && c.stage == Established
    ensures Closing(c, s, toServer, toClient, sc)
  {
  }

  /**
    Main result. On every branch (retry or not, PSK or certificate, client certificate or
    not, tickets early or late), when both sides finish they hashed the same messages, each
    writes with the secret the other reads with, and the exported and resumption secrets
    agree. Nothing is assumed of the session the client offered.
   */
  lemma FinishedRunsAgree(cc: ClientConfig, sc: Server.ServerConfig, schedule: seq<Side>)
    requires Boot(cc, sc).Ok?
    requires BothFinished(Run(Boot(cc, sc).value, schedule))
    ensures Agreement(Run(Boot(cc, sc).value, schedule))
  {
    Reachable(cc, sc, schedule, []);
    EndAgrees(Run(Boot(cc, sc).value, schedule), sc, []);
  }

  /**
    No run fails because one side broke the protocol: every record opens under the secret
    it is read with, every Finished, signature and PSK binder verifies, every
    HelloRetryRequest is needed and every second hello is accepted. What may stop a run is a
    disagreement of the two configurations.
   */
  lemma NoProtocolFailure(cc: ClientConfig, sc: Server.ServerConfig, schedule: seq<Side>)
    requires Boot(cc, sc).Ok? && GoodCache(cc, sc)
    ensures var sys := Run(Boot(cc, sc).value, schedule);
      sys.failure.Some? ==> sys.failure.value.Configuration?
  {
    Reachable(cc, sc, schedule, sc.ticketKeys);
  }

  /** A session of any origin can do one thing more: have its binder refused. */
  lemma OnlyBindersFail(cc: ClientConfig, sc: Server.ServerConfig, schedule: seq<Side>)
    requires Boot(cc, sc).Ok?
    ensures var sys := Run(Boot(cc, sc).value, schedule);
      sys.failure.Some? ==> sys.failure.value.Configuration? || sys.failure.value == Protocol(InvalidBinder)
  {
    Reachable(cc, sc, schedule, []);
  }

  lemma FlightLeft(c: Client.Client, s: Server.Server, toClient: seq<Wire>, sc: Server.ServerConfig)
    requires Reading(c, s, toClient, sc)
    ensures toClient != []
  {
    assert RestFor(c.stage, ScriptOf(s), c.inSecret, c.transcript).flight != [];
  }

  lemma FlightComing(c: Client.Client, s: Server.Server, toServer: seq<Wire>)
    requires CertificateComing(c, s, toServer) || VerifyComing(c, s, toServer)
    ensures toServer != []
  {
  }

  /** Short of the end, there is a message to read: any for the server, or one that an unfinished client waits for. */
  lemma SomethingToRead(c: Client.Client, s: Server.Server, toServer: seq<Wire>, toClient: seq<Wire>, sc: Server.ServerConfig,
                        keys: seq<nat>)
    requires Phase(c, s, toServer, toClient, sc, keys)
    requires toServer == [] && (toClient == [] || c.stage == Established)
    ensures c.stage == Established && s.stage == Server.Completed
  {
    if Reading(c, s, toClient, sc) {
      FlightLeft(c, s, toClient, sc);
    } else if Closing(c, s, toServer, toClient, sc) {
      if s.stage in {Server.WaitClientCertificate, Server.WaitClientCertificateVerify} {
        FlightComing(c, s, toServer);
      }
    }
  }

  /** No run gets stuck: short of a failure and of both finishing, somebody has a message to read. */
  lemma NoDeadlock(cc: ClientConfig, sc: Server.ServerConfig, schedule: seq<Side>)
    requires Boot(cc, sc).Ok?
    ensures var sys := Run(Boot(cc, sc).value, schedule);
      sys.failure.None? && !BothFinished(sys) ==> sys.toServer != [] || sys.toClient != []
  {
    Reachable(cc, sc, schedule, []);
    var sys := Run(Boot(cc, sc).value, schedule);
    if sys.failure.None? && sys.toServer == [] && sys.toClient == [] {
      SomethingToRead(sys.client, sys.server, sys.toServer, sys.toClient, sc, []);
    }
  }

  /** The session a run leaves at the client satisfies GoodCache for every set of ticket keys, so the next run may offer it. */
  lemma RunIssuesSessions(cc: ClientConfig, sc: Server.ServerConfig, schedule: seq<Side>, keys: seq<nat>)
    requires Boot(cc, sc).Ok?
    ensures var sys := Run(Boot(cc, sc).value, schedule);
      sys.failure.None? && sys.client.stored.Some? ==>
        IssuedBy(sys.client.stored.value, keys) && Server.DecryptTicket(sc.ticketKeys, sys.client.stored.value.ticket).Some?
  {
    Reachable(cc, sc, schedule, []);
    var sys := Run(Boot(cc, sc).value, schedule);
    if sys.failure.None? && sys.client.stored.Some? {
      StoredInPhase(sys.client, sys.server, sys.toServer, sys.toClient, sc);
    }
  }

  lemma StoredInPhase(c: Client.Client, s: Server.Server, toServer: seq<Wire>, toClient: seq<Wire>, sc: Server.ServerConfig)
    requires Phase(c, s, toServer, toClient, sc, []) && c.stored.Some?
    ensures StoredFromTicket(c, s) && s.cfg == sc
  {
  }

  // ---------- the transcript after a retry ----------

  /**
    The transcript of a client whose latest hello this is begins with its first hello or, when
    that is not the one it sent first, with section 4.4.1 of RFC 8446's replacement for it.
   */
  ghost predicate Begins(t: Transcript, first: ClientHello, latest: ClientHello, h: Hash) {
    if latest == first then t != [] && t[0] == Whole(ClientHelloMsg(first)) else BeginsRetried(t, first, latest, h)
  }

  ghost predicate BeginsRetried(t: Transcript, first: ClientHello, latest: ClientHello, h: Hash) {
    && |t| >= 3 && t[0] == MessageHash(Digest(h, [Whole(ClientHelloMsg(first))]))
    && t[1].Whole? && t[1].message.ServerHelloMsg? && t[1].message.serverHello.random == RetryRandom
    && t[2] == Whole(ClientHelloMsg(latest)) && latest == WithAllowedChanges(first, latest)
  }

  ghost predicate History(c: Client.Client, first: ClientHello) {
    if c.stage == WaitServerHello then c.hello == first
    else c.suite.Some? && Begins(c.transcript, first, c.hello, c.suite.value.hash)
  }

  /** Past the first ServerHello a client only appends to its transcript and keeps its hello and suite. */
  ghost predicate Appended(c: Client.Client, r: Result<(Client.Client, seq<Wire>)>) {
    match r
    case Fail(e) => true
    case Ok((c', sent)) =>
      c.transcript <= c'.transcript && c'.stage != WaitServerHello && c'.hello == c.hello && c'.suite == c.suite
  }

  lemma FlightAppends(c: Client.Client, suite: Suite)
    ensures Appended(c, Client.SendSecondFlight(c, suite))
  {
  }

  lemma SecondServerHelloAppends(c: Client.Client, sh: ServerHello)
    requires c.suite.Some?
    ensures Appended(c, Client.OnSecondServerHello(c, sh))
  {
  }

  lemma ClientAppends(c: Client.Client, w: Wire)
    requires c.stage != WaitServerHello && c.suite.Some?
    ensures Appended(c, Client.Receive(c, w))
  {
    var m := w.message;
    match c.stage
    case WaitSecondServerHello =>
      if m.ServerHelloMsg? {
        SecondServerHelloAppends(c, m.serverHello);
      }
    case WaitServerFinished =>
      if m.Finished? && Client.ReadServerFinished(c, c.suite.value, m).Ok? {
        FlightAppends(Client.ReadServerFinished(c, c.suite.value, m).value, c.suite.value);
      }
    case _ =>
  }

  lemma RetryBegins(c: Client.Client, s: Server.Server, toClient: seq<Wire>, sc: Server.ServerConfig, keys: seq<nat>)
    requires Retrying(c, s, toClient, sc, keys) && Client.Receive(c, toClient[0]).Ok?
    ensures History(Client.Receive(c, toClient[0]).value.0, c.hello)
  {
    RetryTaken(c, s, toClient, sc, keys);
    RetryProcessed(c, s, toClient, sc, keys);
    var (c', reply) := Client.Receive(c, toClient[0]).value;
    RetriedBegins(c', s, reply, sc, keys);
  }

  lemma RetriedBegins(c: Client.Client, s: Server.Server, toServer: seq<Wire>, sc: Server.ServerConfig, keys: seq<nat>)
    requires Retried(c, s, toServer, sc, keys)
    ensures BeginsRetried(c.transcript, s.clientHello.value, c.hello, s.suite.hash)
  {
    assert c.transcript[2] == Whole(ClientHelloMsg(c.hello));
  }

  lemma HelloBegins(c: Client.Client, s: Server.Server, toClient: seq<Wire>, sc: Server.ServerConfig, keys: seq<nat>)
    requires Answered(c, s, toClient, sc, keys) && c.stage == WaitServerHello
    ensures Client.Receive(c, toClient[0]).Ok? && History(Client.Receive(c, toClient[0]).value.0, c.hello)
  {
    ServerHelloProcessed(c, s, keys, Prior(c) + [Whole(ServerHelloMsg(s.hello))]);
  }

  /** A waiting client and the hello it first sent: what its next step makes of both. */
  lemma HistoryKept(c: Client.Client, s: Server.Server, toServer: seq<Wire>, toClient: seq<Wire>, sc: Server.ServerConfig,
                    keys: seq<nat>, first: ClientHello)
    requires Phase(c, s, toServer, toClient, sc, keys) && toClient != [] && History(c, first)
    requires Client.Receive(c, toClient[0]).Ok?
    ensures History(Client.Receive(c, toClient[0]).value.0, first)
  {
    if c.stage != WaitServerHello {
      ClientAppends(c, toClient[0]);
    } else if Retrying(c, s, toClient, sc, keys) {
      RetryBegins(c, s, toClient, sc, keys);
    } else {
      HelloBegins(c, s, toClient, sc, keys);
    }
  }

  lemma {:induction false} RunKeepsHistory(sys: System, schedule: seq<Side>, sc: Server.ServerConfig, keys: seq<nat>,
                                           first: ClientHello)
    requires Invariant(sys, sc, keys) && History(sys.client, first)
    ensures History(Run(sys, schedule).client, first)
    decreases |schedule|
  {
    if schedule != [] {
      StepKeeps(sys, schedule[0], sc, keys);
      StepKeepsHistory(sys, schedule[0], sc, keys, first);
      RunKeepsHistory(Step(sys, schedule[0]), schedule[1..], sc, keys, first);
    }
  }

  lemma StepKeepsHistory(sys: System, side: Side, sc: Server.ServerConfig, keys: seq<nat>, first: ClientHello)
    requires Invariant(sys, sc, keys) && History(sys.client, first)
    ensures History(Step(sys, side).client, first)
  {
    if sys.failure.None? && side == ClientSide && sys.toClient != [] && Client.Receive(sys.client, sys.toClient[0]).Ok? {
      HistoryKept(sys.client, sys.server, sys.toServer, sys.toClient, sc, keys, first);
    } else {
      assert Step(sys, side).client == sys.client;
    }
  }

  /**
    Both transcripts of a finished run begin with the first hello if the client sent no other,
    and else with the first hello's hash under the hash of the suite, the retry and the second hello.
   */
  lemma FinishedTranscriptsBegin(cc: ClientConfig, sc: Server.ServerConfig, schedule: seq<Side>)
    requires Boot(cc, sc).Ok?
    requires BothFinished(Run(Boot(cc, sc).value, schedule))
    ensures var sys := Run(Boot(cc, sc).value, schedule);
      var first := Boot(cc, sc).value.client.hello;
      && Begins(sys.client.transcript, first, sys.client.hello, sys.server.suite.hash)
      && Begins(sys.server.transcript, first, sys.client.hello, sys.server.suite.hash)
  {
    BootHolds(cc, sc, []);
    RunKeepsHistory(Boot(cc, sc).value, schedule, sc, [], Boot(cc, sc).value.client.hello);
    FinishedRunsAgree(cc, sc, schedule);
  }

  // ---------- termination ----------

  function ClientRank(stage: ClientStage): nat {
    match stage
    case WaitServerHello => 7
    case WaitSecondServerHello => 6
    case WaitEncryptedExtensions => 5
    case WaitCertificateOrRequest => 4
    case WaitCertificate => 3
    case WaitCertificateVerify => 2
    case WaitServerFinished => 1
    case Established => 0
  }

  function ServerRank(stage: Server.ServerStage): nat {
    match stage
    case WaitClientHello => 5
    case WaitSecondClientHello => 4
    case WaitClientCertificate => 3
    case WaitClientCertificateVerify => 2
    case WaitClientFinished => 1
    case Completed => 0
  }

  function Rank(sys: System): nat { ClientRank(sys.client.stage) + ServerRank(sys.server.stage) }

  ghost predicate ClientAdvances(stage: ClientStage, r: Result<(Client.Client, seq<Wire>)>) {
    match r
    case Fail(e) => true
    case Ok((c, sent)) => if stage == Established then c.stage == Established else ClientRank(c.stage) < ClientRank(stage)
  }

  lemma FlightAdvances(c: Client.Client, suite: Suite)
    ensures ClientAdvances(WaitServerFinished, Client.SendSecondFlight(c, suite))
  {
  }

  lemma ServerHelloAdvances(c: Client.Client, sh: ServerHello)
    ensures ClientAdvances(WaitServerHello, Client.OnFirstServerHello(c, sh))
    ensures ClientAdvances(WaitSecondServerHello, Client.OnSecondServerHello(c, sh))
  {
  }

  lemma ClientProgress(c: Client.Client, w: Wire)
    ensures ClientAdvances(c.stage, Client.Receive(c, w))
  {
    var m := w.message;
    match c.stage
    case WaitServerHello =>
      if m.ServerHelloMsg? {
        ServerHelloAdvances(c, m.serverHello);
      }
    case WaitSecondServerHello =>
      if m.ServerHelloMsg? {
        ServerHelloAdvances(c, m.serverHello);
      }
    case WaitServerFinished =>
      if m.Finished? && c.suite.Some? && Client.ReadServerFinished(c, c.suite.value, m).Ok? {
        FlightAdvances(Client.ReadServerFinished(c, c.suite.value, m).value, c.suite.value);
      }
    case _ =>
  }

  ghost predicate ServerAdvances(stage: Server.ServerStage, r: Result<(Server.Server, seq<Wire>)>) {
    match r
    case Fail(e) => true
    case Ok((s, sent)) => ServerRank(s.stage) < ServerRank(stage)
  }

  lemma FirstHelloAdvances(s: Server.Server, ch: ClientHello)
    ensures ServerAdvances(Server.WaitClientHello, Server.OnFirstClientHello(s, ch))
  {
    var n := Server.NegotiateParameters(s, ch);
    if n.Ok? {
      var choice := SelectGroup(n.value.cfg.curves, ch, 0);
      if choice.share.Some? {
        AnswerWaits(n.value, ch, choice.group, choice.share.value);
        WaitsAdvances(Server.Respond(n.value, ch, choice.group, choice.share.value));
      }
    }
  }

  lemma WaitsAdvances(r: Result<(Server.Server, seq<Wire>)>)
    requires Waits(r)
    ensures ServerAdvances(Server.WaitClientHello, r) && ServerAdvances(Server.WaitSecondClientHello, r)
  {
  }

  lemma SecondHelloAdvances(s: Server.Server, ch: ClientHello)
    ensures ServerAdvances(Server.WaitSecondClientHello, Server.OnSecondClientHello(s, ch))
  {
    var r := Server.OnSecondClientHello(s, ch);
    if r.Ok? {
      var s1 := s.(clientHello := Some(ch));
      AnswerWaits(s1, ch, s.group, ch.keyShares[0]);
      WaitsAdvances(Server.Respond(s1, ch, s.group, ch.keyShares[0]));
    }
  }

  lemma ServerProgress(s: Server.Server, w: Wire)
    ensures ServerAdvances(s.stage, Server.Receive(s, w))
  {
    var m := w.message;
    match s.stage
    case WaitClientHello =>
      if m.ClientHelloMsg? {
        FirstHelloAdvances(s, m.clientHello);
      }
    case WaitSecondClientHello =>
      if m.ClientHelloMsg? {
        SecondHelloAdvances(s, m.clientHello);
      }
    case _ =>
  }

  /** Every message read either ends the run, brings one side closer to its end, or is the ticket. */
  lemma StepsEnd(sys: System, side: Side)
    requires sys.failure.None? && (if side == ClientSide then sys.toClient != [] else sys.toServer != [])
    ensures var sys' := Step(sys, side);
      sys'.failure.Some? || Rank(sys') < Rank(sys)
      || (side == ClientSide && sys.client.stage == Established && Rank(sys') == Rank(sys) && |sys'.toClient| < |sys.toClient|)
  {
    match side
    case ClientSide => ClientProgress(sys.client, sys.toClient[0]);
    case ServerSide => ServerProgress(sys.server, sys.toServer[0]);
  }

  /**
    However a run has gone so far, at most Rank + 1 more reads finish both sides, unless there
    is a failure of the kind such runs may have.
   */
  lemma {:induction false} RunsComplete(sys: System, sc: Server.ServerConfig, keys: seq<nat>) returns (schedule: seq<Side>)
    requires Invariant(sys, sc, keys)
    ensures |schedule| <= Rank(sys) + 1
    ensures var end := Run(sys, schedule);
      BothFinished(end) || (end.failure.Some? && Tolerated(end.failure.value, sc, keys))
    decreases if sys.failure.Some? then 0 else Rank(sys) + 1
  {
    if sys.failure.Some? {
      schedule := [];
    } else if sys.toServer == [] && (sys.toClient == [] || sys.client.stage == Established) {
      SomethingToRead(sys.client, sys.server, sys.toServer, sys.toClient, sc, keys);
      schedule := [];
    } else {
      var side := if sys.toServer != [] then ServerSide else ClientSide;
      StepsEnd(sys, side);
      StepKeeps(sys, side, sc, keys);
      var rest := RunsComplete(Step(sys, side), sc, keys);
      if Step(sys, side).failure.Some? {
        schedule := [side];
        assert Run(sys, schedule) == Run(Step(sys, side), []);
      } else {
        schedule := [side] + rest;
        assert schedule[1..] == rest;
      }
    }
  }

  // ---------- what an accepted Finished proves, whatever the network did ----------

  /** Finished values agree only when key, hash and transcript do. */
  lemma FinishedBinds(h: Hash, key: Term, t: Transcript, h': Hash, key': Term, t': Transcript)
    requires FinishedHash(h, key, t) == FinishedHash(h', key', t')
    ensures h == h' && key == key' && t == t'
  {
  }

  /** Traffic secrets agree only when the secret they were derived from and the transcript did. */
  lemma SecretBinds(h: Hash, secret: Term, lbl: string, t: Transcript, secret': Term, t': Transcript)
    requires DeriveSecret(h, secret, lbl, t) == DeriveSecret(h, secret', lbl, t')
    ensures secret == secret' && t == t'
  {
  }

  /**
    A client that accepts the Finished this server computed has the server's transcript and
    keys, given only that each derived its handshake keys from some secret of its own.
   */
  lemma AcceptedServerFinishedBinds(c: Client.Client, suite: Suite, handshakeC: Term, upToHello: Transcript,
                                    s: Server.Server, upToHelloS: Transcript)
    requires c.inSecret == DeriveSecret(suite.hash, handshakeC, SERVER_HANDSHAKE_LABEL, upToHello)
    requires c.outSecret == DeriveSecret(suite.hash, handshakeC, CLIENT_HANDSHAKE_LABEL, upToHello)
    requires c.masterSecret == MasterSecret(suite.hash, handshakeC)
    requires s.outSecret == DeriveSecret(s.suite.hash, s.handshakeSecret, SERVER_HANDSHAKE_LABEL, upToHelloS)
    requires s.inSecret == DeriveSecret(s.suite.hash, s.handshakeSecret, CLIENT_HANDSHAKE_LABEL, upToHelloS)
    requires Server.SendServerFinished(s).Ok? && Server.SendServerFinished(s).value.1[0].message.Finished?
    requires Client.ReadServerFinished(c, suite, Server.SendServerFinished(s).value.1[0].message).Ok?
    ensures suite.hash == s.suite.hash && handshakeC == s.handshakeSecret && upToHello == upToHelloS
    ensures c.transcript == s.transcript && c.outSecret == s.inSecret
    ensures var s' := Server.SendServerFinished(s).value.0;
      var c' := Client.ReadServerFinished(c, suite, Server.SendServerFinished(s).value.1[0].message).value;
      c'.inSecret == s'.outSecret && c'.trafficSecret == s'.trafficSecret && c'.exporter == s'.exporter
      && c'.masterSecret == s'.masterSecret
  {
    var m := FinishedMsg(s.suite.hash, s.outSecret, s.transcript);
    assert Server.SendServerFinished(s).value.1[0] == Wire(s.outSecret, m);
    FinishedBinds(suite.hash, c.inSecret, c.transcript, s.suite.hash, s.outSecret, s.transcript);
    SecretBinds(suite.hash, handshakeC, SERVER_HANDSHAKE_LABEL, upToHello, s.handshakeSecret, upToHelloS);
    SameApplicationKeys(c, suite, s, m);
  }

  lemma SameApplicationKeys(c: Client.Client, suite: Suite, s: Server.Server, m: Message)
    requires Server.SendServerFinished(s).Ok? && m.Finished? && Server.SendServerFinished(s).value.1[0].message == m
    requires Client.ReadServerFinished(c, suite, m).Ok?
    requires suite.hash == s.suite.hash && c.transcript == s.transcript && c.masterSecret == MasterSecret(s.suite.hash, s.handshakeSecret)
    ensures var s' := Server.SendServerFinished(s).value.0;
      var c' := Client.ReadServerFinished(c, suite, m).value;
      c'.inSecret == s'.outSecret && c'.trafficSecret == s'.trafficSecret && c'.exporter == s'.exporter
      && c'.masterSecret == s'.masterSecret
  {
  }

  /** A server that accepts the Finished this client computed has the client's transcript. */
  lemma AcceptedClientFinishedBinds(c: Client.Client, suite: Suite, s: Server.Server, t: Transcript)
    requires TicketsSent(s, t)
    requires var m := Client.SendClientFinished(c, suite).1[0].message; m.Finished? && Server.OnClientFinished(s, m).Ok?
    ensures suite.hash == s.suite.hash && c.outSecret == s.inSecret
    ensures Client.SendClientFinished(c, suite).0.transcript == s.transcript
  {
    assert FinishedHash(suite.hash, c.outSecret, c.transcript) == FinishedHash(s.suite.hash, s.inSecret, t);
  }
}
