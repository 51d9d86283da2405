/** Every step keeps the invariant of Tls12Run, and what follows for whole runs. */
module Tls12Proofs {
  import opened Outcomes
  import opened Tls12Terms
  import opened Tls12Run
  import Symbolic
  import C = Tls13Config
  import Client = Tls12Client
  import Server = Tls12Server

  // ---------- versions ----------

  predicate Descending(s: seq<nat>) { forall i, j :: 0 <= i < j < |s| ==> s[i] > s[j] }

  lemma {:induction false} VersionsDescend(all: seq<nat>, min: nat, max: nat, isClient: bool)
    requires Descending(all)
    ensures Descending(VersionsFrom(all, min, max, isClient))
  {
    if all != [] {
      VersionsDescend(all[1..], min, max, isClient);
      var rest := VersionsFrom(all[1..], min, max, isClient);
      forall i | 0 <= i < |rest| ensures rest[i] < all[0] {
        assert rest[i] in all[1..];
      }
    }
  }

  /** A list of versions has its highest first and no gap. */
  lemma VersionList(min: nat, max: nat, isClient: bool)
    ensures var versions := SupportedVersions(min, max, isClient);
      && Descending(versions)
      && (versions != [] ==> MaxVersion(versions) in versions)
      && (forall v, w :: v in versions && w in {TLS10, TLS11, TLS12, TLS13} && v < w <= MaxVersion(versions) ==> w in versions)
  {
    VersionsDescend([TLS13, TLS12, TLS11, TLS10], min, max, isClient);
  }

  lemma HeadIsHighest(versions: seq<nat>)
    requires Descending(versions)
    ensures forall v :: v in versions ==> v <= MaxVersion(versions)
  {
  }

  lemma {:induction false} FirstIsHighest(preference: seq<nat>, have: seq<nat>, other: nat)
    requires Descending(preference) && C.FirstIn(preference, have).Some?
    requires other in preference && other in have
    ensures other <= C.FirstIn(preference, have).value
  {
    if preference[0] !in have {
      FirstIsHighest(preference[1..], have, other);
    }
  }

  /** Between honest peers the higher of the common versions is chosen, so no canary is taken for an attack. */
  lemma NoDowngradeSignalled(cc: Client.ClientConfig, sc: Server.ServerConfig, vers: nat)
    requires MutualVersion(Server.Versions(sc), Client.Versions(cc)) == Some(vers)
    ensures !Client.DowngradeSignalled(MaxVersion(Client.Versions(cc)), vers, Server.ServerRandom(sc, vers))
  {
    var ours, theirs := Client.Versions(cc), Server.Versions(sc);
    VersionList(cc.minVersion, cc.maxVersion, true);
    VersionList(sc.minVersion, sc.maxVersion, false);
    var low := if MaxVersion(ours) <= MaxVersion(theirs) then MaxVersion(ours) else MaxVersion(theirs);
    if vers < low {
      assert low in ours && low in theirs;
      FirstIsHighest(ours, theirs, low);
    }
  }

  /**
    Whatever hello the server was shown, its answer in a version both could exceed is refused
    by the client, and no other answer is refused for this reason.
   */
  lemma DowngradeRefusedExactly(cc: Client.ClientConfig, sc: Server.ServerConfig, vers: nat)
    requires vers in Server.Versions(sc) && vers <= TLS12
    ensures Client.DowngradeSignalled(MaxVersion(Client.Versions(cc)), vers, Server.ServerRandom(sc, vers))
      <==> MaxVersion(Client.Versions(cc)) >= TLS12 && MaxVersion(Server.Versions(sc)) >= TLS12
           && vers < MaxVersion(Client.Versions(cc)) && vers < MaxVersion(Server.Versions(sc))
  {
    VersionList(cc.minVersion, cc.maxVersion, true);
    VersionList(sc.minVersion, sc.maxVersion, false);
  }

  // ---------- the client's hello ----------

  lemma {:induction false} OfferedAreKnown(suites: seq<nat>, vers: nat, id: nat)
    requires id in Client.OfferedSuites(suites, vers)
    ensures SuiteById(id).Some?
  {
    if SuiteById(suites[0]).None? || id != suites[0] {
      OfferedAreKnown(suites[1..], vers, id);
    }
  }

  lemma {:induction false} NoSuiteIsFallback(table: seq<Suite>)
    requires forall suite :: suite in table ==> suite.id != C.FALLBACK_SCSV
    ensures SuiteIn(table, C.FALLBACK_SCSV).None?
  {
    if table != [] {
      assert table[0] in table;
      NoSuiteIsFallback(table[1..]);
    }
  }

  lemma NoFallback(suites: seq<nat>, vers: nat)
    ensures C.FALLBACK_SCSV !in Client.OfferedSuites(suites, vers)
  {
    NoSuiteIsFallback(CIPHER_SUITES);
    if C.FALLBACK_SCSV in Client.OfferedSuites(suites, vers) {
      OfferedAreKnown(suites, vers, C.FALLBACK_SCSV);
    }
  }

  lemma StartOffers(cc: Client.ClientConfig, sc: Server.ServerConfig)
    requires Client.Start(cc).Ok? && GoodCache(cc, sc)
    ensures var (c, sent) := Client.Start(cc).value;
      Offering(c, sc.ticketKeys) && sent == Plain([ClientHelloMsg(c.hello)])
  {
    var versions := Client.Versions(cc);
    VersionList(cc.minVersion, cc.maxVersion, true);
    NoFallback(cc.cipherSuites, if versions[0] > TLS12 then TLS12 else versions[0]);
    HeadIsHighest(versions);
  }

  // ---------- the server's answer ----------

  /** A server that has read the hello of c and settled on version, protocol and certificate. */
  ghost predicate Welcomed(c: Client.Client, s: Server.Server, sc: Server.ServerConfig) {
    && s.cfg == sc && s.clientHello == c.hello && s.stage == Server.WaitClientHello && !s.resumed && s.peerChain == []
    && s.inSpec == s.outSpec == s.nextIn == s.nextOut == Plaintext
    && s.vers != 0 && s.vers < TLS13 && s.vers in Client.Versions(c.cfg)
    && !Client.DowngradeSignalled(MaxVersion(Client.Versions(c.cfg)), s.vers, s.hello.random)
    && s.hello == Client.EMPTY_HELLO.(vers := s.vers, random := s.hello.random,
         secureRenegotiationSupported := s.hello.secureRenegotiationSupported, alpnProtocol := s.alpn,
         scts := s.hello.scts, supportedPoints := s.hello.supportedPoints)
    && C.AlpnAcceptable(c.hello.alpnProtocols, s.alpn)
    && s.abilities == Server.AbilitiesOf(s.vers, s.abilities.ecdheOk, s.identity)
  }

  lemma Welcome(c: Client.Client, sc: Server.ServerConfig, vers: nat)
    requires Offering(c, sc.ticketKeys)
    requires MutualVersion(Server.Versions(sc), Server.OfferedVersions(c.hello)) == Some(vers) && vers != TLS13
    ensures match Server.ProcessClientHello(Server.Init(sc).(clientHello := c.hello, vers := vers), c.hello)
      case Fail(e) => e.Configuration?
      case Ok(s) => Welcomed(c, s, sc)
  {
    VersionSettled(c, sc, vers);
    HelloProcessed(c, sc, vers);
  }

  lemma VersionSettled(c: Client.Client, sc: Server.ServerConfig, vers: nat)
    requires Offering(c, sc.ticketKeys)
    requires MutualVersion(Server.Versions(sc), Server.OfferedVersions(c.hello)) == Some(vers) && vers != TLS13
    ensures vers != 0 && vers < TLS13 && vers in Client.Versions(c.cfg)
    ensures !Client.DowngradeSignalled(MaxVersion(Client.Versions(c.cfg)), vers, Server.ServerRandom(sc, vers))
  {
    NoDowngradeSignalled(c.cfg, sc, vers);
  }

  lemma HelloProcessed(c: Client.Client, sc: Server.ServerConfig, vers: nat)
    requires vers != 0 && vers < TLS13 && vers in Client.Versions(c.cfg)
    requires !Client.DowngradeSignalled(MaxVersion(Client.Versions(c.cfg)), vers, Server.ServerRandom(sc, vers))
    requires c.hello.compressionMethods == [0] && c.hello.secureRenegotiation == []
    ensures match Server.ProcessClientHello(Server.Init(sc).(clientHello := c.hello, vers := vers), c.hello)
      case Fail(e) => e.Configuration?
      case Ok(s) => Welcomed(c, s, sc)
  {
  }

  /** The outcome of the server's first step: a configuration failure, or one of the two answers. */
  ghost predicate AnsweredBy(c: Client.Client, r: Server.Step, sc: Server.ServerConfig) {
    match r
    case Fail(e) => e.Configuration?
    case Ok((s, sent)) => Answered(c, s, sent, sc) || Resumed(c, s, sent, sc)
  }

  /** A key exchange is possible with the chosen suite, short of what is configured. */
  lemma KeyExchangeFitsSuite(s: Server.Server)
    requires s.abilities == Server.AbilitiesOf(s.vers, s.abilities.ecdheOk, s.identity)
    requires CipherSuiteOk(s.abilities, s.suite)
    ensures match Server.GenerateServerKeyExchange(s)
      case Fail(e) => e.Configuration?
      case Ok(m) => m.Some? == s.suite.ecdhe && (m.Some? ==> m.value.ServerKeyExchange?)
    ensures !s.suite.ecdhe ==> s.identity.decrypter && s.identity.key.kind.Rsa?
  {
  }

  lemma FullAnswer(c: Client.Client, s: Server.Server, sc: Server.ServerConfig)
    requires Offering(c, sc.ticketKeys) && Welcomed(c, s, sc)
    ensures AnsweredBy(c, Server.PickCipherSuite(s, c.hello), sc)
  {
    var suite := SelectCipherSuite(Server.PreferenceList(sc.preferenceOrder, sc.cipherSuites), c.hello.cipherSuites, s.abilities);
    if suite.Some? {
      var s1 := s.(suite := suite.value);
      FullBegins(c, s1, sc);
      FlightAnswers(c, Server.BeginFull(s1, c.hello), sc);
    }
  }

  /** A server that has chosen its suite and begun to hash a full handshake. */
  ghost predicate Begun(c: Client.Client, s: Server.Server, sc: Server.ServerConfig) {
    && Acceptable(c, s) && s.cfg == sc && !s.resumed && s.peerChain == [] && s.inSpec == s.outSpec == Plaintext
    && s.hello.sessionId == Nil && HashOf(s.hash, s.vers, s.suite)
    && s.hash.messages == [ClientHelloMsg(c.hello), ServerHelloMsg(s.hello)]
    && (s.vers >= TLS12 && Server.RequestsClientCert(sc) ==> s.hash.buffer.Some?)
    && s.abilities == Server.AbilitiesOf(s.vers, s.abilities.ecdheOk, s.identity)
    && CipherSuiteOk(s.abilities, s.suite)
  }

  lemma FullBegins(c: Client.Client, s: Server.Server, sc: Server.ServerConfig)
    requires Offering(c, sc.ticketKeys) && Welcomed(c, s, sc)
    requires CipherSuiteOk(s.abilities, s.suite) && s.suite.id in c.hello.cipherSuites && SuiteById(s.suite.id) == Some(s.suite)
    ensures Begun(c, Server.BeginFull(s, c.hello), sc)
  {
    var s1 := Server.BeginFull(s, c.hello);
    HashBegins(s1, sc.clientAuth == C.NO_CLIENT_CERT);
    FullAccepted(c, s, s1, sc);
  }

  lemma HashBegins(s: Server.Server, discard: bool)
    ensures var hash := Server.BeginHash(s, discard);
      && HashOf(hash, s.vers, s.suite) && hash.messages == [ClientHelloMsg(s.clientHello), ServerHelloMsg(s.hello)]
      && (!discard && s.vers >= TLS12 ==> hash.buffer.Some?)
  {
  }

  lemma FullAccepted(c: Client.Client, s: Server.Server, s1: Server.Server, sc: Server.ServerConfig)
    requires Offering(c, sc.ticketKeys) && Welcomed(c, s, sc)
    requires s.suite.id in c.hello.cipherSuites && SuiteById(s.suite.id) == Some(s.suite)
    requires s1 == s.(hash := s1.hash, hello := s.hello.(ocspStapling := s1.hello.ocspStapling,
      ticketSupported := c.hello.ticketSupported && !sc.ticketsDisabled, cipherSuite := s.suite.id))
    ensures Acceptable(c, s1)
  {
  }

  lemma FlightAnswers(c: Client.Client, s: Server.Server, sc: Server.ServerConfig)
    requires Offering(c, sc.ticketKeys) && Begun(c, s, sc)
    ensures AnsweredBy(c, Server.SendFlight(s), sc)
  {
    KeyExchangeFitsSuite(s);
    match Server.GenerateServerKeyExchange(s)
    case Fail(e) =>
    case Ok(m) =>
      var kx := Server.Parts(m);
      var (s1, sent) := Server.SendParts(s, kx).value;
      FlightSent(c, s, s1, kx, sc);
  }

  lemma FlightSent(c: Client.Client, s: Server.Server, s1: Server.Server, kx: seq<Message>, sc: Server.ServerConfig)
    requires Offering(c, sc.ticketKeys) && Begun(c, s, sc)
    requires s1 == s.(hash := s1.hash, curve := s1.curve, stage := s1.stage)
    requires s1.stage == (if Server.RequestsClientCert(sc) then Server.WaitClientCertificate else Server.WaitClientKeyExchange)
    requires s1.hash == Server.WriteAll(s.hash, Server.Flight(s, kx))
    requires Server.GenerateServerKeyExchange(s).Ok? && KeyExchangePart(s) == kx
    requires if s.suite.ecdhe then kx != [] && kx[0].ServerKeyExchange? && s1.curve == kx[0].curve
             else s.identity.decrypter && s.identity.key.kind.Rsa?
    ensures Answered(c, s1, Plain([ServerHelloMsg(s.hello)] + Server.Flight(s, kx)), sc)
  {
    SameKeyExchange(s, s1);
    AcceptableStill(c, s, s1);
    ServingBegins(s, s1, kx, sc);
    FlightHashed(s.hash, s1.hash, Server.Flight(s, kx), s.vers, s.suite);
    assert ServerFlight(s1) == Server.Flight(s, kx);
  }

  lemma AcceptableStill(c: Client.Client, s: Server.Server, s1: Server.Server)
    requires Acceptable(c, s) && s1.clientHello == s.clientHello && s1.hello == s.hello && s1.vers == s.vers
    requires s1.suite == s.suite && s1.alpn == s.alpn
    ensures Acceptable(c, s1)
  {
  }

  lemma FlightHashed(hash: HandshakeHash, hash1: HandshakeHash, flight: seq<Message>, vers: nat, suite: Suite)
    requires HashOf(hash, vers, suite) && hash1 == Server.WriteAll(hash, flight)
    ensures HashOf(hash1, vers, suite) && hash1.messages == hash.messages + flight
    ensures hash.buffer.Some? ==> hash1.buffer.Some?
  {
  }

  lemma ServingBegins(s: Server.Server, s1: Server.Server, kx: seq<Message>, sc: Server.ServerConfig)
    requires s.cfg == sc && !s.resumed && s.peerChain == [] && s.inSpec == s.outSpec == Plaintext
    requires s1 == s.(hash := s1.hash, curve := s1.curve, stage := s1.stage)
    requires s1.stage == (if Server.RequestsClientCert(sc) then Server.WaitClientCertificate else Server.WaitClientKeyExchange)
    requires s.vers >= TLS12 && Server.RequestsClientCert(sc) ==> s1.hash.buffer.Some?
    requires Server.GenerateServerKeyExchange(s1).Ok? && KeyExchangePart(s1) == kx
    requires if s.suite.ecdhe then kx != [] && kx[0].ServerKeyExchange? && s1.curve == kx[0].curve
             else s.identity.decrypter && s.identity.key.kind.Rsa?
    ensures Serving(s1, sc)
  {
  }

  lemma SameKeyExchange(s: Server.Server, s1: Server.Server)
    requires s1 == s.(hash := s1.hash, curve := s1.curve, stage := s1.stage)
    ensures Server.GenerateServerKeyExchange(s1) == Server.GenerateServerKeyExchange(s) && KeyExchangePart(s1) == KeyExchangePart(s)
    ensures Server.Flight(s1, KeyExchangePart(s)) == Server.Flight(s, KeyExchangePart(s))
  {
  }

  /** What DoResume makes of the state before it sends its Finished. */
  ghost predicate Resuming(c: Client.Client, s: Server.Server, sc: Server.ServerConfig) {
    && Acceptable(c, s) && s.cfg == sc && s.resumed && s.inSpec == s.outSpec == Plaintext
    && HashOf(s.hash, s.vers, s.suite) && s.hash.messages == [ClientHelloMsg(c.hello), ServerHelloMsg(s.hello)]
    && s.hello.sessionId == c.hello.sessionId && c.session.Some? && c.session.value.vers == s.vers
    && c.session.value.cipherSuite == s.suite.id && c.session.value.masterSecret == s.masterSecret
    && s.nextIn == ClientSpec(s.vers, s.suite, Server.Keys(s)) && s.nextOut == ServerSpec(s.vers, s.suite, Server.Keys(s))
  }

  lemma ResumedAnswer(c: Client.Client, s: Server.Server, sc: Server.ServerConfig, ticket: Server.OpenedTicket)
    requires Offering(c, sc.ticketKeys) && Welcomed(c, s.(resumed := false), sc) && s.resumed
    requires Server.DecryptTicket(sc.ticketKeys, c.hello.sessionTicket) == Some(ticket)
    requires s.suite.id == ticket.state.cipherSuite && SuiteById(s.suite.id) == Some(s.suite)
    requires ticket.state.vers == s.vers && s.suite.id in c.hello.cipherSuites
    ensures AnsweredBy(c, Server.DoResume(s, c.hello, ticket), sc)
  {
    var s1 := s.(hello := s.hello.(cipherSuite := s.suite.id, sessionId := c.hello.sessionId, ticketSupported := ticket.usedOldKey));
    var r := Server.ProcessCertsFromClient(s1.(hash := Server.BeginHash(s1, true)), ticket.state.chain);
    if r.Ok? && s.cfg.connectionOk {
      var s2 := Server.EstablishKeys(r.value.(masterSecret := ticket.state.masterSecret));
      ResumesTicket(c, s, s2, sc, ticket);
      ResumedSent(c, s2, sc);
    }
  }

  lemma ResumesTicket(c: Client.Client, s: Server.Server, s2: Server.Server, sc: Server.ServerConfig, ticket: Server.OpenedTicket)
    requires Offering(c, sc.ticketKeys) && Welcomed(c, s.(resumed := false), sc) && s.resumed
    requires Server.DecryptTicket(sc.ticketKeys, c.hello.sessionTicket) == Some(ticket)
    requires s.suite.id == ticket.state.cipherSuite && SuiteById(s.suite.id) == Some(s.suite)
    requires ticket.state.vers == s.vers && s.suite.id in c.hello.cipherSuites
    requires
      var s1 := s.(hello := s.hello.(cipherSuite := s.suite.id, sessionId := c.hello.sessionId, ticketSupported := ticket.usedOldKey));
      s2 == Server.EstablishKeys(s1.(hash := Server.BeginHash(s1, true), peerChain := ticket.state.chain,
                                     masterSecret := ticket.state.masterSecret))
    ensures Resuming(c, s2, sc)
  {
    assert Acceptable(c, s2);
  }

  lemma ResumedSent(c: Client.Client, s: Server.Server, sc: Server.ServerConfig)
    requires Offering(c, sc.ticketKeys) && Resuming(c, s, sc)
    ensures AnsweredBy(c, Server.FinishResume(s), sc)
  {
    match Server.SendSessionTicket(s)
    case Fail(e) =>
    case Ok((s1, ticket)) =>
      var (s2, finished) := Server.SendFinished(s1);
      ResumedFlight(c, s, s1, ticket, sc);
  }

  lemma ResumedFlight(c: Client.Client, s: Server.Server, s1: Server.Server, ticket: seq<Message>, sc: Server.ServerConfig)
    requires Offering(c, sc.ticketKeys) && Resuming(c, s, sc)
    requires Server.SendSessionTicket(s) == Ok((s1, ticket))
    ensures var (s2, finished) := Server.SendFinished(s1);
      Resumed(c, s2.(stage := Server.WaitChangeCipherSpec), Plain([ServerHelloMsg(s.hello)]) + (Plain(ticket) + finished), sc)
  {
    var (s2, finished) := Server.SendFinished(s1);
    var s3 := s2.(stage := Server.WaitChangeCipherSpec);
    FinalSent(s, s1, s3, ticket);
    assert Acceptable(c, s3);
    assert Closed(s3, Server.Keys(s3), sc);
  }

  /** What sendSessionTicket and sendFinished send is the final flight the invariants speak of. */
  lemma FinalSent(s: Server.Server, s1: Server.Server, s3: Server.Server, ticket: seq<Message>)
    requires Server.SendSessionTicket(s) == Ok((s1, ticket)) && s.outSpec == Plaintext
    requires s3 == Server.SendFinished(s1).0.(stage := s3.stage)
    ensures FinalFor(FirstFinalStage(s3), s3, s3.outSpec, s.hash.messages)
      == Final(Plain(ticket) + Server.SendFinished(s1).1, s3.hash.messages)
  {
    assert Server.TicketState(s3) == Server.TicketState(s);
  }

  lemma HelloAnswered(c: Client.Client, sc: Server.ServerConfig)
    requires Offering(c, sc.ticketKeys)
    ensures AnsweredBy(c, Server.OnClientHello(Server.Init(sc), c.hello), sc)
  {
    var vers := MutualVersion(Server.Versions(sc), Server.OfferedVersions(c.hello));
    if vers.Some? && vers.value != TLS13 {
      Welcome(c, sc, vers.value);
      var r := Server.ProcessClientHello(Server.Init(sc).(clientHello := c.hello, vers := vers.value), c.hello);
      if r.Ok? {
        AnswerFits(c, r.value, sc);
      }
    }
  }

  lemma AnswerFits(c: Client.Client, s: Server.Server, sc: Server.ServerConfig)
    requires Offering(c, sc.ticketKeys) && Welcomed(c, s, sc)
    ensures AnsweredBy(c, Server.Answer(s, c.hello), sc)
  {
    var ticket := if sc.ticketsDisabled then None else Server.DecryptTicket(sc.ticketKeys, c.hello.sessionTicket);
    if ticket.None? {
      FullAnswer(c, s, sc);
    } else {
      var s1 := s.(sessionState := Some(ticket.value.state));
      var suite := Server.ResumptionSuite(s1, c.hello, ticket.value.state);
      if suite.None? {
        FullAnswer(c, s1, sc);
      } else {
        ResumedAnswer(c, s1.(suite := suite.value, resumed := true), sc, ticket.value);
      }
    }
  }

  // ---------- the client reads the ServerHello ----------

  /** The outcome of a client's step: a configuration failure, or a phase again. */
  ghost predicate ClientGoesTo(r: Client.Step, s: Server.Server, toServer: seq<Wire>, toClient: seq<Wire>, sc: Server.ServerConfig) {
    match r
    case Fail(e) => e.Configuration?
    case Ok((c, sent)) => Phase(c, s, toServer + sent, toClient, sc)
  }

  /** The client once it has accepted the parameters in the ServerHello. */
  function Settled(c: Client.Client, s: Server.Server): Client.Client {
    c.(vers := s.vers, serverHello := s.hello, suite := s.suite, alpn := s.alpn)
  }

  lemma HelloPasses(c: Client.Client, s: Server.Server)
    requires Offering(c, s.cfg.ticketKeys) && Acceptable(c, s)
    requires Client.ServerResumed(c, s.hello) ==> c.session.value.vers == s.vers && c.session.value.cipherSuite == s.suite.id
    ensures Client.OnServerHello(c, s.hello) == Ok((
      if Client.ServerResumed(c, s.hello) then Client.BeginResumed(Client.Restored(Settled(c, s), c.session.value))
      else Client.BeginFull(Settled(c, s)), []))
  {
  }

  lemma FullBegun(c: Client.Client, s: Server.Server) returns (c': Client.Client)
    requires Offering(c, s.cfg.ticketKeys) && Acceptable(c, s) && s.hello.sessionId == Nil && !s.resumed
    requires HashOf(s.hash, s.vers, s.suite)
    ensures Client.OnServerHello(c, s.hello) == Ok((c', []))
    ensures Paired(c', s) && ClientSafe(c') && c'.stage == Client.WaitCertificate && c'.cfg == c.cfg
    ensures c'.hash.messages == [ClientHelloMsg(c.hello), ServerHelloMsg(s.hello)]
    ensures c'.inSpec == c'.outSpec == Plaintext && c'.issued.None? && c'.requested.None?
  {
    HelloPasses(c, s);
    c' := BegunFull(c, s);
  }

  lemma BegunFull(c: Client.Client, s: Server.Server) returns (c': Client.Client)
    requires Offering(c, s.cfg.ticketKeys) && Acceptable(c, s) && !s.resumed
    requires HashOf(s.hash, s.vers, s.suite)
    ensures c' == Client.BeginFull(Settled(c, s))
    ensures Paired(c', s) && ClientSafe(c') && c'.stage == Client.WaitCertificate && c'.cfg == c.cfg
    ensures c'.hash.messages == [ClientHelloMsg(c.hello), ServerHelloMsg(s.hello)]
    ensures c'.inSpec == c'.outSpec == Plaintext && c'.issued.None? && c'.requested.None?
  {
    c' := Client.BeginFull(Settled(c, s));
    ClientHashBegins(Settled(c, s), !MaySign(c.cfg));
  }

  lemma ClientHashBegins(c: Client.Client, discard: bool)
    ensures var hash := Client.BeginHash(c, discard);
      && HashOf(hash, c.vers, c.suite) && hash.messages == [ClientHelloMsg(c.hello), ServerHelloMsg(c.serverHello)]
      && (!discard && c.vers >= TLS12 ==> hash.buffer.Some?)
  {
  }

  lemma ReadFirst(m: Message, rest: seq<Message>)
    ensures Plain([m] + rest)[0] == Wire(Plaintext, Handshake(m)) && Plain([m] + rest)[1..] == Plain(rest)
  {
    assert ([m] + rest)[1..] == rest;
  }

  lemma ReadingOn(c: Client.Client, c': Client.Client, s: Server.Server, toClient: seq<Wire>, sc: Server.ServerConfig, r: Client.Step)
    requires r == Ok((c', [])) && Reading(c', s, toClient, sc)
    ensures ClientGoesTo(r, s, [], toClient, sc)
  {
  }

  lemma AnsweredStep(c: Client.Client, s: Server.Server, toClient: seq<Wire>, sc: Server.ServerConfig)
    requires Answered(c, s, toClient, sc)
    ensures ClientGoesTo(Client.Receive(c, toClient[0]), s, [], toClient[1..], sc)
  {
    var c' := FullBegun(c, s);
    ReadFirst(ServerHelloMsg(s.hello), ServerFlight(s));
    BegunReads(c', s, sc);
    ReadingOn(c, c', s, toClient[1..], sc, Client.Receive(c, toClient[0]));
  }

  lemma BegunReads(c: Client.Client, s: Server.Server, sc: Server.ServerConfig)
    requires Paired(c, s) && Serving(s, sc) && ClientSafe(c) && c.stage == Client.WaitCertificate
    requires c.inSpec == c.outSpec == Plaintext && c.issued.None? && c.requested.None?
    requires s.hash.messages == c.hash.messages + ServerFlight(s)
    ensures Reading(c, s, Plain(ServerFlight(s)), sc)
  {
    assert ServerFlight(s) == RestFor(Client.WaitCertificate, s);
  }

  // ---------- the client reads the server's flight ----------

  /** A client about to answer the server's flight; sent is its answer so far. */
  ghost predicate Sending(c: Client.Client, s: Server.Server, sent: seq<Message>, sc: Server.ServerConfig) {
    && Paired(c, s) && Serving(s, sc)
    && c.inSpec == c.outSpec == Plaintext && c.issued.None?
    && c.hash.messages == s.hash.messages + sent
    && (c.vers >= TLS12 && c.reply.chain != [] ==> c.hash.buffer.Some?)
    && (if Server.RequestsClientCert(sc) then RequestRead(c, s) else c.requested.None?)
    && c.peerChain == s.identity.chain != []
    && (s.suite.ecdhe ==> c.agreed.Some? && Agrees(c.agreed.value, s))
  }

  /** What the client has sent before its key exchange message. */
  function CertificatePart(c: Client.Client): seq<Message> {
    if c.requested.None? then [] else [CertificateMsg(c.reply.chain)]
  }

  lemma KeyExchangeAgrees(c: Client.Client, s: Server.Server, sent: seq<Message>, sc: Server.ServerConfig)
    requires Sending(c, s, sent, sc)
    ensures match Client.GenerateClientKeyExchange(c)
      case Fail(e) => false
      case Ok(a) => Agrees(a, s)
  {
  }

  lemma FlyingOn(c: Client.Client, s: Server.Server, pending: seq<Message>, records: seq<Wire>, sc: Server.ServerConfig)
    requires ClientFlight(c, s, pending, records, sc)
    ensures ClientGoesTo(Ok((c, records)), s, [], [], sc)
  {
    assert [] + records == records;
  }

  lemma FinalFlies(c: Client.Client, c': Client.Client, s: Server.Server, sent: seq<Message>, records: seq<Wire>, premaster: Term,
                   sc: Server.ServerConfig)
    requires Paired(c, s) && Serving(s, sc)
    requires c.inSpec == c.outSpec == Plaintext && c.issued.None?
    requires c.hash.messages == s.hash.messages + sent
    requires PendingFits(s, sent, MasterFrom(s.vers, s.suite, premaster, s.clientHello.random, s.hello.random))
    requires Client.SendFinal(c, premaster, sent) == Ok((c', records))
    ensures ClientFlight(c', s, sent, records, sc)
  {
  }

  /** The answer before Finished is what this server expects. */
  lemma FinalGoes(c: Client.Client, s: Server.Server, sent: seq<Message>, premaster: Term, sc: Server.ServerConfig)
    requires Paired(c, s) && Serving(s, sc)
    requires c.inSpec == c.outSpec == Plaintext && c.issued.None?
    requires c.hash.messages == s.hash.messages + sent
    requires PendingFits(s, sent, MasterFrom(s.vers, s.suite, premaster, s.clientHello.random, s.hello.random))
    ensures ClientGoesTo(Client.SendFinal(c, premaster, sent), s, [], [], sc)
  {
    var (c', records) := Client.SendFinal(c, premaster, sent).value;
    FinalFlies(c, c', s, sent, records, premaster, sc);
    FlyingOn(c', s, sent, records, sc);
  }

  lemma VerifyMade(c: Client.Client, s: Server.Server, sent: seq<Message>, sc: Server.ServerConfig)
    requires Sending(c, s, sent, sc) && c.reply.chain != [] && c.requested.Some?
    ensures match Client.MakeCertificateVerify(c, c.requested.value)
      case Fail(e) => e.Configuration?
      case Ok(m) => VerifyFits(s, m, c.reply.chain[0].key, s.hash.messages + sent)
  {
  }

  lemma VerifyGoes(c: Client.Client, s: Server.Server, ckx: Message, premaster: Term, sc: Server.ServerConfig)
    requires Sending(c, s, CertificatePart(c) + [ckx], sc)
    requires KeyExchangeFits(s, ckx, MasterFrom(s.vers, s.suite, premaster, s.clientHello.random, s.hello.random))
    ensures ClientGoesTo(Client.SendVerify(c, premaster, CertificatePart(c) + [ckx]), s, [], [], sc)
  {
    var sent := CertificatePart(c) + [ckx];
    if c.requested.None? || c.reply.chain == [] {
      FinalGoes(c, s, sent, premaster, sc);
    } else {
      VerifyMade(c, s, sent, sc);
      var r := Client.MakeCertificateVerify(c, c.requested.value);
      if r.Ok? {
        var m := r.value;
        assert (sent + [m])[..2] == sent;
        assert c.hash.messages + [m] == s.hash.messages + (sent + [m]);
        FinalGoes(c.(hash := c.hash.Write(m)), s, sent + [m], premaster, sc);
      }
    }
  }

  lemma AnswerGoes(c: Client.Client, s: Server.Server, sc: Server.ServerConfig)
    requires Sending(c, s, CertificatePart(c), sc)
    ensures ClientGoesTo(Client.SendKeyExchange(c, CertificatePart(c)), s, [], [], sc)
  {
    KeyExchangeAgrees(c, s, CertificatePart(c), sc);
    var a := Client.GenerateClientKeyExchange(c).value;
    var c1 := c.(hash := c.hash.Write(a.message));
    assert c1.hash.messages == s.hash.messages + (CertificatePart(c) + [a.message]);
    VerifyGoes(c1, s, a.message, a.premaster, sc);
  }

  lemma DoneRead(c: Client.Client, s: Server.Server, sc: Server.ServerConfig)
    requires Sending(c.(hash := c.hash.Write(ServerHelloDone)), s, [], sc)
    ensures ClientGoesTo(Client.OnDone(c, ServerHelloDone), s, [], [], sc)
  {
    var c1 := c.(hash := c.hash.Write(ServerHelloDone));
    if c.requested.None? {
      AnswerGoes(c1, s, sc);
    } else {
      var m := CertificateMsg(c.reply.chain);
      var c2 := c1.(hash := c1.hash.Write(m));
      assert c2.hash.messages == s.hash.messages + [m];
      AnswerGoes(c2, s, sc);
    }
  }

  /** A client in the middle of the server's flight, past its certificate. */
  ghost predicate Midway(c: Client.Client, s: Server.Server, rest: seq<Message>, sc: Server.ServerConfig) {
    && InFlight(c, s, rest, sc) && ReadsFlight(c.stage) && ClientSafe(c)
    && c.peerChain == s.identity.chain != [] && c.requested.None?
  }

  lemma FlightEnds(c: Client.Client, s: Server.Server, sc: Server.ServerConfig)
    requires InFlight(c, s, [ServerHelloDone], sc) && ReadsFlight(c.stage) && ClientSafe(c)
    requires c.peerChain == s.identity.chain != []
    requires if Server.RequestsClientCert(sc) then RequestRead(c, s) else c.requested.None?
    requires s.suite.ecdhe ==> c.agreed.Some? && Agrees(c.agreed.value, s)
    ensures ClientGoesTo(Client.OnDone(c, ServerHelloDone), s, [], [], sc)
  {
    DoneRead(c, s, sc);
  }

  lemma RequestTaken(c: Client.Client, s: Server.Server, reply: Identity, sc: Server.ServerConfig) returns (c': Client.Client)
    requires Midway(c, s, [Server.Request(s), ServerHelloDone], sc) && Server.RequestsClientCert(sc)
    requires s.suite.ecdhe ==> c.agreed.Some? && Agrees(c.agreed.value, s)
    requires Client.GetClientCertificate(c.cfg) == Ok(reply)
    ensures Client.OnRequest(c, Server.Request(s)) == Ok((c', []))
    ensures Reading(c', s, Plain([ServerHelloDone]), sc)
  {
    c' := Client.OnRequest(c, Server.Request(s)).value.0;
    assert c.hash.messages + [Server.Request(s), ServerHelloDone] == c'.hash.messages + [ServerHelloDone];
  }

  lemma RequestStep(c: Client.Client, s: Server.Server, sc: Server.ServerConfig)
    requires Midway(c, s, FromRequest(s), sc)
    requires s.suite.ecdhe ==> c.agreed.Some? && Agrees(c.agreed.value, s)
    ensures ClientGoesTo(Client.OnRequest(c, FromRequest(s)[0]), s, [], Plain(FromRequest(s)[1..]), sc)
  {
    if Server.RequestsClientCert(sc) {
      assert FromRequest(s) == [Server.Request(s), ServerHelloDone];
      var reply := Client.GetClientCertificate(c.cfg);
      if reply.Ok? {
        var c' := RequestTaken(c, s, reply.value, sc);
        assert FromRequest(s)[1..] == [ServerHelloDone];
        ReadingOn(c, c', s, Plain([ServerHelloDone]), sc, Client.OnRequest(c, Server.Request(s)));
      }
    } else {
      assert FromRequest(s) == [ServerHelloDone];
      assert FromRequest(s)[1..] == [];
      FlightEnds(c, s, sc);
    }
  }

  /** What a server puts into its key exchange. */
  lemma KeyExchangeMade(s: Server.Server, m: Message) returns (how: Signing)
    requires Server.GenerateServerKeyExchange(s) == Ok(Some(m))
    ensures m.ServerKeyExchange? && C.SupportedCurve(m.curve) && m.point == Dh(Symbolic.Ecdhe(m.curve, s.cfg.exponent).Public())
    ensures CheckSigning(s.vers, s.identity.key, m.scheme) == Some(how) && (how.sigType in {Pkcs1, Pss}) != s.suite.ecSign
    ensures Verifies(s.identity.key, how, Client.ServerParams(how.hash, s.clientHello, s.hello, m.curve, m.point), m.signature)
    ensures s.vers >= TLS12 ==>
      m.scheme.Some? && (s.clientHello.signatureAlgorithms != [] ==> m.scheme.value in s.clientHello.signatureAlgorithms)
  {
    how := ChooseSigning(s.vers, s.identity, s.clientHello.signatureAlgorithms).value;
  }

  /** The client accepts this server's key exchange, and both then hold the same premaster secret. */
  lemma KeyExchangeAccepted(c: Client.Client, s: Server.Server, m: Message)
    requires s.clientHello == c.hello && c.serverHello == s.hello && c.vers == s.vers && c.suite == s.suite && s.suite.ecdhe
    requires Server.GenerateServerKeyExchange(s) == Ok(Some(m)) && s.curve == (if m.ServerKeyExchange? then m.curve else 0)
    requires TLS12 <= s.vers ==> c.hello.signatureAlgorithms == C.SUPPORTED_SIGNATURE_ALGORITHMS
    ensures m.ServerKeyExchange?
    ensures match Client.ProcessServerKeyExchange(c, s.identity.key, m)
      case Fail(e) => false
      case Ok(a) => Agrees(a, s)
  {
    var how := KeyExchangeMade(s, m);
    SharedSecretsAgree(m.curve, c.cfg.exponent, s.cfg.exponent);
    KeyExchangeProcessed(c, s.identity.key, m, how, SharedSecret(Symbolic.Ecdhe(m.curve, c.cfg.exponent), m.point));
  }

  lemma KeyExchangeProcessed(c: Client.Client, key: PublicKey, m: Message, how: Signing, premaster: Term)
    requires m.ServerKeyExchange? && C.SupportedCurve(m.curve) && c.suite.ecdhe
    requires premaster == SharedSecret(Symbolic.Ecdhe(m.curve, c.cfg.exponent), m.point) != Nil
    requires CheckSigning(c.vers, key, m.scheme) == Some(how) && (how.sigType in {Pkcs1, Pss}) != c.suite.ecSign
    requires Verifies(key, how, Client.ServerParams(how.hash, c.hello, c.serverHello, m.curve, m.point), m.signature)
    requires c.vers >= TLS12 ==> m.scheme.Some? && m.scheme.value in c.hello.signatureAlgorithms
    ensures Client.ProcessServerKeyExchange(c, key, m)
      == Ok(Client.Agreement(premaster, ClientKeyExchange(Dh(Symbolic.Ecdhe(m.curve, c.cfg.exponent).Public()))))
  {
  }

  lemma KeyExchangeTaken(c: Client.Client, s: Server.Server, m: Message, sc: Server.ServerConfig) returns (c': Client.Client)
    requires Midway(c, s, [m] + FromRequest(s), sc) && s.suite.ecdhe && KeyExchangePart(s) == [m]
    requires c.cfg.serverChainOk && !c.peerChain[0].key.kind.OtherKind? && c.cfg.connectionOk
    ensures Client.OnKeyExchange(c, m) == Ok((c', []))
    ensures Reading(c', s, Plain(FromRequest(s)), sc)
  {
    KeyExchangeAccepted(c, s, m);
    c' := Client.OnKeyExchange(c, m).value.0;
    assert c'.hash.messages == c.hash.messages + [m];
    assert c.hash.messages + ([m] + FromRequest(s)) == c'.hash.messages + FromRequest(s);
  }

  lemma KeyExchangeStep(c: Client.Client, s: Server.Server, sc: Server.ServerConfig)
    requires Midway(c, s, FromKeyExchange(s), sc)
    ensures ClientGoesTo(Client.OnKeyExchange(c, FromKeyExchange(s)[0]), s, [], Plain(FromKeyExchange(s)[1..]), sc)
  {
    if !c.cfg.serverChainOk || c.peerChain[0].key.kind.OtherKind? || !c.cfg.connectionOk {
    } else if s.suite.ecdhe {
      var m := KeyExchangePart(s)[0];
      assert FromKeyExchange(s)[1..] == FromRequest(s);
      var c' := KeyExchangeTaken(c, s, m, sc);
      ReadingOn(c, c', s, Plain(FromRequest(s)), sc, Client.OnKeyExchange(c, m));
    } else {
      assert FromKeyExchange(s) == FromRequest(s);
      RequestStep(c, s, sc);
    }
  }

  lemma StatusTaken(c: Client.Client, s: Server.Server, m: Message, sc: Server.ServerConfig) returns (c': Client.Client)
    requires Midway(c, s, [m] + FromKeyExchange(s), sc) && Server.StatusPart(s) == [m]
    ensures Client.OnStatus(c, m) == Ok((c', []))
    ensures Reading(c', s, Plain(FromKeyExchange(s)), sc)
  {
    c' := Client.OnStatus(c, m).value.0;
    assert c.hash.messages + ([m] + FromKeyExchange(s)) == c'.hash.messages + FromKeyExchange(s);
  }

  lemma StatusStep(c: Client.Client, s: Server.Server, sc: Server.ServerConfig)
    requires Midway(c, s, FromStatus(s), sc)
    ensures ClientGoesTo(Client.OnStatus(c, FromStatus(s)[0]), s, [], Plain(FromStatus(s)[1..]), sc)
  {
    if Server.StatusPart(s) != [] {
      var m := Server.StatusPart(s)[0];
      assert FromStatus(s)[1..] == FromKeyExchange(s);
      var c' := StatusTaken(c, s, m, sc);
      ReadingOn(c, c', s, Plain(FromKeyExchange(s)), sc, Client.OnStatus(c, m));
    } else {
      assert FromStatus(s) == FromKeyExchange(s);
      KeyExchangeStep(c, s, sc);
    }
  }

  lemma CertificateTaken(c: Client.Client, s: Server.Server, sc: Server.ServerConfig) returns (c': Client.Client)
    requires InFlight(c, s, [CertificateMsg(s.identity.chain)] + FromStatus(s), sc) && ClientSafe(c)
    requires c.stage == Client.WaitCertificate && c.requested.None? && s.identity.chain != []
    ensures Client.OnCertificate(c, CertificateMsg(s.identity.chain)) == Ok((c', []))
    ensures Reading(c', s, Plain(FromStatus(s)), sc)
  {
    var m := CertificateMsg(s.identity.chain);
    c' := Client.OnCertificate(c, m).value.0;
    assert c.hash.messages + ([m] + FromStatus(s)) == c'.hash.messages + FromStatus(s);
  }

  lemma CertificateStep(c: Client.Client, s: Server.Server, toClient: seq<Wire>, sc: Server.ServerConfig)
    requires Reading(c, s, toClient, sc) && c.stage == Client.WaitCertificate
    ensures ClientGoesTo(Client.OnCertificate(c, CertificateMsg(s.identity.chain)), s, [], Plain(FromStatus(s)), sc)
  {
    if s.identity.chain != [] {
      var c' := CertificateTaken(c, s, sc);
      ReadingOn(c, c', s, Plain(FromStatus(s)), sc, Client.OnCertificate(c, CertificateMsg(s.identity.chain)));
    }
  }

  lemma Unplain(ms: seq<Message>)
    requires ms != []
    ensures Plain(ms)[0] == Wire(Plaintext, Handshake(ms[0])) && Plain(ms)[1..] == Plain(ms[1..])
  {
  }

  lemma ReadingStep(c: Client.Client, s: Server.Server, toClient: seq<Wire>, sc: Server.ServerConfig)
    requires Reading(c, s, toClient, sc)
    ensures toClient != []
    ensures ClientGoesTo(Client.Receive(c, toClient[0]), s, [], toClient[1..], sc)
  {
    var rest := RestFor(c.stage, s);
    Unplain(rest);
    assert Client.Receive(c, toClient[0]) == Client.OnMessage(c, rest[0]);
    match c.stage
    case WaitCertificate =>
      assert rest[1..] == FromStatus(s);
      CertificateStep(c, s, toClient, sc);
    case WaitStatus => StatusStep(c, s, sc);
    case WaitKeyExchange => KeyExchangeStep(c, s, sc);
    case WaitRequest => RequestStep(c, s, sc);
    case WaitDone =>
      assert rest[1..] == [];
      FlightEnds(c, s, sc);
    case _ =>
  }

  // ---------- the server reads the client's flight ----------

  /** The outcome of a server's step: a configuration failure, or a phase again. */
  ghost predicate ServerGoesTo(r: Server.Step, c: Client.Client, toServer: seq<Wire>, toClient: seq<Wire>, sc: Server.ServerConfig) {
    match r
    case Fail(e) => e.Configuration?
    case Ok((s, sent)) => Phase(c, s, toServer, toClient + sent, sc)
  }

  lemma StillFlying(c: Client.Client, s': Server.Server, pending: seq<Message>, toServer: seq<Wire>, sc: Server.ServerConfig)
    requires ClientFlight(c, s', pending, toServer, sc)
    ensures ServerGoesTo(Ok((s', [])), c, toServer, [], sc)
  {
  }

  /** The first pending message, and what the channel and the transcripts are when it has been read. */
  lemma PendingFirst(c: Client.Client, s: Server.Server, pending: seq<Message>, toServer: seq<Wire>, sc: Server.ServerConfig)
      returns (finished: Message)
    requires ClientFlight(c, s, pending, toServer, sc) && pending != []
    ensures toServer != [] && toServer[0] == Wire(Plaintext, Handshake(pending[0]))
    ensures toServer[1..] == Plain(pending[1..]) + [Wire(Plaintext, ChangeCipherSpec), Wire(ClientSpecOf(c), Handshake(finished))]
    ensures var hash := s.hash.Write(pending[0]);
      c.hash.messages == hash.messages + pending[1..] + [finished]
      && finished == FinishedBy(hash, hash.messages + pending[1..], "client finished", c.masterSecret)
      && HashOf(hash, c.vers, c.suite)
  {
    finished := FinishedBy(s.hash, s.hash.messages + pending, "client finished", c.masterSecret);
    Unplain(pending);
    assert s.hash.messages + [pending[0]] + pending[1..] == s.hash.messages + pending;
  }

  lemma CertificateKept(c: Client.Client, s: Server.Server, pending: seq<Message>, toServer: seq<Wire>, s': Server.Server,
                        finished: Message, sc: Server.ServerConfig)
    requires ClientFlight(c, s, pending, toServer, sc) && s.stage == Server.WaitClientCertificate && pending != []
    requires pending[0].CertificateMsg?
    requires s' == s.(hash := s.hash.Write(pending[0]), peerChain := pending[0].chain, stage := Server.WaitClientKeyExchange)
    requires HashOf(s'.hash, c.vers, c.suite) && c.hash.messages == s'.hash.messages + pending[1..] + [finished]
    requires finished == FinishedBy(s'.hash, s'.hash.messages + pending[1..], "client finished", c.masterSecret)
    ensures ClientFlight(c, s', pending[1..],
      Plain(pending[1..]) + [Wire(Plaintext, ChangeCipherSpec), Wire(ClientSpecOf(c), Handshake(finished))], sc)
  {
    assert pending[1..][0] == pending[1];
    if |pending| == 3 {
      assert s.hash.messages + pending[..2] == s'.hash.messages + pending[1..][..1];
      assert pending[1..][1] == pending[2];
    }
  }

  /** What the server has left to read: the rest of the flight, change_cipher_spec and Finished. */
  function LeftOver(c: Client.Client, pending: seq<Message>, finished: Message): seq<Wire> {
    Plain(pending) + [Wire(Plaintext, ChangeCipherSpec), Wire(ClientSpecOf(c), Handshake(finished))]
  }

  lemma CertificateGoes(c: Client.Client, s: Server.Server, pending: seq<Message>, toServer: seq<Wire>, finished: Message,
                        sc: Server.ServerConfig)
    requires ClientFlight(c, s, pending, toServer, sc) && s.stage == Server.WaitClientCertificate && pending != []
    requires HashOf(s.hash.Write(pending[0]), c.vers, c.suite)
    requires c.hash.messages == s.hash.Write(pending[0]).messages + pending[1..] + [finished]
    requires finished == FinishedBy(s.hash.Write(pending[0]), s.hash.Write(pending[0]).messages + pending[1..], "client finished",
                                    c.masterSecret)
    ensures ServerGoesTo(Server.OnClientCertificate(s, pending[0]), c, LeftOver(c, pending[1..], finished), [], sc)
  {
    var m := pending[0];
    var r := Server.ProcessCertsFromClient(s.(hash := s.hash.Write(m)), m.chain);
    if r.Ok? {
      var s' := r.value.(stage := Server.WaitClientKeyExchange);
      CertificateKept(c, s, pending, toServer, s', finished, sc);
      StillFlying(c, s', pending[1..], LeftOver(c, pending[1..], finished), sc);
    }
  }

  lemma CertificateArrives(c: Client.Client, s: Server.Server, pending: seq<Message>, toServer: seq<Wire>, sc: Server.ServerConfig)
    requires ClientFlight(c, s, pending, toServer, sc) && s.stage == Server.WaitClientCertificate
    ensures toServer != [] && ServerGoesTo(Server.Receive(s, toServer[0]), c, toServer[1..], [], sc)
  {
    var finished := PendingFirst(c, s, pending, toServer, sc);
    CertificateGoes(c, s, pending, toServer, finished, sc);
    MessageAtServer(s, pending[0]);
  }

  lemma VerifyAwaited(c: Client.Client, s: Server.Server, pending: seq<Message>, toServer: seq<Wire>, s': Server.Server,
                      finished: Message, sc: Server.ServerConfig)
    requires ClientFlight(c, s, pending, toServer, sc) && s.stage == Server.WaitClientKeyExchange && |pending| == 2
    requires s.peerChain != []
    requires s' == s.(hash := s.hash.Write(pending[0]), masterSecret := c.masterSecret, stage := Server.WaitClientVerify)
    requires HashOf(s'.hash, c.vers, c.suite) && c.hash.messages == s'.hash.messages + pending[1..] + [finished]
    requires finished == FinishedBy(s'.hash, s'.hash.messages + pending[1..], "client finished", c.masterSecret)
    ensures ClientFlight(c, s', pending[1..],
      Plain(pending[1..]) + [Wire(Plaintext, ChangeCipherSpec), Wire(ClientSpecOf(c), Handshake(finished))], sc)
  {
    assert s.hash.messages + pending[..1] == s'.hash.messages;
    assert pending[1..][0] == pending[1];
  }

  lemma KeyExchangeGoes(c: Client.Client, s: Server.Server, pending: seq<Message>, toServer: seq<Wire>, finished: Message,
                        sc: Server.ServerConfig)
    requires ClientFlight(c, s, pending, toServer, sc) && s.stage == Server.WaitClientKeyExchange && pending != []
    requires HashOf(s.hash.Write(pending[0]), c.vers, c.suite)
    requires c.hash.messages == s.hash.Write(pending[0]).messages + pending[1..] + [finished]
    requires finished == FinishedBy(s.hash.Write(pending[0]), s.hash.Write(pending[0]).messages + pending[1..], "client finished",
                                    c.masterSecret)
    ensures ServerGoesTo(Server.OnClientKeyExchange(s, pending[0]), c, LeftOver(c, pending[1..], finished), [], sc)
  {
    if s.cfg.connectionOk {
      var s1 := s.(hash := s.hash.Write(pending[0]), masterSecret := c.masterSecret);
      if s.peerChain != [] {
        var s' := s1.(stage := Server.WaitClientVerify);
        VerifyAwaited(c, s, pending, toServer, s', finished, sc);
        StillFlying(c, s', pending[1..], LeftOver(c, pending[1..], finished), sc);
      } else {
        assert pending[1..] == [];
        AwaitsFinished(c, s1, finished, sc);
        StillFlying(c, Server.AwaitFinished(s1), [], LeftOver(c, [], finished), sc);
      }
    }
  }

  lemma KeyExchangeArrives(c: Client.Client, s: Server.Server, pending: seq<Message>, toServer: seq<Wire>, sc: Server.ServerConfig)
    requires ClientFlight(c, s, pending, toServer, sc) && s.stage == Server.WaitClientKeyExchange
    ensures toServer != [] && ServerGoesTo(Server.Receive(s, toServer[0]), c, toServer[1..], [], sc)
  {
    var finished := PendingFirst(c, s, pending, toServer, sc);
    KeyExchangeGoes(c, s, pending, toServer, finished, sc);
    MessageAtServer(s, pending[0]);
  }

  lemma AwaitsFinished(c: Client.Client, s: Server.Server, finished: Message, sc: Server.ServerConfig)
    requires Paired(c, s) && s.cfg == sc && !s.resumed && c.issued.None?
    requires c.stage == (if s.hello.ticketSupported then Client.WaitTicket else Client.WaitChangeCipherSpec)
    requires c.inSpec == Plaintext && c.nextIn == ServerSpecOf(c) && c.outSpec == ClientSpecOf(c)
    requires s.outSpec == s.inSpec == Plaintext && s.masterSecret == c.masterSecret
    requires s.peerChain != [] ==> Server.RequestsClientCert(sc)
    requires c.hash.messages == s.hash.messages + [] + [finished]
    requires finished == FinishedBy(s.hash, s.hash.messages + [], "client finished", c.masterSecret)
    ensures ClientFlight(c, Server.AwaitFinished(s), [],
      Plain([]) + [Wire(Plaintext, ChangeCipherSpec), Wire(ClientSpecOf(c), Handshake(finished))], sc)
  {
  }

  lemma MessageAtServer(s: Server.Server, m: Message)
    ensures Server.Receive(s, Wire(s.inSpec, Handshake(m))) == Server.OnMessage(s, m)
  {
  }

  lemma ClientVerifyGoes(c: Client.Client, s: Server.Server, m: Message, toServer: seq<Wire>, finished: Message, sc: Server.ServerConfig)
    requires ClientFlight(c, s, [m], toServer, sc) && s.stage == Server.WaitClientVerify
    requires HashOf(s.hash.Write(m), c.vers, c.suite) && c.hash.messages == s.hash.Write(m).messages + [] + [finished]
    requires finished == FinishedBy(s.hash.Write(m), s.hash.Write(m).messages + [], "client finished", c.masterSecret)
    ensures ServerGoesTo(Server.OnClientVerify(s, m), c, LeftOver(c, [], finished), [], sc)
  {
    VerifyAccepted(s, m, sc);
    var s1 := s.(hash := s.hash.Write(m));
    AwaitsFinished(c, s1, finished, sc);
    StillFlying(c, Server.AwaitFinished(s1), [], LeftOver(c, [], finished), sc);
  }

  lemma VerifyArrives(c: Client.Client, s: Server.Server, pending: seq<Message>, toServer: seq<Wire>, sc: Server.ServerConfig)
    requires ClientFlight(c, s, pending, toServer, sc) && s.stage == Server.WaitClientVerify
    ensures toServer != [] && ServerGoesTo(Server.Receive(s, toServer[0]), c, toServer[1..], [], sc)
  {
    var finished := PendingFirst(c, s, pending, toServer, sc);
    assert pending == [pending[0]] && pending[1..] == [];
    ClientVerifyGoes(c, s, pending[0], toServer, finished, sc);
    MessageAtServer(s, pending[0]);
  }

  lemma VerifyAccepted(s: Server.Server, m: Message, sc: Server.ServerConfig)
    requires s.peerChain != [] && VerifyFits(s, m, s.peerChain[0].key, s.hash.messages)
    requires HashOf(s.hash, s.vers, s.suite) && (s.vers >= TLS12 ==> s.hash.buffer.Some?)
    ensures Server.OnClientVerify(s, m) == Ok((Server.AwaitFinished(s.(hash := s.hash.Write(m))), []))
  {
  }

  lemma ChangeArrives(c: Client.Client, s: Server.Server, pending: seq<Message>, toServer: seq<Wire>, sc: Server.ServerConfig)
    requires ClientFlight(c, s, pending, toServer, sc) && s.stage == Server.WaitChangeCipherSpec
    ensures toServer != [] && ServerGoesTo(Server.Receive(s, toServer[0]), c, toServer[1..], [], sc)
  {
    var finished := FinishedBy(s.hash, s.hash.messages + pending, "client finished", c.masterSecret);
    assert toServer == [Wire(Plaintext, ChangeCipherSpec), Wire(ClientSpecOf(c), Handshake(finished))];
    ChangeGoes(c, s, pending, toServer, sc);
    ChangeAtServer(s);
  }

  lemma ChangeAtServer(s: Server.Server)
    requires s.stage == Server.WaitChangeCipherSpec
    ensures Server.Receive(s, Wire(s.inSpec, ChangeCipherSpec)) == Server.OnChangeCipherSpec(s)
  {
  }

  lemma ChangeGoes(c: Client.Client, s: Server.Server, pending: seq<Message>, toServer: seq<Wire>, sc: Server.ServerConfig)
    requires ClientFlight(c, s, pending, toServer, sc) && s.stage == Server.WaitChangeCipherSpec && |toServer| == 2
    ensures ServerGoesTo(Server.OnChangeCipherSpec(s), c, toServer[1..], [], sc)
  {
    var s' := Server.OnChangeCipherSpec(s).value.0;
    assert ClientFlight(c, s', pending, toServer[1..], sc);
    StillFlying(c, s', pending, toServer[1..], sc);
  }

  lemma ClientFinishedTaken(c: Client.Client, s: Server.Server, pending: seq<Message>, toServer: seq<Wire>, sc: Server.ServerConfig)
    requires ClientFlight(c, s, pending, toServer, sc) && s.stage == Server.WaitFinished
    ensures var m := Finished(s.hash.ClientSum(s.masterSecret));
      && toServer == [Wire(s.inSpec, Handshake(m))] && c.hash.messages == s.hash.messages + [m]
      && Server.Receive(s, toServer[0]) == Server.Complete(s.(hash := s.hash.Write(m)))
  {
    SameFinished(s.hash, s.hash, "client finished", c.masterSecret);
    assert s.hash.messages + pending == s.hash.messages;
  }

  /** The server accepts the client's Finished and closes with its own. */
  lemma FinishedArrives(c: Client.Client, s: Server.Server, pending: seq<Message>, toServer: seq<Wire>, sc: Server.ServerConfig)
    requires ClientFlight(c, s, pending, toServer, sc) && s.stage == Server.WaitFinished
    ensures toServer != [] && ServerGoesTo(Server.Receive(s, toServer[0]), c, toServer[1..], [], sc)
  {
    ClientFinishedTaken(c, s, pending, toServer, sc);
    ServerCloses(c, s.(hash := s.hash.Write(Finished(s.hash.ClientSum(s.masterSecret)))), sc);
  }

  lemma ServerCloses(c: Client.Client, s: Server.Server, sc: Server.ServerConfig)
    requires Paired(c, s) && s.cfg == sc && !s.resumed && c.issued.None? && c.hash.messages == s.hash.messages
    requires c.stage == FirstFinalStage(s) && s.masterSecret == c.masterSecret
    requires c.inSpec == Plaintext && c.nextIn == ServerSpecOf(c) && c.outSpec == ClientSpecOf(c)
    requires s.outSpec == Plaintext && s.inSpec == ClientSpecOf(c) && s.nextOut == ServerSpecOf(c)
    ensures ServerGoesTo(Server.Complete(s), c, [], [], sc)
  {
    match Server.SendSessionTicket(s)
    case Fail(e) =>
    case Ok((s1, ticket)) =>
      var (s2, finished) := Server.SendFinished(s1);
      var s3 := s2.(stage := Server.Completed);
      FinalSent(s, s1, s3, ticket);
      ClosedWith(c, s, s1, s3, ticket, finished, sc);
      assert [] + (Plain(ticket) + finished) == Plain(ticket) + finished;
  }

  lemma ClosedWith(c: Client.Client, s: Server.Server, s1: Server.Server, s3: Server.Server, ticket: seq<Message>,
                   finished: seq<Wire>, sc: Server.ServerConfig)
    requires Paired(c, s) && s.cfg == sc && !s.resumed && c.issued.None? && c.hash.messages == s.hash.messages
    requires c.stage == FirstFinalStage(s) && s.masterSecret == c.masterSecret
    requires c.inSpec == Plaintext && c.nextIn == ServerSpecOf(c) && c.outSpec == ClientSpecOf(c)
    requires s.outSpec == Plaintext && s.inSpec == ClientSpecOf(c) && s.nextOut == ServerSpecOf(c)
    requires Server.SendSessionTicket(s) == Ok((s1, ticket))
    requires s3 == Server.SendFinished(s1).0.(stage := Server.Completed) && finished == Server.SendFinished(s1).1
    requires FinalFor(FirstFinalStage(s3), s3, s3.outSpec, s.hash.messages) == Final(Plain(ticket) + finished, s3.hash.messages)
    ensures Closing(c, s3, Plain(ticket) + finished, sc)
  {
  }

  // ---------- the client reads the server's ticket and Finished ----------

  lemma ClosingOn(c: Client.Client, s: Server.Server, toClient: seq<Wire>, sc: Server.ServerConfig)
    requires Closing(c, s, toClient, sc)
    ensures ClientGoesTo(Ok((c, [])), s, [], toClient, sc)
  {
  }

  lemma BegunResumed(c: Client.Client, s: Server.Server) returns (c': Client.Client)
    requires Offering(c, s.cfg.ticketKeys) && Acceptable(c, s) && s.resumed && HashOf(s.hash, s.vers, s.suite)
    requires c.session.Some? && c.session.value.masterSecret == s.masterSecret
    ensures c' == Client.BeginResumed(Client.Restored(Settled(c, s), c.session.value))
    ensures Paired(c', s) && c'.masterSecret == s.masterSecret && Client.Keys(c') == Server.Keys(s) && c'.stage == FirstFinalStage(s)
    ensures c'.hash.messages == [ClientHelloMsg(c.hello), ServerHelloMsg(s.hello)]
    ensures c'.inSpec == c'.outSpec == Plaintext && c'.issued.None?
    ensures c'.nextIn == ServerSpecOf(c') && c'.nextOut == ClientSpecOf(c')
  {
    c' := Client.BeginResumed(Client.Restored(Settled(c, s), c.session.value));
    ClientHashBegins(Client.Restored(Settled(c, s), c.session.value), true);
  }

  lemma ResumedStep(c: Client.Client, s: Server.Server, toClient: seq<Wire>, sc: Server.ServerConfig)
    requires Resumed(c, s, toClient, sc)
    ensures toClient != [] && ClientGoesTo(Client.Receive(c, toClient[0]), s, [], toClient[1..], sc)
  {
    HelloPasses(c, s);
    var c' := BegunResumed(c, s);
    Unplain([ServerHelloMsg(s.hello)]);
    assert [ServerHelloMsg(s.hello)][1..] == [];
    var final := FinalFor(FirstFinalStage(s), s, s.outSpec, c'.hash.messages);
    assert toClient[1..] == final.records;
    assert Closing(c', s, final.records, sc);
    ClosingOn(c', s, final.records, sc);
  }

  lemma TicketTaken(c: Client.Client, s: Server.Server, toClient: seq<Wire>, sc: Server.ServerConfig) returns (c': Client.Client)
    requires Closing(c, s, toClient, sc) && c.stage == Client.WaitTicket
    ensures toClient != [] && Client.Receive(c, toClient[0]) == Ok((c', [])) && Closing(c', s, toClient[1..], sc)
  {
    c' := Client.OnTicket(c, TicketMsg(s)).value.0;
  }

  lemma ChangeTaken(c: Client.Client, s: Server.Server, toClient: seq<Wire>, sc: Server.ServerConfig) returns (c': Client.Client)
    requires Closing(c, s, toClient, sc) && c.stage == Client.WaitChangeCipherSpec
    ensures toClient != [] && Client.Receive(c, toClient[0]) == Ok((c', [])) && Closing(c', s, toClient[1..], sc)
  {
    c' := Client.OnChangeCipherSpec(c).value.0;
  }

  /** Two hashes over the same messages make the same Finished. */
  lemma SameFinished(mine: HandshakeHash, theirs: HandshakeHash, lbl: string, master: Term)
    requires mine.vers == theirs.vers && mine.prf == theirs.prf
    ensures FinishedBy(mine, theirs.messages, lbl, master) == Finished(Prf(theirs.prf, master, lbl, [theirs.Sum()]))
  {
    assert mine.(messages := theirs.messages).Sum() == theirs.Sum();
  }

  lemma FinishedTaken(c: Client.Client, s: Server.Server, toClient: seq<Wire>, sc: Server.ServerConfig)
    requires Closing(c, s, toClient, sc) && c.stage == Client.WaitFinished
    ensures var m := Finished(c.hash.ServerSum(c.masterSecret));
      && toClient == [Wire(c.inSpec, Handshake(m))] && s.hash.messages == c.hash.messages + [m]
      && Client.Receive(c, toClient[0]) == Client.OnFinished(c, m)
  {
    SameFinished(s.hash, c.hash, "server finished", s.masterSecret);
  }

  lemma FinishedStep(c: Client.Client, s: Server.Server, toClient: seq<Wire>, sc: Server.ServerConfig)
    requires Closing(c, s, toClient, sc) && c.stage == Client.WaitFinished
    ensures toClient != [] && ClientGoesTo(Client.Receive(c, toClient[0]), s, [], toClient[1..], sc)
  {
    FinishedTaken(c, s, toClient, sc);
    FinishedGoes(c, s, toClient, Finished(c.hash.ServerSum(c.masterSecret)), sc);
  }

  lemma FinishedGoes(c: Client.Client, s: Server.Server, toClient: seq<Wire>, m: Message, sc: Server.ServerConfig)
    requires Closing(c, s, toClient, sc) && c.stage == Client.WaitFinished
    requires m == Finished(c.hash.ServerSum(c.masterSecret)) && s.hash.messages == c.hash.messages + [m]
    ensures ClientGoesTo(Client.OnFinished(c, m), s, [], [], sc)
  {
    var c1 := c.(hash := c.hash.Write(m));
    if !c.resumed {
      FullEnds(c1, s, sc);
    } else if c.cfg.connectionOk {
      ResumptionEnds(c1, s, sc);
    }
  }

  lemma FullEnds(c: Client.Client, s: Server.Server, sc: Server.ServerConfig)
    requires Paired(c, s) && Closed(s, Client.Keys(c), sc) && s.masterSecret == c.masterSecret && !c.resumed
    requires c.inSpec == ServerSpecOf(c) && c.outSpec == ClientSpecOf(c)
    requires (c.issued.Some? ==> Issued(c.issued.value, c, s)) && c.hash.messages == s.hash.messages
    ensures ClientGoesTo(Ok((Client.Establish(c), [])), s, [], [], sc)
  {
    assert Done(Client.Establish(c), s, sc);
  }

  lemma ResumptionEnds(c: Client.Client, s: Server.Server, sc: Server.ServerConfig)
    requires Paired(c, s) && Closed(s, Client.Keys(c), sc) && s.masterSecret == c.masterSecret && c.resumed
    requires c.inSpec == ServerSpecOf(c) && c.outSpec == Plaintext && c.nextOut == ClientSpecOf(c)
    requires (c.issued.Some? ==> Issued(c.issued.value, c, s)) && c.hash.messages == s.hash.messages
    ensures var (c2, finished) := Client.SendFinished(c);
      ClientGoesTo(Ok((Client.Establish(c2), finished)), s, [], [], sc)
  {
    var (c2, finished) := Client.SendFinished(c);
    var c' := Client.Establish(c2);
    SameFinished(s.hash, c.hash, "client finished", c.masterSecret);
    assert Confirming(c', s, finished, sc);
    ConfirmingOn(c', s, finished, sc);
  }

  lemma ConfirmingOn(c: Client.Client, s: Server.Server, toServer: seq<Wire>, sc: Server.ServerConfig)
    requires Confirming(c, s, toServer, sc)
    ensures ClientGoesTo(Ok((c, toServer)), s, [], [], sc) && ServerGoesTo(Ok((s, [])), c, toServer, [], sc)
  {
    assert [] + toServer == toServer;
  }

  lemma ConfirmingStep(c: Client.Client, s: Server.Server, toServer: seq<Wire>, sc: Server.ServerConfig)
    requires Confirming(c, s, toServer, sc)
    ensures toServer != [] && ServerGoesTo(Server.Receive(s, toServer[0]), c, toServer[1..], [], sc)
  {
    if s.stage == Server.WaitChangeCipherSpec {
      var s' := Server.OnChangeCipherSpec(s).value.0;
      assert Confirming(c, s', toServer[1..], sc);
      ConfirmingOn(c, s', toServer[1..], sc);
    } else {
      ResumptionConfirmed(c, s, toServer, sc);
    }
  }

  lemma ResumptionConfirmed(c: Client.Client, s: Server.Server, toServer: seq<Wire>, sc: Server.ServerConfig)
    requires Confirming(c, s, toServer, sc) && s.stage == Server.WaitFinished
    ensures toServer != [] && ServerGoesTo(Server.Receive(s, toServer[0]), c, toServer[1..], [], sc)
  {
    SameFinished(s.hash, s.hash, "client finished", c.masterSecret);
    var finished := Finished(s.hash.ClientSum(s.masterSecret));
    MessageAtServer(s, finished);
    ConfirmationGoes(c, s, toServer, finished, sc);
  }

  lemma ConfirmationGoes(c: Client.Client, s: Server.Server, toServer: seq<Wire>, finished: Message, sc: Server.ServerConfig)
    requires Confirming(c, s, toServer, sc) && s.stage == Server.WaitFinished
    requires finished == Finished(s.hash.ClientSum(s.masterSecret)) && c.hash.messages == s.hash.messages + [finished]
    ensures ServerGoesTo(Server.OnFinished(s, finished), c, [], [], sc)
  {
    var s' := s.(hash := s.hash.Write(finished), stage := Server.Completed);
    Confirmed(c, s, s', toServer, finished, sc);
    CompletionGoes(c, s, s', finished, sc);
  }

  lemma Confirmed(c: Client.Client, s: Server.Server, s': Server.Server, toServer: seq<Wire>, finished: Message, sc: Server.ServerConfig)
    requires Confirming(c, s, toServer, sc) && s.stage == Server.WaitFinished
    requires c.hash.messages == s.hash.messages + [finished]
    requires s' == s.(hash := s.hash.Write(finished), stage := Server.Completed)
    ensures Done(c, s', sc)
  {
  }

  lemma CompletionGoes(c: Client.Client, s: Server.Server, s': Server.Server, finished: Message, sc: Server.ServerConfig)
    requires finished == Finished(s.hash.ClientSum(s.masterSecret)) && Done(c, s', sc) && s.resumed
    requires s' == s.(hash := s.hash.Write(finished), stage := Server.Completed)
    ensures ServerGoesTo(Server.OnFinished(s, finished), c, [], [], sc)
  {
  }

  // ---------- whole runs ----------

  lemma HelloStep(c: Client.Client, toServer: seq<Wire>, sc: Server.ServerConfig)
    requires Offering(c, sc.ticketKeys) && toServer == Plain([ClientHelloMsg(c.hello)])
    ensures toServer != [] && ServerGoesTo(Server.Receive(Server.Init(sc), toServer[0]), c, toServer[1..], [], sc)
  {
    Unplain([ClientHelloMsg(c.hello)]);
    assert [ClientHelloMsg(c.hello)][1..] == [];
    HelloAnswered(c, sc);
    var r := Server.OnClientHello(Server.Init(sc), c.hello);
    if r.Ok? {
      AnswerOn(c, r.value.0, r.value.1, sc);
    }
  }

  lemma AnswerOn(c: Client.Client, s: Server.Server, sent: seq<Wire>, sc: Server.ServerConfig)
    requires Answered(c, s, sent, sc) || Resumed(c, s, sent, sc)
    ensures ServerGoesTo(Ok((s, sent)), c, [], [], sc)
  {
    assert [] + sent == sent;
  }

  lemma FlightStep(c: Client.Client, s: Server.Server, pending: seq<Message>, toServer: seq<Wire>, sc: Server.ServerConfig)
    requires ClientFlight(c, s, pending, toServer, sc)
    ensures toServer != [] && ServerGoesTo(Server.Receive(s, toServer[0]), c, toServer[1..], [], sc)
  {
    match s.stage
    case WaitClientCertificate => CertificateArrives(c, s, pending, toServer, sc);
    case WaitClientKeyExchange => KeyExchangeArrives(c, s, pending, toServer, sc);
    case WaitClientVerify => VerifyArrives(c, s, pending, toServer, sc);
    case WaitChangeCipherSpec => ChangeArrives(c, s, pending, toServer, sc);
    case WaitFinished => FinishedArrives(c, s, pending, toServer, sc);
    case _ =>
  }

  lemma ClosingStep(c: Client.Client, s: Server.Server, toClient: seq<Wire>, sc: Server.ServerConfig)
    requires Closing(c, s, toClient, sc)
    ensures toClient != [] && ClientGoesTo(Client.Receive(c, toClient[0]), s, [], toClient[1..], sc)
  {
    match c.stage
    case WaitTicket =>
      var c' := TicketTaken(c, s, toClient, sc);
      ClosingOn(c', s, toClient[1..], sc);
    case WaitChangeCipherSpec =>
      var c' := ChangeTaken(c, s, toClient, sc);
      ClosingOn(c', s, toClient[1..], sc);
    case WaitFinished => FinishedStep(c, s, toClient, sc);
    case _ =>
  }

  lemma ServerStep(c: Client.Client, s: Server.Server, toServer: seq<Wire>, toClient: seq<Wire>, sc: Server.ServerConfig)
    requires Phase(c, s, toServer, toClient, sc) && toServer != []
    ensures toClient == [] && ServerGoesTo(Server.Receive(s, toServer[0]), c, toServer[1..], [], sc)
  {
    if pending :| ClientFlight(c, s, pending, toServer, sc) {
      FlightStep(c, s, pending, toServer, sc);
    } else if Confirming(c, s, toServer, sc) {
      ConfirmingStep(c, s, toServer, sc);
    } else {
      HelloStep(c, toServer, sc);
    }
  }

  lemma ClientStep(c: Client.Client, s: Server.Server, toServer: seq<Wire>, toClient: seq<Wire>, sc: Server.ServerConfig)
    requires Phase(c, s, toServer, toClient, sc) && toClient != []
    ensures toServer == [] && ClientGoesTo(Client.Receive(c, toClient[0]), s, [], toClient[1..], sc)
  {
    if Answered(c, s, toClient, sc) {
      AnsweredStep(c, s, toClient, sc);
    } else if Resumed(c, s, toClient, sc) {
      ResumedStep(c, s, toClient, sc);
    } else if Reading(c, s, toClient, sc) {
      ReadingStep(c, s, toClient, sc);
    } else {
      ClosingStep(c, s, toClient, sc);
    }
  }

  lemma StepKeeps(sys: System, side: Side, sc: Server.ServerConfig)
    requires Invariant(sys, sc)
    ensures Invariant(Step(sys, side), sc)
  {
    if sys.failure.None? {
      if side == ServerSide && sys.toServer != [] {
        ServerStep(sys.client, sys.server, sys.toServer, sys.toClient, sc);
      } else if side == ClientSide && sys.toClient != [] {
        ClientStep(sys.client, sys.server, sys.toServer, sys.toClient, sc);
      }
    }
  }

  lemma {:induction false} RunKeeps(sys: System, schedule: seq<Side>, sc: Server.ServerConfig)
    requires Invariant(sys, sc)
    ensures Invariant(Run(sys, schedule), sc)
    decreases |schedule|
  {
    if schedule != [] {
      StepKeeps(sys, schedule[0], sc);
      RunKeeps(Step(sys, schedule[0]), schedule[1..], sc);
    }
  }

  lemma Reachable(cc: Client.ClientConfig, sc: Server.ServerConfig, schedule: seq<Side>)
    requires Boot(cc, sc).Ok? && GoodCache(cc, sc)
    ensures Invariant(Run(Boot(cc, sc).value, schedule), sc)
  {
    StartOffers(cc, sc);
    RunKeeps(Boot(cc, sc).value, schedule, sc);
  }

  lemma EndIsDone(c: Client.Client, s: Server.Server, toServer: seq<Wire>, toClient: seq<Wire>, sc: Server.ServerConfig)
    requires Phase(c, s, toServer, toClient, sc) && c.stage == Client.Established && s.stage == Server.Completed
    ensures Done(c, s, sc) && toServer == [] && toClient == []
  {
  }

  /**
    Main result. In every run in which both sides finish, full or resumed, with or without a
    ticket, a status message or a client certificate, both sides hashed the same messages,
    hold the same master secret, and each reads with the cipher spec the other writes with.
   */
  lemma FinishedRunsAgree(cc: Client.ClientConfig, sc: Server.ServerConfig, schedule: seq<Side>, lbl: string)
    requires Boot(cc, sc).Ok? && GoodCache(cc, sc)
    requires BothFinished(Run(Boot(cc, sc).value, schedule))
    ensures var sys := Run(Boot(cc, sc).value, schedule);
      var c, s := sys.client, sys.server;
      && c.hash.messages == s.hash.messages && c.vers == s.vers && c.suite == s.suite && c.resumed == s.resumed
      && c.alpn == s.alpn && c.masterSecret == s.masterSecret
      && c.outSpec == s.inSpec && c.inSpec == s.outSpec && c.inSpec != Plaintext && c.outSpec != Plaintext
      && Client.Exporter(c, lbl) == Server.Exporter(s, lbl)
      && sys.toServer == [] && sys.toClient == []
      && (c.stored.Some? ==> Issued(c.stored.value, c, s))
  {
    Reachable(cc, sc, schedule);
    var sys := Run(Boot(cc, sc).value, schedule);
    EndIsDone(sys.client, sys.server, sys.toServer, sys.toClient, sc);
  }

  /**
    No run fails because one side broke the protocol, and none panics: every record is read
    under the spec it was written with, every Finished, signature and key exchange is accepted,
    and no downgrade is suspected. What may stop a run is a disagreement of configurations.
   */
  lemma NoProtocolFailure(cc: Client.ClientConfig, sc: Server.ServerConfig, schedule: seq<Side>)
    requires Boot(cc, sc).Ok? && GoodCache(cc, sc)
    ensures var sys := Run(Boot(cc, sc).value, schedule);
      sys.failure.Some? ==> sys.failure.value.Configuration?
  {
    Reachable(cc, sc, schedule);
  }

  lemma SomethingToRead(c: Client.Client, s: Server.Server, toServer: seq<Wire>, toClient: seq<Wire>, sc: Server.ServerConfig)
    requires Phase(c, s, toServer, toClient, sc) && toServer == [] && toClient == []
    ensures Done(c, s, sc)
  {
    if Reading(c, s, toClient, sc) {
      ReadingStep(c, s, toClient, sc);
    } else if Closing(c, s, toClient, sc) {
      ClosingStep(c, s, toClient, sc);
    } else if Resumed(c, s, toClient, sc) {
      ResumedStep(c, s, toClient, sc);
    }
  }

  /** No run gets stuck: short of a failure and of both finishing, somebody has a record to read. */
  lemma NoDeadlock(cc: Client.ClientConfig, sc: Server.ServerConfig, schedule: seq<Side>)
    requires Boot(cc, sc).Ok? && GoodCache(cc, sc)
    ensures var sys := Run(Boot(cc, sc).value, schedule);
      sys.failure.None? && !BothFinished(sys) ==> sys.toServer != [] || sys.toClient != []
  {
    Reachable(cc, sc, schedule);
    var sys := Run(Boot(cc, sc).value, schedule);
    if sys.failure.None? && sys.toServer == [] && sys.toClient == [] {
      SomethingToRead(sys.client, sys.server, sys.toServer, sys.toClient, sc);
    }
  }

  /** The session a finished run stores satisfies GoodCache for every list of ticket keys. */
  lemma RunIssuesSessions(cc: Client.ClientConfig, sc: Server.ServerConfig, schedule: seq<Side>, keys: seq<nat>)
    requires Boot(cc, sc).Ok? && GoodCache(cc, sc)
    requires BothFinished(Run(Boot(cc, sc).value, schedule))
    ensures var c := Run(Boot(cc, sc).value, schedule).client;
      c.stored.Some? ==>
        IssuedBy(c.stored.value, keys) && Server.DecryptTicket(sc.ticketKeys, c.stored.value.ticket).Some?
  {
    Reachable(cc, sc, schedule);
    var sys := Run(Boot(cc, sc).value, schedule);
    EndIsDone(sys.client, sys.server, sys.toServer, sys.toClient, sc);
  }

  // ---------- termination ----------

  function ClientRank(stage: Client.ClientStage): nat {
    match stage
    case WaitServerHello => 9
    case WaitCertificate => 8
    case WaitStatus => 7
    case WaitKeyExchange => 6
    case WaitRequest => 5
    case WaitDone => 4
    case WaitTicket => 3
    case WaitChangeCipherSpec => 2
    case WaitFinished => 1
    case Established => 0
  }

  function ServerRank(stage: Server.ServerStage): nat {
    match stage
    case WaitClientHello => 6
    case WaitClientCertificate => 5
    case WaitClientKeyExchange => 4
    case WaitClientVerify => 3
    case WaitChangeCipherSpec => 2
    case WaitFinished => 1
    case Completed => 0
  }

  function Rank(sys: System): nat { ClientRank(sys.client.stage) + ServerRank(sys.server.stage) }

  // A step is safe when it does not panic, and it always brings the client closer to its end.

  ghost predicate ClientAdvances(rank: nat, safe: bool, r: Client.Step) {
    match r
    case Fail(e) => safe ==> e != Panic
    case Ok((c, _)) => ClientRank(c.stage) < rank && (safe ==> ClientSafe(c))
  }

  ghost predicate KeepsBuffer(c: Client.Client) {
    && c.hash.vers == c.vers && (MaySign(c.cfg) && c.vers >= TLS12 ==> c.hash.buffer.Some?)
    && (c.reply.chain != [] ==> MaySign(c.cfg))
  }

  lemma FinalAdvances(c: Client.Client, premaster: Term, sent: seq<Message>, safe: bool)
    requires safe ==> KeepsBuffer(c)
    ensures ClientAdvances(4, safe, Client.SendFinal(c, premaster, sent))
  {
  }

  lemma VerifyAdvances(c: Client.Client, premaster: Term, sent: seq<Message>, safe: bool)
    requires safe ==> KeepsBuffer(c)
    ensures ClientAdvances(4, safe, Client.SendVerify(c, premaster, sent))
  {
    if c.requested.None? || c.reply.chain == [] {
      FinalAdvances(c, premaster, sent, safe);
    } else {
      var r := Client.MakeCertificateVerify(c, c.requested.value);
      if r.Ok? {
        var m := r.value;
        FinalAdvances(c.(hash := c.hash.Write(m)), premaster, sent + [m], safe);
      }
    }
  }

  lemma AnswerAdvances(c: Client.Client, sent: seq<Message>, safe: bool)
    requires safe ==> KeepsBuffer(c)
    ensures ClientAdvances(4, safe, Client.SendKeyExchange(c, sent))
  {
    var a := Client.GenerateClientKeyExchange(c);
    if a.Ok? {
      VerifyAdvances(c.(hash := c.hash.Write(a.value.message)), a.value.premaster, sent + [a.value.message], safe);
    }
  }

  lemma DoneAdvances(c: Client.Client, m: Message, safe: bool)
    requires safe ==> KeepsBuffer(c)
    ensures ClientAdvances(4, safe, Client.OnDone(c, m))
  {
    if m.ServerHelloDone? {
      var c1 := c.(hash := c.hash.Write(m));
      if c.requested.None? {
        AnswerAdvances(c1, [], safe);
      } else {
        var reply := CertificateMsg(c.reply.chain);
        AnswerAdvances(c1.(hash := c1.hash.Write(reply)), [reply], safe);
      }
    }
  }

  lemma RequestAdvances(c: Client.Client, m: Message, safe: bool)
    requires safe ==> KeepsBuffer(c)
    ensures ClientAdvances(5, safe, Client.OnRequest(c, m))
  {
    if !m.CertificateRequest? {
      DoneAdvances(c, m, safe);
    }
  }

  lemma KeyExchangeAdvances(c: Client.Client, m: Message, safe: bool)
    requires safe ==> KeepsBuffer(c)
    ensures ClientAdvances(6, safe, Client.OnKeyExchange(c, m))
  {
    if !m.ServerKeyExchange? {
      RequestAdvances(c, m, safe);
    }
  }

  lemma StatusAdvances(c: Client.Client, m: Message, safe: bool)
    requires safe ==> KeepsBuffer(c)
    ensures ClientAdvances(7, safe, Client.OnStatus(c, m))
  {
    if !m.CertificateStatus? {
      KeyExchangeAdvances(c, m, safe);
    }
  }

  lemma FullAdvances(c: Client.Client, safe: bool)
    requires safe ==> (c.reply.chain != [] ==> MaySign(c.cfg))
    ensures ClientAdvances(9, safe, Ok((Client.BeginFull(c), [])))
  {
  }

  lemma ResumptionAdvances(c: Client.Client, safe: bool)
    requires safe ==> (c.reply.chain != [] ==> MaySign(c.cfg))
    ensures ClientAdvances(9, safe, Ok((Client.BeginResumed(c), [])))
  {
  }

  lemma ServerHelloAdvances(c: Client.Client, sh: ServerHello, safe: bool)
    requires safe ==> (c.reply.chain != [] ==> MaySign(c.cfg))
    ensures ClientAdvances(9, safe, Client.OnServerHello(c, sh))
  {
    var c0 := c.(vers := Client.PeerVersion(sh), serverHello := sh);
    match Client.ProcessServerHello(c0, sh)
    case Fail(e) =>
    case Ok((c1, isResume)) =>
      FullAdvances(c1, safe);
      ResumptionAdvances(c1, safe);
  }

  lemma ClosingAdvances(c: Client.Client, m: Message, safe: bool)
    requires safe ==> ClientSafe(c)
    ensures c.stage == Client.WaitTicket ==> ClientAdvances(3, safe, Client.OnTicket(c, m))
    ensures c.stage == Client.WaitFinished ==> ClientAdvances(1, safe, Client.OnFinished(c, m))
  {
  }

  lemma MessageAdvances(c: Client.Client, m: Message, safe: bool)
    requires safe ==> ClientSafe(c)
    ensures ClientAdvances(ClientRank(c.stage), safe, Client.OnMessage(c, m))
  {
    match c.stage
    case WaitServerHello =>
      if m.ServerHelloMsg? {
        ServerHelloAdvances(c, m.serverHello, safe);
      }
    case WaitCertificate =>
    case WaitStatus => StatusAdvances(c, m, safe);
    case WaitKeyExchange => KeyExchangeAdvances(c, m, safe);
    case WaitRequest => RequestAdvances(c, m, safe);
    case WaitDone => DoneAdvances(c, m, safe);
    case _ => ClosingAdvances(c, m, safe);
  }

  lemma ClientProgress(c: Client.Client, w: Wire, safe: bool)
    requires safe ==> ClientSafe(c)
    ensures ClientAdvances(ClientRank(c.stage), safe, Client.Receive(c, w))
  {
    if w.payload.Handshake? {
      MessageAdvances(c, w.payload.message, safe);
    }
  }

  ghost predicate ServerAdvances(rank: nat, safe: bool, r: Server.Step) {
    match r
    case Fail(e) => safe ==> e != Panic
    case Ok((s, _)) => ServerRank(s.stage) < rank && (safe ==> ServerSafe(s))
  }

  /** Holds of a server whatever its peer sends: it buffers the handshake while it may verify a client's signature. */
  ghost predicate ServerSafe(s: Server.Server) {
    && (s.stage == Server.WaitClientHello ==> s.peerChain == [])
    && (s.stage in {Server.WaitClientCertificate, Server.WaitClientKeyExchange, Server.WaitClientVerify} ==> Verifying(s))
  }

  ghost predicate Verifying(s: Server.Server) {
    && s.hash.vers == s.vers
    && (s.vers >= TLS12 && Server.RequestsClientCert(s.cfg) ==> s.hash.buffer.Some?)
    && (s.stage == Server.WaitClientCertificate || s.peerChain != [] ==> Server.RequestsClientCert(s.cfg))
  }

  lemma FlightAdvances(s: Server.Server, safe: bool)
    requires safe ==> s.peerChain == [] && s.hash.vers == s.vers && (s.vers >= TLS12 && Server.RequestsClientCert(s.cfg) ==> s.hash.buffer.Some?)
    ensures ServerAdvances(6, safe, Server.SendFlight(s))
  {
  }

  lemma PickAdvances(s: Server.Server, ch: ClientHello, safe: bool)
    requires safe ==> s.peerChain == []
    ensures ServerAdvances(6, safe, Server.PickCipherSuite(s, ch))
  {
    var suite := SelectCipherSuite(Server.PreferenceList(s.cfg.preferenceOrder, s.cfg.cipherSuites), ch.cipherSuites, s.abilities);
    if suite.Some? {
      FlightAdvances(Server.BeginFull(s.(suite := suite.value), ch), safe);
    }
  }

  lemma ResumeAdvances(s: Server.Server, ch: ClientHello, ticket: Server.OpenedTicket, safe: bool)
    ensures ServerAdvances(6, safe, Server.DoResume(s, ch, ticket))
  {
  }

  lemma HelloAdvances(s: Server.Server, ch: ClientHello, safe: bool)
    requires safe ==> s.peerChain == []
    ensures ServerAdvances(6, safe, Server.Answer(s, ch))
  {
    var ticket := if s.cfg.ticketsDisabled then None else Server.DecryptTicket(s.cfg.ticketKeys, ch.sessionTicket);
    if ticket.None? {
      PickAdvances(s, ch, safe);
    } else {
      var s1 := s.(sessionState := Some(ticket.value.state));
      var suite := Server.ResumptionSuite(s1, ch, ticket.value.state);
      if suite.None? {
        PickAdvances(s1, ch, safe);
      } else {
        ResumeAdvances(s1.(suite := suite.value, resumed := true), ch, ticket.value, safe);
      }
    }
  }

  lemma CertificateAdvances(s: Server.Server, m: Message, safe: bool)
    requires safe ==> Verifying(s)
    ensures s.stage == Server.WaitClientCertificate ==> ServerAdvances(5, safe, Server.OnClientCertificate(s, m))
    ensures s.stage == Server.WaitClientKeyExchange ==> ServerAdvances(4, safe, Server.OnClientKeyExchange(s, m))
    ensures s.stage == Server.WaitClientVerify ==> ServerAdvances(3, safe, Server.OnClientVerify(s, m))
  {
  }

  lemma ServerProgress(s: Server.Server, w: Wire, safe: bool)
    requires safe ==> ServerSafe(s)
    ensures ServerAdvances(ServerRank(s.stage), safe, Server.Receive(s, w))
  {
    if w.payload.Handshake? {
      var m := w.payload.message;
      match s.stage
      case WaitClientHello =>
        if m.ClientHelloMsg? {
          WelcomeAdvances(s, m.clientHello, safe);
        }
      case WaitChangeCipherSpec =>
      case WaitFinished =>
      case Completed =>
      case _ => CertificateAdvances(s, m, safe);
    }
  }

  lemma WelcomeAdvances(s: Server.Server, ch: ClientHello, safe: bool)
    requires safe ==> s.peerChain == []
    ensures ServerAdvances(6, safe, Server.OnClientHello(s, ch))
  {
    var vers := MutualVersion(Server.Versions(s.cfg), Server.OfferedVersions(ch));
    if vers.Some? {
      var r := Server.ProcessClientHello(s.(clientHello := ch, vers := vers.value), ch);
      if r.Ok? {
        HelloAdvances(r.value, ch, safe);
      }
    }
  }

  /** Every record read either ends the run or brings one side closer to its end. */
  lemma StepsEnd(sys: System, side: Side)
    requires sys.failure.None? && (if side == ClientSide then sys.toClient != [] else sys.toServer != [])
    ensures Step(sys, side).failure.Some? || Rank(Step(sys, side)) < Rank(sys)
  {
    match side
    case ClientSide =>
      if Client.Receive(sys.client, sys.toClient[0]).Ok? {
        ClientProgress(sys.client, sys.toClient[0], false);
      }
    case ServerSide =>
      if Server.Receive(sys.server, sys.toServer[0]).Ok? {
        ServerProgress(sys.server, sys.toServer[0], false);
      }
  }

  /** However a run has gone so far, at most fifteen more reads finish both sides, unless the configurations disagree. */
  lemma {:induction false} RunsComplete(sys: System, sc: Server.ServerConfig) returns (schedule: seq<Side>)
    requires Invariant(sys, sc)
    ensures |schedule| <= Rank(sys) + 1
    ensures var end := Run(sys, schedule);
      BothFinished(end) || (end.failure.Some? && end.failure.value.Configuration?)
    decreases if sys.failure.Some? then 0 else Rank(sys) + 1
  {
    if sys.failure.Some? {
      schedule := [];
    } else if sys.toServer == [] && sys.toClient == [] {
      SomethingToRead(sys.client, sys.server, sys.toServer, sys.toClient, sc);
      schedule := [];
    } else {
      var side := if sys.toServer != [] then ServerSide else ClientSide;
      StepsEnd(sys, side);
      StepKeeps(sys, side, sc);
      var rest := RunsComplete(Step(sys, side), sc);
      if Step(sys, side).failure.Some? {
        schedule := [side];
        assert Run(sys, schedule) == Run(Step(sys, side), []);
      } else {
        schedule := [side] + rest;
        assert schedule[1..] == rest;
      }
    }
  }

  // ---------- whatever the peer sends ----------

  /** A client that is fed any records at all. */
  function FeedClient(r: Result<Client.Client>, records: seq<Wire>): Result<Client.Client>
    decreases |records|
  {
    if r.Fail? || records == [] then r
    else match Client.Receive(r.value, records[0])
      case Fail(e) => Fail(e)
      case Ok((c, _)) => FeedClient(Ok(c), records[1..])
  }

  /**
    hashForClientCertificate never finds the buffer discarded, whatever the server sends: the
    client keeps the buffer as long as it may have a certificate to sign for.
   */
  lemma {:induction false} ClientNeverPanics(c: Client.Client, records: seq<Wire>)
    requires ClientSafe(c)
    ensures FeedClient(Ok(c), records) != Fail(Panic)
    decreases |records|
  {
    if records != [] {
      ClientProgress(c, records[0], true);
      match Client.Receive(c, records[0])
      case Fail(e) =>
      case Ok((c', _)) => ClientNeverPanics(c', records[1..]);
    }
  }

  lemma StartedClientNeverPanics(cc: Client.ClientConfig, records: seq<Wire>)
    requires Client.Start(cc).Ok?
    ensures FeedClient(Ok(Client.Start(cc).value.0), records) != Fail(Panic)
  {
    ClientNeverPanics(Client.Start(cc).value.0, records);
  }

  function FeedServer(r: Result<Server.Server>, records: seq<Wire>): Result<Server.Server>
    decreases |records|
  {
    if r.Fail? || records == [] then r
    else match Server.Receive(r.value, records[0])
      case Fail(e) => Fail(e)
      case Ok((s, _)) => FeedServer(Ok(s), records[1..])
  }

  lemma {:induction false} ServerNeverPanics(s: Server.Server, records: seq<Wire>)
    requires ServerSafe(s)
    ensures FeedServer(Ok(s), records) != Fail(Panic)
    decreases |records|
  {
    if records != [] {
      ServerProgress(s, records[0], true);
      match Server.Receive(s, records[0])
      case Fail(e) =>
      case Ok((s', _)) => ServerNeverPanics(s', records[1..]);
    }
  }

  lemma StartedServerNeverPanics(sc: Server.ServerConfig, records: seq<Wire>)
    ensures FeedServer(Ok(Server.Init(sc)), records) != Fail(Panic)
  {
    ServerNeverPanics(Server.Init(sc), records);
  }

  // ---------- the age of an issued ticket ----------

  /** The session in the hello's ticket, if this server can open it. */
  function OpenedState(sc: Server.ServerConfig, ch: ClientHello): Option<SessionState> {
    var ticket := if sc.ticketsDisabled then None else Server.DecryptTicket(sc.ticketKeys, ch.sessionTicket);
    match ticket
    case None => None
    case Some(t) => Some(t.state)
  }

  predicate Young(state: SessionState, now: int) { now - state.createdAt <= C.MAX_TICKET_LIFETIME }

  /** A server past the hello remembers the session of a ticket that opened, resumed or not. */
  ghost predicate Remembers(s: Server.Server) {
    if s.stage == Server.WaitClientHello then s.sessionState.None? && !s.resumed
    else
      && s.sessionState == OpenedState(s.cfg, s.clientHello)
      && (s.resumed ==> s.sessionState.Some? && Young(s.sessionState.value, s.cfg.now))
  }

  ghost predicate StillRemembers(s: Server.Server, r: Server.Step) {
    match r
    case Fail(e) => true
    case Ok((s', sent)) => s'.cfg == s.cfg && s'.stage != Server.WaitClientHello && Remembers(s')
  }

  /** What the server sends to close a handshake changes nothing it remembers. */
  lemma FinalKeeps(s: Server.Server)
    ensures match Server.SendFinal(s)
      case Fail(e) => true
      case Ok((s', sent)) =>
        s' == s.(hash := s'.hash, outSpec := s'.outSpec, nextOut := s'.nextOut)
  {
  }

  lemma FullRemembers(s: Server.Server, ch: ClientHello)
    requires s.sessionState == OpenedState(s.cfg, ch) && s.clientHello == ch && !s.resumed
    ensures StillRemembers(s, Server.PickCipherSuite(s, ch))
  {
    var suite := SelectCipherSuite(Server.PreferenceList(s.cfg.preferenceOrder, s.cfg.cipherSuites), ch.cipherSuites, s.abilities);
    if suite.Some? {
      FlightRemembers(Server.BeginFull(s.(suite := suite.value), ch));
    }
  }

  lemma FlightRemembers(s: Server.Server)
    requires s.sessionState == OpenedState(s.cfg, s.clientHello) && !s.resumed
    ensures StillRemembers(s, Server.SendFlight(s))
  {
  }

  lemma ResumeRemembers(s: Server.Server, ch: ClientHello, ticket: Server.OpenedTicket)
    requires s.sessionState == OpenedState(s.cfg, ch) == Some(ticket.state) && s.clientHello == ch
    requires Young(ticket.state, s.cfg.now)
    ensures StillRemembers(s, Server.DoResume(s, ch, ticket))
  {
    var s1 := s.(hello := s.hello.(cipherSuite := s.suite.id, sessionId := ch.sessionId, ticketSupported := ticket.usedOldKey));
    var r := Server.ProcessCertsFromClient(s1.(hash := Server.BeginHash(s1, true)), ticket.state.chain);
    if r.Ok? {
      FinalKeeps(Server.EstablishKeys(r.value.(masterSecret := ticket.state.masterSecret)));
    }
  }

  lemma AnswerRemembers(s: Server.Server, ch: ClientHello)
    requires s.clientHello == ch && s.sessionState.None? && !s.resumed
    ensures StillRemembers(s, Server.Answer(s, ch))
  {
    var ticket := if s.cfg.ticketsDisabled then None else Server.DecryptTicket(s.cfg.ticketKeys, ch.sessionTicket);
    if ticket.None? {
      FullRemembers(s, ch);
    } else {
      var s1 := s.(sessionState := Some(ticket.value.state));
      var suite := Server.ResumptionSuite(s1, ch, ticket.value.state);
      if suite.None? {
        FullRemembers(s1, ch);
      } else {
        ResumeRemembers(s1.(suite := suite.value, resumed := true), ch, ticket.value);
      }
    }
  }

  lemma HelloRemembered(s: Server.Server, ch: ClientHello)
    requires s.sessionState.None? && !s.resumed
    ensures StillRemembers(s, Server.OnClientHello(s, ch))
  {
    var vers := MutualVersion(Server.Versions(s.cfg), Server.OfferedVersions(ch));
    if vers.Some? {
      var r := Server.ProcessClientHello(s.(clientHello := ch, vers := vers.value), ch);
      if r.Ok? {
        AnswerRemembers(r.value, ch);
      }
    }
  }

  lemma FlightReadRemembers(s: Server.Server, m: Message)
    requires s.stage != Server.WaitClientHello && Remembers(s)
    ensures s.stage == Server.WaitClientCertificate ==> StillRemembers(s, Server.OnClientCertificate(s, m))
    ensures s.stage == Server.WaitClientKeyExchange ==> StillRemembers(s, Server.OnClientKeyExchange(s, m))
    ensures s.stage == Server.WaitClientVerify ==> StillRemembers(s, Server.OnClientVerify(s, m))
  {
  }

  lemma FinishedRemembers(s: Server.Server, m: Message)
    requires s.stage != Server.WaitClientHello && Remembers(s)
    ensures StillRemembers(s, Server.OnFinished(s, m))
  {
    FinalKeeps(s.(hash := s.hash.Write(m)));
  }

  lemma ServerRemembers(s: Server.Server, w: Wire)
    requires Remembers(s)
    ensures StillRemembers(s, Server.Receive(s, w))
  {
    if w.payload.Handshake? {
      var m := w.payload.message;
      match s.stage
      case WaitClientHello =>
        if m.ClientHelloMsg? {
          HelloRemembered(s, m.clientHello);
        }
      case WaitChangeCipherSpec =>
      case WaitFinished => FinishedRemembers(s, m);
      case Completed =>
      case _ => FlightReadRemembers(s, m);
    }
  }

  lemma {:induction false} RunRemembers(sys: System, schedule: seq<Side>)
    requires Remembers(sys.server)
    ensures Remembers(Run(sys, schedule).server) && Run(sys, schedule).server.cfg == sys.server.cfg
    decreases |schedule|
  {
    if schedule != [] {
      if sys.failure.None? && schedule[0] == ServerSide && sys.toServer != [] {
        ServerRemembers(sys.server, sys.toServer[0]);
      } else {
        assert Step(sys, schedule[0]).server == sys.server;
      }
      RunRemembers(Step(sys, schedule[0]), schedule[1..]);
    }
  }

  /**
    The session in a newly issued ticket dates from the ticket that opened, even one refused for
    its age. As long as a fresh ticket would be, it is accepted exactly when no ticket opened or
    the one that did is still young; and a full handshake that an expired ticket forced issues
    one that is expired already.
   */
  lemma IssuedTicketAge(cc: Client.ClientConfig, sc: Server.ServerConfig, schedule: seq<Side>)
    requires Boot(cc, sc).Ok? && GoodCache(cc, sc)
    requires BothFinished(Run(Boot(cc, sc).value, schedule)) && Run(Boot(cc, sc).value, schedule).client.stored.Some?
    ensures var end := Run(Boot(cc, sc).value, schedule);
      var opened' := OpenedState(sc, end.client.hello);
      && end.client.stored.value.ticket.Ticket?
      && var state := end.client.stored.value.ticket.state;
      && (forall later :: later - sc.now <= C.MAX_TICKET_LIFETIME ==>
            (Young(state, later) <==> opened'.None? || Young(opened'.value, later)))
      && (opened'.Some? && !Young(opened'.value, sc.now) ==> !end.server.resumed && !Young(state, sc.now))
  {
    Reachable(cc, sc, schedule);
    var end := Run(Boot(cc, sc).value, schedule);
    EndIsDone(end.client, end.server, end.toServer, end.toClient, sc);
    RunRemembers(Boot(cc, sc).value, schedule);
  }

  // ---------- what an accepted Finished proves, whatever the network did ----------

  /** A client that accepts the Finished this server computed has its master secret and its transcript. */
  lemma AcceptedServerFinishedBinds(c: Client.Client, s: Server.Server)
    requires s.hash.prf.Prf12? <==> s.hash.vers >= TLS12
    requires c.hash.prf.Prf12? <==> c.hash.vers >= TLS12
    requires c.stage == Client.WaitFinished && c.inSpec == s.nextOut
    requires Client.Receive(c, Server.SendFinished(s).1[1]).Ok?
    ensures c.masterSecret == s.masterSecret && c.hash.messages == s.hash.messages
  {
    var m := Server.SendFinished(s).1[1].payload.message;
    assert m.verifyData == c.hash.ServerSum(c.masterSecret) == s.hash.ServerSum(s.masterSecret);
    assert c.hash.Sum() == [c.hash.Sum()][0] == [s.hash.Sum()][0];
  }

  /** A server that accepts the Finished this client computed has its master secret and its transcript. */
  lemma AcceptedClientFinishedBinds(c: Client.Client, s: Server.Server)
    requires s.hash.prf.Prf12? <==> s.hash.vers >= TLS12
    requires c.hash.prf.Prf12? <==> c.hash.vers >= TLS12
    requires s.stage == Server.WaitFinished && s.inSpec == c.nextOut
    requires Server.OnFinished(s, Client.SendFinished(c).1[1].payload.message).Ok?
    ensures c.masterSecret == s.masterSecret && c.hash.messages == s.hash.messages
  {
    var m := Client.SendFinished(c).1[1].payload.message;
    assert m.verifyData == c.hash.ClientSum(c.masterSecret) == s.hash.ClientSum(s.masterSecret);
    assert c.hash.Sum() == [c.hash.Sum()][0] == [s.hash.Sum()][0];
  }
}
