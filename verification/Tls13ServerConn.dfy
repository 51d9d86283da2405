/**
  The server of a TLS 1.3 handshake in the shape of the source: methods that read and write as
  they go, with the loops that choose suite, group and PSK. Their outcome on any input is that
  of the step functions of Tls13Server.
 */
module Tls13ServerConn {
  import opened Outcomes
  import opened Symbolic
  import opened Tls13Config
  import opened Tls13Server
  import Client = Tls13Client
  import opened Tls13ClientConn

  type ServerStep = Result<(Server, seq<Client.Wire>)>

  /** How the server's handshake ends on the records that arrive. */
  datatype ServerCourse =
    | Stays(sent: seq<Client.Wire>)
    | Fails(error: Failure)
    | Finishes(server: Server, sent: seq<Client.Wire>, rest: seq<Client.Wire>)

  /** The step functions, fed one record after the other. */
  function DriveServer(s: Server, rest: seq<Client.Wire>, sent: seq<Client.Wire>): ServerCourse
    decreases |rest|, 1
  {
    if s.stage == ServerStage.Completed then Finishes(s, sent, rest)
    else if rest == [] then Stays(sent)
    else ContinueServer(Receive(s, rest[0]), rest[1..], sent)
  }

  function ContinueServer(r: ServerStep, rest: seq<Client.Wire>, sent: seq<Client.Wire>): ServerCourse
    decreases |rest|, 2
  {
    match r
    case Fail(e) => Fails(e)
    case Ok((s, out)) => DriveServer(s, rest, if out == [] then sent else sent + out)
  }

  class ServerHandshake {
    var hs: Server
    var incoming: seq<Client.Wire>
    var outgoing: seq<Client.Wire>

    constructor (cfg: ServerConfig, incoming: seq<Client.Wire>)
      ensures hs == Init(cfg) && outgoing == [] && this.incoming == incoming
    {
      hs, outgoing, this.incoming := Init(cfg), [], incoming;
    }

    /** The handshake ended the way the step functions say. */
    ghost predicate Ended(status: Status, goal: ServerCourse)
      reads this
    {
      match goal
      case Stays(sent) => status == Waiting && outgoing == sent
      case Fails(e) => status == Failed(e)
      case Finishes(s, sent, rest) => status == GoOn && hs == s && outgoing == sent && incoming == rest
    }

    /** readHandshake */
    method ReadHandshake(ghost goal: ServerCourse) returns (status: Status, m: Message)
      requires hs.stage != ServerStage.Completed && goal == DriveServer(hs, incoming, outgoing)
      modifies this`incoming
      ensures status == GoOn ==> goal == ContinueServer(Receive(hs, Client.Wire(hs.inSecret, m)), incoming, outgoing)
      ensures status != GoOn ==> Ended(status, goal)
    {
      m := EncryptedExtensions("");
      if incoming == [] {
        return Waiting, m;
      }
      var w := incoming[0];
      incoming := incoming[1..];
      if w.secret != hs.inSecret {
        return Failed(Protocol(BadRecordMac)), m;
      }
      return GoOn, w.message;
    }

    /** Hashes a message and writes it under the current secret. */
    method WriteHandshake(m: Message)
      modifies this`hs, this`outgoing
      ensures hs == old(hs).(transcript := old(hs).transcript + [Whole(m)])
      ensures outgoing == old(outgoing) + [Client.Wire(hs.outSecret, m)]
    {
      hs := hs.(transcript := hs.transcript + [Whole(m)]);
      outgoing := outgoing + [Client.Wire(hs.outSecret, m)];
    }

    // ---------- processClientHello ----------

    /** The loop over the server's suites in its order of preference. */
    method ChooseSuite(ch: ClientHello) returns (suite: Option<Suite>)
      ensures suite == FirstMutualSuite(hs.cfg.suitePreference, ch.cipherSuites)
    {
      var preference := hs.cfg.suitePreference;
      for i := 0 to |preference|
        invariant FirstMutualSuite(preference, ch.cipherSuites) == FirstMutualSuite(preference[i..], ch.cipherSuites)
      {
        var candidate := MutualCipherSuiteTls13(ch.cipherSuites, preference[i]);
        if candidate.Some? {
          return candidate;
        }
        assert preference[i..][1..] == preference[i + 1..];
      }
      assert preference[|preference|..] == [];
      return None;
    }

    method FindShare(group: nat, shares: seq<KeyShare>) returns (share: Option<KeyShare>)
      ensures share == ShareFor(group, shares)
    {
      for j := 0 to |shares|
        invariant ShareFor(group, shares) == ShareFor(group, shares[j..])
      {
        if shares[j].group == group {
          return Some(shares[j]);
        }
        assert shares[j..][1..] == shares[j + 1..];
      }
      assert shares[|shares|..] == [];
      return None;
    }

    /** The labelled loops of the group selection: a group with a share wins over an earlier one without. */
    method ChooseGroup(ch: ClientHello) returns (choice: GroupChoice)
      ensures choice == SelectGroup(hs.cfg.curves, ch, 0)
    {
      var preferred := hs.cfg.curves;
      var selected: nat := 0;
      for i := 0 to |preferred|
        invariant SelectGroup(preferred, ch, 0) == SelectGroup(preferred[i..], ch, selected)
      {
        var share := FindShare(preferred[i], ch.keyShares);
        if share.Some? {
          return GroupChoice(share.value.group, share);
        }
        if selected == 0 && preferred[i] in ch.supportedCurves {
          selected := preferred[i];
        }
        assert preferred[i..][1..] == preferred[i + 1..];
      }
      assert preferred[|preferred|..] == [];
      return GroupChoice(selected, None);
    }

    // ---------- checkForResumption ----------

    /** The loop over the offered identities: skip what cannot be resumed, stop at the first that can. */
    method CheckIdentities(ch: ClientHello) returns (r: Result<Server>)
      requires |ch.pskIdentities| == |ch.pskBinders|
      ensures r == TryIdentities(hs, ch, 0)
    {
      var i := 0;
      while i < |ch.pskIdentities| && i < MAX_CLIENT_PSK_IDENTITIES
        invariant 0 <= i <= |ch.pskIdentities|
        invariant TryIdentities(hs, ch, 0) == TryIdentities(hs, ch, i)
      {
        var state := DecryptTicket(hs.cfg.ticketKeys, ch.pskIdentities[i].ticket);
        if state.Some? && Resumable(hs, state.value) {
          r := TakeIdentity(ch, i, state.value);
          return;
        }
        i := i + 1;
      }
      return Ok(hs);
    }

    /** The binder check and, if it passes, the resumed session. */
    method TakeIdentity(ch: ClientHello, i: nat, state: SessionState) returns (r: Result<Server>)
      requires i < |ch.pskIdentities| == |ch.pskBinders| && i < MAX_CLIENT_PSK_IDENTITIES
      requires DecryptTicket(hs.cfg.ticketKeys, ch.pskIdentities[i].ticket) == Some(state) && Resumable(hs, state)
      ensures r == TryIdentities(hs, ch, i)
    {
      var earlySecret := EarlySecretFrom(hs, state);
      if ch.pskBinders[i] != BinderOver(hs, ch, earlySecret) {
        return Fail(Protocol(InvalidBinder));
      }
      var certs := ProcessCertsFromClient(hs.(earlySecret := earlySecret), state.chain);
      if certs.Fail? {
        return Fail(certs.error);
      }
      var s := certs.value;
      return Ok(s.(usingPsk := true, hello := s.hello.(selectedIdentityPresent := true, selectedIdentity := i)));
    }

    method ResumptionCheck(ch: ClientHello) returns (r: Result<Server>)
      ensures r == CheckForResumption(hs, ch)
    {
      if hs.cfg.ticketsDisabled || PSK_MODE_DHE !in ch.pskModes {
        return Ok(hs);
      }
      if |ch.pskIdentities| != |ch.pskBinders| {
        return Fail(Protocol(BinderCount));
      }
      r := CheckIdentities(ch);
    }

    // ---------- the hellos ----------

    /** Reads the ClientHello, a second one if it takes that, and runs the handshake. */
    method Handshake(ghost goal: ServerCourse) returns (status: Status)
      requires hs.stage == WaitClientHello && goal == DriveServer(hs, incoming, outgoing)
      modifies this
      ensures Ended(status, goal)
    {
      var m;
      status, m := ReadHandshake(goal);
      if status != GoOn {
        return;
      }
      if !m.ClientHelloMsg? {
        return Failed(Protocol(UnexpectedMessage));
      }
      status := ProcessClientHello(m.clientHello, goal);
    }

    method ProcessClientHello(ch: ClientHello, ghost goal: ServerCourse) returns (status: Status)
      requires goal == ContinueServer(OnFirstClientHello(hs, ch), incoming, outgoing)
      modifies this
      ensures Ended(status, goal)
    {
      var r := Negotiate(ch);
      if r.Fail? {
        return Failed(r.error);
      }
      hs := r.value;
      var choice := ChooseGroup(ch);
      if choice.group == 0 {
        return Failed(Configuration(NoMutualCurve));
      }
      if choice.share.Some? {
        status := RespondTo(ch, choice.group, choice.share.value, goal);
      } else {
        status := RetryHello(ch, choice.group, goal);
      }
    }

    /** The checks of the hello and the choice of the suite. */
    method Negotiate(ch: ClientHello) returns (r: Result<Server>)
      ensures r == NegotiateParameters(hs, ch)
    {
      if |ch.supportedVersions| == 0 && ch.vers >= VERSION_TLS13 && VERSION_TLS13 in hs.cfg.supportedVersions {
        return Fail(Protocol(MissingClientVersions));
      }
      if FirstVersion(ch.supportedVersions, hs.cfg.supportedVersions) != Some(VERSION_TLS13) {
        return Fail(Configuration(NotTls13));
      }
      if ch.compressionMethods != [0] {
        return Fail(Protocol(BadCompression));
      }
      if |ch.secureRenegotiation| != 0 {
        return Fail(Protocol(RenegotiationInfo));
      }
      if ch.earlyData {
        return Fail(Protocol(UnexpectedEarlyData));
      }
      var suite := ChooseSuite(ch);
      if suite.None? {
        return Fail(Configuration(NoMutualSuite));
      }
      var hello := EMPTY_HELLO.(vers := VERSION_TLS12, supportedVersion := VERSION_TLS13, random := Random(hs.cfg.random),
                                sessionId := ch.sessionId, cipherSuite := suite.value.id);
      return Ok(hs.(clientHello := Some(ch), suite := suite.value, hello := hello));
    }

    /** doHelloRetryRequest, then the rest of the handshake on the second hello. */
    method RetryHello(ch: ClientHello, group: nat, ghost goal: ServerCourse) returns (status: Status)
      requires goal == ContinueServer(Ok(DoHelloRetryRequest(hs, ch, group)), incoming, outgoing)
      modifies this
      ensures Ended(status, goal)
    {
      WriteRetry(ch, group);
      var m;
      status, m := ReadHandshake(goal);
      if status != GoOn {
        return;
      }
      if !m.ClientHelloMsg? {
        return Failed(Protocol(UnexpectedMessage));
      }
      status := TakeSecondHello(m.clientHello, goal);
    }

    /** The first hello becomes its hash, and the retry follows it. */
    method WriteRetry(ch: ClientHello, group: nat)
      modifies this`hs, this`outgoing
      ensures (hs, outgoing) == (DoHelloRetryRequest(old(hs), ch, group).0, old(outgoing) + DoHelloRetryRequest(old(hs), ch, group).1)
    {
      var retry := HelloRetryRequest(hs, group);
      var digest := MessageHash(Digest(hs.suite.hash, [Whole(ClientHelloMsg(ch))]));
      hs := hs.(group := group, transcript := [digest]);
      WriteHandshake(ServerHelloMsg(retry));
      assert [digest] + [Whole(ServerHelloMsg(retry))] == Client.RetryTranscript(hs.suite.hash, ch, retry);
      hs := hs.(stage := WaitSecondClientHello);
    }

    method TakeSecondHello(ch: ClientHello, ghost goal: ServerCourse) returns (status: Status)
      requires goal == ContinueServer(OnSecondClientHello(hs, ch), incoming, outgoing)
      modifies this
      ensures Ended(status, goal)
    {
      if |ch.keyShares| != 1 || ch.keyShares[0].group != hs.group {
        return Failed(Protocol(InvalidSecondKeyShare));
      }
      if ch.earlyData {
        return Failed(Protocol(EarlyDataAfterRetry));
      }
      if hs.clientHello.None? {
        return Failed(Protocol(IllegalHelloChange));
      }
      var illegal := IllegalClientHelloChange(ch, hs.clientHello.value);
      if illegal {
        return Failed(Protocol(IllegalHelloChange));
      }
      hs := hs.(clientHello := Some(ch));
      status := RespondTo(ch, hs.group, ch.keyShares[0], goal);
    }

    // ---------- the server's flight ----------

    method RespondTo(ch: ClientHello, group: nat, share: KeyShare, ghost goal: ServerCourse) returns (status: Status)
      requires goal == ContinueServer(Respond(hs, ch, group, share), incoming, outgoing)
      modifies this
      ensures Ended(status, goal)
    {
      if !SupportedCurve(group) {
        return Failed(Configuration(UnsupportedCurve));
      }
      var ecdhe := Ecdhe(group, hs.cfg.exponent);
      var sharedKey := ecdhe.Shared(share.data);
      if sharedKey == Nil {
        return Failed(Protocol(InvalidPeerShare));
      }
      hs := hs.(group := group, sharedKey := sharedKey, hello := hs.hello.(serverShare := KeyShare(group, ecdhe.Public())));
      status := RunHandshake(ch, goal);
    }

    method RunHandshake(ch: ClientHello, ghost goal: ServerCourse) returns (status: Status)
      requires goal == ContinueServer(RespondWithKey(hs, ch), incoming, outgoing)
      modifies this
      ensures Ended(status, goal)
    {
      var resumed := ResumptionCheck(ch);
      if resumed.Fail? {
        return Failed(resumed.error);
      }
      hs := resumed.value;
      var scheme := PickCertificate(hs.usingPsk, hs.cfg.identity, ch.supportedSignatureAlgorithms);
      if scheme.Fail? {
        return Failed(scheme.error);
      }
      status := WriteFlight(ch, scheme.value, goal);
      if status != GoOn {
        return;
      }
      status := ReadSecondFlight(goal);
    }

    /** Everything the server sends before it reads again. */
    method WriteFlight(ch: ClientHello, scheme: nat, ghost goal: ServerCourse) returns (status: Status)
      requires goal == ContinueServer(SendFlight(hs, ch, scheme), incoming, outgoing)
      modifies this`hs, this`outgoing
      ensures status == GoOn ==> goal == DriveServer(hs, incoming, outgoing)
      ensures status == GoOn ==> hs.stage == if RequestClientCert(hs) then WaitClientCertificate else WaitClientFinished
      ensures status != GoOn ==> Ended(status, goal)
    {
      ghost var before := outgoing;
      status := WriteParameters(ch);
      if status == GoOn {
        ghost var parameters := outgoing[|before|..];
        status := WriteFromCertificate(scheme, before, parameters, goal);
      }
    }

    method WriteFromCertificate(scheme: nat, ghost before: seq<Client.Wire>, ghost sent: seq<Client.Wire>, ghost goal: ServerCourse)
        returns (status: Status)
      requires outgoing == before + sent && goal == ContinueServer(SendFromCertificate(hs, scheme, sent), incoming, before)
      requires sent != []
      modifies this`hs, this`outgoing
      ensures status == GoOn ==> goal == DriveServer(hs, incoming, outgoing)
      ensures status == GoOn ==> hs.stage == if RequestClientCert(hs) then WaitClientCertificate else WaitClientFinished
      ensures status != GoOn ==> Ended(status, goal)
    {
      status := WriteCertificate(scheme);
      if status != GoOn {
        return;
      }
      ghost var certificates := outgoing[|before| + |sent|..];
      assert outgoing == before + (sent + certificates);
      status := WriteFinished();
      if status == GoOn {
        ghost var finished := outgoing[|before| + |sent| + |certificates|..];
        assert outgoing == before + (sent + certificates + finished);
        hs := AwaitClient(hs);
      }
    }

    /** sendServerParameters */
    method WriteParameters(ch: ClientHello) returns (status: Status)
      modifies this`hs, this`outgoing
      ensures match SendServerParameters(old(hs), ch)
        case Fail(e) => status == Failed(e)
        case Ok((s, sent)) => status == GoOn && hs == s && outgoing == old(outgoing) + sent
    {
      ghost var t := hs.transcript + [Whole(ClientHelloMsg(ch)), Whole(ServerHelloMsg(hs.hello))];
      hs := hs.(transcript := hs.transcript + [Whole(ClientHelloMsg(ch))]);
      WriteHandshake(ServerHelloMsg(hs.hello));
      assert hs.transcript == t;
      var h := hs.suite.hash;
      var earlySecret := if hs.earlySecret == Nil then Extract(h, Nil, Nil) else hs.earlySecret;
      hs := hs.(handshakeSecret := HandshakeSecret(h, hs.sharedKey, earlySecret));
      hs := hs.(inSecret := DeriveSecret(h, hs.handshakeSecret, CLIENT_HANDSHAKE_LABEL, hs.transcript));
      hs := hs.(outSecret := DeriveSecret(h, hs.handshakeSecret, SERVER_HANDSHAKE_LABEL, hs.transcript));
      var proto := NegotiateAlpn(hs.cfg.alpnProtocols, ch.alpnProtocols);
      if proto.None? {
        return Failed(Configuration(NoApplicationProtocol));
      }
      hs := hs.(alpn := proto.value);
      WriteHandshake(EncryptedExtensions(proto.value));
      return GoOn;
    }

    /** sendServerCertificate */
    method WriteCertificate(scheme: nat) returns (status: Status)
      modifies this`hs, this`outgoing
      ensures match SendServerCertificate(old(hs), scheme)
        case Fail(e) => status == Failed(e)
        case Ok((s, sent)) => status == GoOn && hs == s && outgoing == old(outgoing) + sent
    {
      if hs.usingPsk {
        return GoOn;
      }
      if hs.cfg.identity.None? {
        return Failed(Protocol(InternalError));
      }
      var id := hs.cfg.identity.value;
      if RequestClientCert(hs) {
        WriteHandshake(CertRequest(hs));
      }
      WriteHandshake(CertificateMsg(id.chain));
      WriteHandshake(CertificateVerify(scheme, Sign(id, scheme, SERVER_SIGNATURE_CONTEXT, hs.suite.hash, hs.transcript)));
      return GoOn;
    }

    /** sendServerFinished, with the tickets if no client certificate is awaited. */
    method WriteFinished() returns (status: Status)
      modifies this`hs, this`outgoing
      ensures match SendServerFinished(old(hs))
        case Fail(e) => status == Failed(e)
        case Ok((s, sent)) => status == GoOn && hs == s && outgoing == old(outgoing) + sent
    {
      var h := hs.suite.hash;
      WriteHandshake(Finished(FinishedHash(h, hs.outSecret, hs.transcript)));
      hs := hs.(masterSecret := MasterSecret(h, hs.handshakeSecret));
      hs := hs.(trafficSecret := DeriveSecret(h, hs.masterSecret, CLIENT_APPLICATION_LABEL, hs.transcript));
      hs := hs.(outSecret := DeriveSecret(h, hs.masterSecret, SERVER_APPLICATION_LABEL, hs.transcript));
      hs := hs.(exporter := DeriveSecret(h, hs.masterSecret, EXPORTER_LABEL, hs.transcript));
      status := GoOn;
      if !RequestClientCert(hs) {
        status := WriteTickets();
      }
    }

    /** sendSessionTickets: the client's Finished is computed ahead of its arrival. */
    method WriteTickets() returns (status: Status)
      modifies this`hs, this`outgoing
      ensures match SendSessionTickets(old(hs))
        case Fail(e) => status == Failed(e)
        case Ok((s, sent)) => status == GoOn && hs == s && outgoing == old(outgoing) + sent
    {
      var h := hs.suite.hash;
      hs := hs.(clientFinished := FinishedHash(h, hs.inSecret, hs.transcript));
      hs := hs.(transcript := hs.transcript + [Whole(Finished(hs.clientFinished))]);
      if !ShouldSendSessionTickets(hs) {
        return GoOn;
      }
      if |hs.cfg.ticketKeys| == 0 {
        return Failed(Configuration(NoTicketKeys));
      }
      var resumptionSecret := DeriveSecret(h, hs.masterSecret, RESUMPTION_LABEL, hs.transcript);
      var state := SessionState(hs.suite.id, hs.cfg.now, resumptionSecret, hs.peerChain);
      outgoing := outgoing + [Client.Wire(hs.outSecret,
        NewSessionTicket(Ticket(hs.cfg.ticketKeys[0], state), MAX_TICKET_LIFETIME, hs.cfg.ageAdd, []))];
      return GoOn;
    }

    // ---------- the client's flight ----------

    method ReadSecondFlight(ghost goal: ServerCourse) returns (status: Status)
      requires hs.stage == if RequestClientCert(hs) then WaitClientCertificate else WaitClientFinished
      requires goal == DriveServer(hs, incoming, outgoing)
      modifies this
      ensures Ended(status, goal)
    {
      if RequestClientCert(hs) {
        status := ReadCertificate(goal);
        if status != GoOn {
          return;
        }
      }
      status := ReadFinished(goal);
    }

    /** readClientCertificate, and the tickets that waited for it. */
    method ReadCertificate(ghost goal: ServerCourse) returns (status: Status)
      requires hs.stage == WaitClientCertificate && goal == DriveServer(hs, incoming, outgoing)
      modifies this
      ensures status == GoOn ==> hs.stage == WaitClientFinished && goal == DriveServer(hs, incoming, outgoing)
      ensures status != GoOn ==> Ended(status, goal)
    {
      var m;
      status, m := ReadHandshake(goal);
      if status != GoOn {
        return;
      }
      if !m.CertificateMsg? {
        return Failed(Protocol(UnexpectedMessage));
      }
      var certs := ProcessCertsFromClient(hs.(transcript := hs.transcript + [Whole(m)]), m.chain);
      if certs.Fail? {
        return Failed(certs.error);
      }
      hs := certs.value;
      if |m.chain| != 0 {
        hs := hs.(stage := WaitClientCertificateVerify);
        status := ReadVerify(goal);
        if status != GoOn {
          return;
        }
      }
      status := FinishCertificate(goal);
    }

    method FinishCertificate(ghost goal: ServerCourse) returns (status: Status)
      requires goal == ContinueServer(TicketsThenFinished(hs), incoming, outgoing)
      modifies this`hs, this`outgoing
      ensures status == GoOn ==> hs.stage == WaitClientFinished && goal == DriveServer(hs, incoming, outgoing)
      ensures status != GoOn ==> Ended(status, goal)
    {
      ghost var before := outgoing;
      status := WriteTickets();
      if status == GoOn {
        hs := hs.(stage := WaitClientFinished);
        assert outgoing[|before|..] == [] ==> outgoing == before;
      }
    }

    method ReadVerify(ghost goal: ServerCourse) returns (status: Status)
      requires hs.stage == WaitClientCertificateVerify && goal == DriveServer(hs, incoming, outgoing)
      modifies this`hs, this`incoming
      ensures status == GoOn ==> goal == ContinueServer(TicketsThenFinished(hs), incoming, outgoing)
      ensures status != GoOn ==> Ended(status, goal)
    {
      var m;
      status, m := ReadHandshake(goal);
      if status != GoOn {
        return;
      }
      if !m.CertificateVerify? {
        return Failed(Protocol(UnexpectedMessage));
      }
      if |hs.peerChain| == 0 {
        return Failed(Protocol(InternalError));
      }
      var refused := VerifySignature(hs.peerChain[0], m.scheme, m.signature, CLIENT_SIGNATURE_CONTEXT,
                                     hs.suite.hash, hs.transcript);
      if refused.Some? {
        return Failed(refused.value);
      }
      hs := hs.(transcript := hs.transcript + [Whole(m)]);
      return GoOn;
    }

    /** readClientFinished */
    method ReadFinished(ghost goal: ServerCourse) returns (status: Status)
      requires hs.stage == WaitClientFinished && goal == DriveServer(hs, incoming, outgoing)
      modifies this`hs, this`incoming
      ensures Ended(status, goal)
    {
      var m;
      status, m := ReadHandshake(goal);
      if status != GoOn {
        return;
      }
      if !m.Finished? {
        return Failed(Protocol(UnexpectedMessage));
      }
      if m.verifyData != hs.clientFinished {
        return Failed(Protocol(InvalidFinished));
      }
      hs := hs.(inSecret := hs.trafficSecret, stage := ServerStage.Completed);
      return GoOn;
    }
  }
}
