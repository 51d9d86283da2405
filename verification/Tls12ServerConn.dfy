/**
  The server of a TLS 1.0-1.2 handshake in the shape of the source: methods that read and write
  as they go. Their outcome on any input is that of the step functions of Tls12Server.
 */
module Tls12ServerConn {
  import opened Outcomes
  import opened Tls12Terms
  import opened Tls12Server
  import C = Tls13Config
  import Conn = Tls12ClientConn

  /** How a handshake ends on the records that arrive: it waits for more, gives up, or completes. */
  datatype Course =
    | Blocked(sent: seq<Wire>)
    | Stopped(error: Failure)
    | Finishes(server: Server, sent: seq<Wire>, rest: seq<Wire>)

  /** The step functions, fed one record after the other. */
  function Drive(s: Server, rest: seq<Wire>, sent: seq<Wire>): Course
    decreases |rest|, 1
  {
    if s.stage == Completed then Finishes(s, sent, rest)
    else if rest == [] then Blocked(sent)
    else Continue(Receive(s, rest[0]), rest[1..], sent)
  }

  function Continue(r: Step, rest: seq<Wire>, sent: seq<Wire>): Course
    decreases |rest|, 2
  {
    match r
    case Fail(e) => Stopped(e)
    case Ok((s, out)) => Drive(s, rest, if out == [] then sent else sent + out)
  }

  class ServerHandshake {
    var hs: Server
    var incoming: seq<Wire>
    var outgoing: seq<Wire>

    constructor (cfg: ServerConfig, incoming: seq<Wire>)
      ensures hs == Init(cfg) && outgoing == [] && this.incoming == incoming
    {
      hs, outgoing, this.incoming := Init(cfg), [], incoming;
    }

    /** The handshake ended the way the step functions say. */
    ghost predicate Ended(status: Conn.Status, goal: Course)
      reads this
    {
      match goal
      case Blocked(sent) => status == Conn.Waiting && outgoing == sent
      case Stopped(e) => status == Conn.Failed(e)
      case Finishes(s, sent, rest) => status == Conn.GoOn && hs == s && outgoing == sent && incoming == rest
    }

    /** readHandshake */
    method ReadHandshake(ghost goal: Course) returns (status: Conn.Status, m: Message)
      requires hs.stage !in {WaitChangeCipherSpec, Completed}
      requires goal == Drive(hs, incoming, outgoing)
      modifies this`incoming
      ensures status == Conn.GoOn ==> goal == Continue(OnMessage(hs, m), incoming, outgoing)
      ensures status != Conn.GoOn ==> Ended(status, goal)
    {
      m := ServerHelloDone;
      if incoming == [] {
        return Conn.Waiting, m;
      }
      var w := incoming[0];
      incoming := incoming[1..];
      if w.spec != hs.inSpec {
        return Conn.Failed(Protocol(Garbled)), m;
      }
      if w.payload.ChangeCipherSpec? {
        return Conn.Failed(Protocol(UnexpectedMessage)), m;
      }
      return Conn.GoOn, w.payload.message;
    }

    method WriteHandshake(m: Message)
      modifies this`hs, this`outgoing
      ensures hs == old(hs).(hash := old(hs).hash.Write(m))
      ensures outgoing == old(outgoing) + [Wire(hs.outSpec, Handshake(m))]
    {
      hs := hs.(hash := hs.hash.Write(m));
      outgoing := outgoing + [Wire(hs.outSpec, Handshake(m))];
    }

    // ---------- serverHandshake and handshake ----------

    /** Reads the ClientHello and runs the handshake, full or resumed. */
    method ServerHandshake(ghost goal: Course) returns (status: Conn.Status)
      requires hs.stage == WaitClientHello && hs.outSpec == Plaintext && !hs.resumed
      requires goal == Drive(hs, incoming, outgoing)
      modifies this
      ensures Ended(status, goal)
    {
      var m;
      status, m := ReadHandshake(goal);
      if status != Conn.GoOn {
        return;
      }
      if !m.ClientHelloMsg? {
        return Conn.Failed(Protocol(UnexpectedMessage));
      }
      status := ReadClientHello(m.clientHello, goal);
      if status == Conn.GoOn {
        status := RunHandshake(goal);
      }
    }

    /** The version, and what processClientHello settles. */
    method ReadClientHello(ch: ClientHello, ghost goal: Course) returns (status: Conn.Status)
      requires goal == Continue(OnClientHello(hs, ch), incoming, outgoing)
      modifies this`hs
      ensures status == Conn.GoOn ==> goal == Continue(Answer(hs, hs.clientHello), incoming, outgoing)
      ensures status == Conn.GoOn ==> hs.resumed == old(hs.resumed) && hs.outSpec == old(hs.outSpec)
      ensures status != Conn.GoOn ==> Ended(status, goal)
    {
      var vers := MutualVersion(Versions(hs.cfg), OfferedVersions(ch));
      if vers.None? {
        return Conn.Failed(Configuration(NoVersion));
      }
      if vers.value == TLS13 {
        return Conn.Failed(Configuration(Tls13Negotiated));
      }
      hs := hs.(clientHello := ch, vers := vers.value);
      status := TakeClientHello(ch, goal);
    }

    method TakeClientHello(ch: ClientHello, ghost goal: Course) returns (status: Conn.Status)
      requires hs.clientHello == ch && goal == Continue(Welcome(hs, ch), incoming, outgoing)
      modifies this`hs
      ensures status == Conn.GoOn ==> goal == Continue(Answer(hs, hs.clientHello), incoming, outgoing)
      ensures status == Conn.GoOn ==> hs.resumed == old(hs.resumed) && hs.outSpec == old(hs.outSpec)
      ensures status != Conn.GoOn ==> Ended(status, goal)
    {
      var r := ProcessClientHello(hs, ch);
      HelloSettles(hs, ch);
      if r.Fail? {
        return Conn.Failed(r.error);
      }
      hs := r.value;
      return Conn.GoOn;
    }

    /** checkForResumption and the handshake it chooses. */
    method RunHandshake(ghost goal: Course) returns (status: Conn.Status)
      requires hs.outSpec == Plaintext && !hs.resumed && goal == Continue(Answer(hs, hs.clientHello), incoming, outgoing)
      modifies this
      ensures Ended(status, goal)
    {
      if !hs.cfg.ticketsDisabled {
        var ticket := DecryptTicket(hs.cfg.ticketKeys, hs.clientHello.sessionTicket);
        if ticket.Some? {
          hs := hs.(sessionState := Some(ticket.value.state));
          var suite := ResumptionSuite(hs, hs.clientHello, ticket.value.state);
          if suite.Some? {
            hs := hs.(suite := suite.value, resumed := true);
            status := Resume(ticket.value, goal);
            return;
          }
        }
      }
      status := DoFull(goal);
    }

    // ---------- the abbreviated handshake ----------

    method Resume(ticket: OpenedTicket, ghost goal: Course) returns (status: Conn.Status)
      requires hs.resumed && hs.outSpec == Plaintext
      requires goal == Continue(DoResume(hs, hs.clientHello, ticket), incoming, outgoing)
      modifies this
      ensures Ended(status, goal)
    {
      ghost var before := outgoing;
      status := DoResumeHandshake(ticket, goal);
      if status == Conn.GoOn {
        hs := EstablishKeys(hs);
        ghost var greeting := outgoing;
        status := SendTicketAndFinished();
        if status == Conn.GoOn {
          Associates(before, greeting, outgoing, Plain([ServerHelloMsg(hs.hello)]));
          hs := hs.(stage := WaitChangeCipherSpec);
          status := ReadFinished(goal);
          if status == Conn.GoOn {
            hs := hs.(stage := Completed);
          }
        }
      }
    }

    method DoResumeHandshake(ticket: OpenedTicket, ghost goal: Course) returns (status: Conn.Status)
      requires hs.resumed && hs.outSpec == Plaintext
      requires goal == Continue(DoResume(hs, hs.clientHello, ticket), incoming, outgoing)
      modifies this`hs, this`outgoing
      ensures status == Conn.GoOn ==>
        && goal == Continue(FinishResume(EstablishKeys(hs)), incoming, old(outgoing))
        && outgoing == old(outgoing) + Plain([ServerHelloMsg(hs.hello)])
        && hs.resumed && hs.outSpec == Plaintext
      ensures status != Conn.GoOn ==> Ended(status, goal)
    {
      hs := hs.(hello := hs.hello.(cipherSuite := hs.suite.id, sessionId := hs.clientHello.sessionId,
                                   ticketSupported := ticket.usedOldKey));
      BeginHash(true);
      outgoing := outgoing + [Wire(hs.outSpec, Handshake(ServerHelloMsg(hs.hello)))];
      var r := ProcessCertsFromClient(hs, ticket.state.chain);
      if r.Fail? {
        return Conn.Failed(r.error);
      }
      hs := r.value;
      if !hs.cfg.connectionOk {
        return Conn.Failed(Configuration(ConnectionRefused));
      }
      hs := hs.(masterSecret := ticket.state.masterSecret);
      return Conn.GoOn;
    }

    /** The handshake hash after both hellos. */
    method BeginHash(discard: bool)
      modifies this`hs
      ensures hs == old(hs).(hash := Tls12Server.BeginHash(old(hs), discard))
    {
      hs := hs.(hash := NewHandshakeHash(hs.vers, hs.suite));
      if discard {
        hs := hs.(hash := hs.hash.Discard());
      }
      hs := hs.(hash := hs.hash.Write(ClientHelloMsg(hs.clientHello)));
      hs := hs.(hash := hs.hash.Write(ServerHelloMsg(hs.hello)));
    }

    /** sendSessionTicket and sendFinished */
    method SendTicketAndFinished() returns (status: Conn.Status)
      requires hs.outSpec == Plaintext
      modifies this`hs, this`outgoing
      ensures match SendFinal(old(hs))
        case Fail(e) => status == Conn.Failed(e)
        case Ok((s, sent)) => status == Conn.GoOn && hs == s && outgoing == old(outgoing) + sent
    {
      if hs.hello.ticketSupported {
        if |hs.cfg.ticketKeys| == 0 {
          return Conn.Failed(Configuration(NoTicketKeys));
        }
        WriteHandshake(NewSessionTicket(Ticket(hs.cfg.ticketKeys[0], TicketState(hs))));
      }
      var m := Finished(hs.hash.ServerSum(hs.masterSecret));
      outgoing := outgoing + [Wire(hs.outSpec, ChangeCipherSpec)];
      hs := hs.(outSpec := hs.nextOut, nextOut := Plaintext);
      WriteHandshake(m);
      return Conn.GoOn;
    }

    /** readFinished, change_cipher_spec included. */
    method ReadFinished(ghost goal: Course) returns (status: Conn.Status)
      requires hs.stage == WaitChangeCipherSpec && goal == Drive(hs, incoming, outgoing)
      modifies this`hs, this`incoming
      ensures status == Conn.GoOn ==>
        goal == Continue(Complete(hs), incoming, outgoing) && hs.resumed == old(hs.resumed) && hs.outSpec == old(hs.outSpec)
      ensures status != Conn.GoOn ==> Ended(status, goal)
    {
      status := ReadChangeCipherSpec(goal);
      if status != Conn.GoOn {
        return;
      }
      var m;
      status, m := ReadHandshake(goal);
      if status != Conn.GoOn {
        return;
      }
      if !m.Finished? {
        return Conn.Failed(Protocol(UnexpectedMessage));
      }
      if m.verifyData != hs.hash.ClientSum(hs.masterSecret) {
        return Conn.Failed(Protocol(InvalidFinished));
      }
      hs := hs.(hash := hs.hash.Write(m));
    }

    method ReadChangeCipherSpec(ghost goal: Course) returns (status: Conn.Status)
      requires hs.stage == WaitChangeCipherSpec && goal == Drive(hs, incoming, outgoing)
      modifies this`hs, this`incoming
      ensures status == Conn.GoOn ==> hs.stage == WaitFinished && goal == Drive(hs, incoming, outgoing)
      ensures status == Conn.GoOn ==> hs.resumed == old(hs.resumed) && hs.outSpec == old(hs.outSpec)
      ensures status != Conn.GoOn ==> Ended(status, goal)
    {
      if incoming == [] {
        return Conn.Waiting;
      }
      var w := incoming[0];
      incoming := incoming[1..];
      if w.spec != hs.inSpec {
        return Conn.Failed(Protocol(Garbled));
      }
      if !w.payload.ChangeCipherSpec? {
        return Conn.Failed(Protocol(UnexpectedMessage));
      }
      if hs.nextIn == Plaintext {
        return Conn.Failed(Protocol(NoPendingCipher));
      }
      hs := hs.(inSpec := hs.nextIn, nextIn := Plaintext, stage := WaitFinished);
      return Conn.GoOn;
    }

    // ---------- the full handshake ----------

    method DoFull(ghost goal: Course) returns (status: Conn.Status)
      requires !hs.resumed && hs.outSpec == Plaintext
      requires goal == Continue(Tls12Server.PickCipherSuite(hs, hs.clientHello), incoming, outgoing)
      modifies this
      ensures Ended(status, goal)
    {
      status := ChooseSuite(goal);
      if status == Conn.GoOn {
        status := DoFullHandshake(goal);
      }
    }

    /** Both flights, and the two Finished messages. */
    method DoFullHandshake(ghost goal: Course) returns (status: Conn.Status)
      requires !hs.resumed && hs.outSpec == Plaintext
      requires goal == Continue(SendFlight(BeginFull(hs, hs.clientHello)), incoming, outgoing)
      modifies this
      ensures Ended(status, goal)
    {
      status := WriteFlight(goal);
      if status != Conn.GoOn {
        return;
      }
      status := ReadClientFlight(goal);
      if status != Conn.GoOn {
        return;
      }
      hs := EstablishKeys(hs).(stage := WaitChangeCipherSpec);
      status := CloseFull(goal);
    }

    method CloseFull(ghost goal: Course) returns (status: Conn.Status)
      requires hs.stage == WaitChangeCipherSpec && !hs.resumed && hs.outSpec == Plaintext
      requires goal == Drive(hs, incoming, outgoing)
      modifies this
      ensures Ended(status, goal)
    {
      status := ReadFinished(goal);
      if status != Conn.GoOn {
        return;
      }
      status := SendTicketAndFinished();
      if status == Conn.GoOn {
        hs := hs.(stage := Completed);
      }
    }

    method ChooseSuite(ghost goal: Course) returns (status: Conn.Status)
      requires goal == Continue(Tls12Server.PickCipherSuite(hs, hs.clientHello), incoming, outgoing)
      modifies this`hs
      ensures status == Conn.GoOn ==> goal == Continue(SendFlight(BeginFull(hs, hs.clientHello)), incoming, outgoing)
      ensures status == Conn.GoOn ==> hs.resumed == old(hs.resumed) && hs.outSpec == old(hs.outSpec)
      ensures status != Conn.GoOn ==> Ended(status, goal)
    {
      var suite := SelectCipherSuite(PreferenceList(hs.cfg.preferenceOrder, hs.cfg.cipherSuites),
                                     hs.clientHello.cipherSuites, hs.abilities);
      if suite.None? {
        return Conn.Failed(Configuration(NoMutualSuite));
      }
      if C.FALLBACK_SCSV in hs.clientHello.cipherSuites && hs.clientHello.vers < MaxVersion(Versions(hs.cfg)) {
        return Conn.Failed(Protocol(InappropriateFallback));
      }
      hs := hs.(suite := suite.value);
      return Conn.GoOn;
    }

    /** The messages ms have been hashed and written since the state start. */
    ghost predicate Wrote(start: Server, before: seq<Wire>, ms: seq<Message>)
      reads this
    {
      hs == start.(hash := WriteAll(start.hash, ms), curve := hs.curve) && outgoing == before + Plain(ms)
    }

    method Emit(m: Message, ghost start: Server, ghost before: seq<Wire>, ghost ms: seq<Message>)
      requires Wrote(start, before, ms) && hs.outSpec == Plaintext
      modifies this`hs, this`outgoing
      ensures Wrote(start, before, ms + [m]) && hs.outSpec == Plaintext && hs.curve == old(hs.curve)
    {
      WriteHandshake(m);
      Conn.Unrolled(ms, m);
      assert start.hash.messages + ms + [m] == start.hash.messages + (ms + [m]);
      assert start.hash.buffer.Some? ==> start.hash.buffer.value + ms + [m] == start.hash.buffer.value + (ms + [m]);
      assert WriteAll(start.hash, ms).Write(m) == WriteAll(start.hash, ms + [m]);
    }

    /** From ServerHello to ServerHelloDone, each message hashed and written before the next is made. */
    method WriteFlight(ghost goal: Course) returns (status: Conn.Status)
      requires hs.outSpec == Plaintext && goal == Continue(SendFlight(BeginFull(hs, hs.clientHello)), incoming, outgoing)
      modifies this`hs, this`outgoing
      ensures status == Conn.GoOn ==> goal == Drive(hs, incoming, outgoing)
      ensures status == Conn.GoOn ==> hs.stage == if RequestsClientCert(hs.cfg) then WaitClientCertificate else WaitClientKeyExchange
      ensures status == Conn.GoOn ==> hs.resumed == old(hs.resumed) && hs.outSpec == Plaintext
      ensures status != Conn.GoOn ==> Ended(status, goal)
    {
      ghost var before := outgoing;
      WriteHello();
      ghost var begun, greeting := hs, outgoing;
      WriteCertificate(begun, greeting);
      var r := MakeKeyExchange(begun);
      if r.Fail? {
        return Conn.Failed(r.error);
      }
      WriteRest(r.value, begun, greeting);
      FlightAtOnce(begun, Parts(r.value), before);
      hs := hs.(stage := if RequestsClientCert(hs.cfg) then WaitClientCertificate else WaitClientKeyExchange);
      return Conn.GoOn;
    }

    method WriteHello()
      requires hs.outSpec == Plaintext
      modifies this`hs, this`outgoing
      ensures hs == BeginFull(old(hs), old(hs).clientHello)
      ensures outgoing == old(outgoing) + [Wire(Plaintext, Handshake(ServerHelloMsg(hs.hello)))]
    {
      hs := hs.(hello := hs.hello.(
        ocspStapling := hs.clientHello.ocspStapling && hs.cfg.ocspStaple.Some?,
        ticketSupported := hs.clientHello.ticketSupported && !hs.cfg.ticketsDisabled, cipherSuite := hs.suite.id));
      BeginHash(hs.cfg.clientAuth == C.NO_CLIENT_CERT);
      outgoing := outgoing + [Wire(hs.outSpec, Handshake(ServerHelloMsg(hs.hello)))];
    }

    /** The key exchange does not depend on what has been hashed. */
    method MakeKeyExchange(ghost start: Server) returns (r: Result<Option<Message>>)
      requires hs == start.(hash := hs.hash, curve := hs.curve)
      ensures r == GenerateServerKeyExchange(start)
    {
      r := GenerateServerKeyExchange(hs);
    }

    method WriteCertificate(ghost start: Server, ghost before: seq<Wire>)
      requires hs == start && hs.outSpec == Plaintext && outgoing == before
      modifies this`hs, this`outgoing
      ensures Wrote(start, before, [CertificateMsg(start.identity.chain)] + StatusPart(start))
      ensures hs.outSpec == Plaintext && hs.curve == start.curve
    {
      var certificate := CertificateMsg(hs.identity.chain);
      Emit(certificate, start, before, []);
      assert [] + [certificate] == [certificate] + [];
      if hs.hello.ocspStapling && hs.cfg.ocspStaple.Some? {
        Emit(CertificateStatus(hs.cfg.ocspStaple.value), start, before, [certificate]);
      }
    }

    method WriteRest(keyExchange: Option<Message>, ghost start: Server, ghost before: seq<Wire>)
      requires Wrote(start, before, [CertificateMsg(start.identity.chain)] + StatusPart(start))
      requires hs.outSpec == Plaintext && hs.curve == start.curve
      modifies this`hs, this`outgoing
      ensures Wrote(start, before, Flight(start, Parts(keyExchange))) && hs.outSpec == Plaintext
      ensures hs.curve == (if keyExchange.Some? && keyExchange.value.ServerKeyExchange? then keyExchange.value.curve else start.curve)
    {
      ghost var ms := [CertificateMsg(start.identity.chain)] + StatusPart(start);
      if keyExchange.Some? {
        Emit(keyExchange.value, start, before, ms);
        if keyExchange.value.ServerKeyExchange? {
          hs := hs.(curve := keyExchange.value.curve);
        }
      }
      ghost var ms1 := ms + Parts(keyExchange);
      assert ms + [] == ms;
      if RequestsClientCert(hs.cfg) {
        Emit(Request(hs), start, before, ms1);
      }
      ghost var ms2 := ms1 + RequestPart(start);
      assert ms1 + [] == ms1;
      Emit(ServerHelloDone, start, before, ms2);
      assert ms2 + [ServerHelloDone] == Flight(start, Parts(keyExchange));
    }

    /** Certificate, ClientKeyExchange and CertificateVerify, up to the master secret. */
    method ReadClientFlight(ghost goal: Course) returns (status: Conn.Status)
      requires hs.stage == if RequestsClientCert(hs.cfg) then WaitClientCertificate else WaitClientKeyExchange
      requires goal == Drive(hs, incoming, outgoing)
      modifies this`hs, this`incoming
      ensures status == Conn.GoOn ==> goal == Drive(EstablishKeys(hs).(stage := WaitChangeCipherSpec), incoming, outgoing)
      ensures status == Conn.GoOn ==> hs.resumed == old(hs.resumed) && hs.outSpec == old(hs.outSpec)
      ensures status != Conn.GoOn ==> Ended(status, goal)
    {
      var m;
      status, m := ReadHandshake(goal);
      if status != Conn.GoOn {
        return;
      }
      if RequestsClientCert(hs.cfg) {
        if !m.CertificateMsg? {
          return Conn.Failed(Protocol(UnexpectedMessage));
        }
        var r := ProcessCertsFromClient(hs.(hash := hs.hash.Write(m)), m.chain);
        if r.Fail? {
          return Conn.Failed(r.error);
        }
        hs := r.value.(stage := WaitClientKeyExchange);
        status, m := ReadHandshake(goal);
        if status != Conn.GoOn {
          return;
        }
      }
      status := ReadKeyExchange(m, goal);
    }

    method ReadKeyExchange(m: Message, ghost goal: Course) returns (status: Conn.Status)
      requires goal == Continue(OnClientKeyExchange(hs, m), incoming, outgoing)
      modifies this`hs, this`incoming
      ensures status == Conn.GoOn ==> goal == Drive(EstablishKeys(hs).(stage := WaitChangeCipherSpec), incoming, outgoing)
      ensures status == Conn.GoOn ==> hs.resumed == old(hs.resumed) && hs.outSpec == old(hs.outSpec)
      ensures status != Conn.GoOn ==> Ended(status, goal)
    {
      status := TakeKeyExchange(m, goal);
      if status == Conn.GoOn {
        status := ReadVerify(goal);
      }
    }

    /** The ClientKeyExchange and the master secret it leads to. */
    method TakeKeyExchange(m: Message, ghost goal: Course) returns (status: Conn.Status)
      requires goal == Continue(OnClientKeyExchange(hs, m), incoming, outgoing)
      modifies this`hs
      ensures status == Conn.GoOn ==> goal == Continue(AwaitVerify(hs), incoming, outgoing)
      ensures status == Conn.GoOn ==> hs.resumed == old(hs.resumed) && hs.outSpec == old(hs.outSpec)
      ensures status != Conn.GoOn ==> Ended(status, goal)
    {
      if !hs.cfg.connectionOk {
        return Conn.Failed(Configuration(ConnectionRefused));
      }
      if !m.ClientKeyExchange? {
        return Conn.Failed(Protocol(UnexpectedMessage));
      }
      var premaster := PremasterOf(hs, m.ciphertext);
      if premaster.None? {
        return Conn.Failed(Protocol(InvalidClientKeyExchange));
      }
      hs := hs.(hash := hs.hash.Write(m),
                masterSecret := MasterFrom(hs.vers, hs.suite, premaster.value, hs.clientHello.random, hs.hello.random));
      return Conn.GoOn;
    }

    method ReadVerify(ghost goal: Course) returns (status: Conn.Status)
      requires goal == Continue(AwaitVerify(hs), incoming, outgoing)
      modifies this`hs, this`incoming
      ensures status == Conn.GoOn ==> goal == Drive(EstablishKeys(hs).(stage := WaitChangeCipherSpec), incoming, outgoing)
      ensures status == Conn.GoOn ==> hs.resumed == old(hs.resumed) && hs.outSpec == old(hs.outSpec)
      ensures status != Conn.GoOn ==> Ended(status, goal)
    {
      if |hs.peerChain| > 0 {
        hs := hs.(stage := WaitClientVerify);
        var m;
        status, m := ReadHandshake(goal);
        if status != Conn.GoOn {
          return;
        }
        status := CheckVerify(m);
        if status != Conn.GoOn {
          return;
        }
        hs := hs.(hash := hs.hash.Write(m));
      }
      hs := hs.(hash := hs.hash.Discard());
      return Conn.GoOn;
    }

    /** The client's proof that it holds the key of its certificate. */
    method CheckVerify(m: Message) returns (status: Conn.Status)
      requires hs.peerChain != []
      ensures status == Conn.GoOn ==> OnClientVerify(hs, m) == Ok((AwaitFinished(hs.(hash := hs.hash.Write(m))), []))
      ensures status != Conn.GoOn ==> status.Failed? && OnClientVerify(hs, m) == Fail(status.error)
    {
      if !m.CertificateVerify? {
        return Conn.Failed(Protocol(UnexpectedMessage));
      }
      if hs.vers >= TLS12 && (m.scheme.None? || m.scheme.value !in C.SUPPORTED_SIGNATURE_ALGORITHMS) {
        return Conn.Failed(Protocol(InvalidSignatureAlgorithm));
      }
      var key := hs.peerChain[0].key;
      var how := CheckSigning(hs.vers, key, m.scheme);
      if how.None? {
        return Conn.Failed(Protocol(InvalidSignatureAlgorithm));
      }
      var signed := hs.hash.ForClientCertificate(how.value.sigType, how.value.hash);
      if signed.None? {
        return Conn.Failed(Panic);
      }
      if !Verifies(key, how.value, signed.value, m.signature) {
        return Conn.Failed(Protocol(InvalidSignature));
      }
      return Conn.GoOn;
    }
  }

  lemma HelloSettles(s: Server, ch: ClientHello)
    requires s.clientHello == ch
    ensures match ProcessClientHello(s, ch)
      case Fail(e) => Welcome(s, ch) == Fail(e)
      case Ok(s1) =>
        && Welcome(s, ch) == Answer(s1, s1.clientHello) && s1.resumed == s.resumed && s1.outSpec == s.outSpec
  {
  }

  lemma Associates(before: seq<Wire>, greeting: seq<Wire>, all: seq<Wire>, first: seq<Wire>)
    requires greeting == before + first && |greeting| <= |all| && all[..|greeting|] == greeting
    ensures all == before + (first + all[|greeting|..])
  {
  }

  /** The flight as the step functions send it. */
  lemma FlightAtOnce(s: Server, keyExchange: seq<Message>, before: seq<Wire>)
    ensures var (s1, sent) := SendParts(s, keyExchange).value;
      before + sent == before + [Wire(Plaintext, Handshake(ServerHelloMsg(s.hello)))] + Plain(Flight(s, keyExchange))
  {
    PlainConcat([ServerHelloMsg(s.hello)], Flight(s, keyExchange));
  }
}
