/**
  The client of a TLS 1.0-1.2 handshake in the shape of the source: methods that read and write
  as they go. Their outcome on any input is that of the step functions of Tls12Client.
 */
module Tls12ClientConn {
  import opened Outcomes
  import opened Tls12Terms
  import opened Tls12Client

  /** How a handshake ends on the records that arrive: it waits for more, gives up, or completes. */
  datatype Course =
    | Blocked(sent: seq<Wire>)
    | Stopped(error: Failure)
    | Completed(client: Client, sent: seq<Wire>, rest: seq<Wire>)

  /** The step functions, fed one record after the other. */
  function Drive(c: Client, rest: seq<Wire>, sent: seq<Wire>): Course
    decreases |rest|, 1
  {
    if c.stage == Established then Completed(c, sent, rest)
    else if rest == [] then Blocked(sent)
    else Continue(Receive(c, rest[0]), rest[1..], sent)
  }

  function Continue(r: Step, rest: seq<Wire>, sent: seq<Wire>): Course
    decreases |rest|, 2
  {
    match r
    case Fail(e) => Stopped(e)
    case Ok((c, out)) => Drive(c, rest, if out == [] then sent else sent + out)
  }

  /** What a method that reads says: go on, or how the handshake ended. */
  datatype Status = GoOn | Waiting | Failed(error: Failure)

  class ClientHandshake {
    var hs: Client
    var incoming: seq<Wire>
    var outgoing: seq<Wire>

    constructor (hs: Client, outgoing: seq<Wire>, incoming: seq<Wire>)
      ensures this.hs == hs && this.outgoing == outgoing && this.incoming == incoming
    {
      this.hs, this.outgoing, this.incoming := hs, outgoing, incoming;
    }

    /** The handshake ended the way the step functions say. */
    ghost predicate Ended(status: Status, goal: Course)
      reads this
    {
      match goal
      case Blocked(sent) => status == Waiting && outgoing == sent
      case Stopped(e) => status == Failed(e)
      case Completed(c, sent, rest) => status == GoOn && hs == c && outgoing == sent && incoming == rest
    }

    /** readHandshake */
    method ReadHandshake(ghost goal: Course) returns (status: Status, m: Message)
      requires hs.stage !in {WaitChangeCipherSpec, Established}
      requires goal == Drive(hs, incoming, outgoing)
      modifies this`incoming
      ensures status == GoOn ==> goal == Continue(OnMessage(hs, m), incoming, outgoing)
      ensures status != GoOn ==> Ended(status, goal)
    {
      m := ServerHelloDone;
      if incoming == [] {
        return Waiting, m;
      }
      var w := incoming[0];
      incoming := incoming[1..];
      if w.spec != hs.inSpec {
        return Failed(Protocol(Garbled)), m;
      }
      if w.payload.ChangeCipherSpec? {
        return Failed(Protocol(UnexpectedMessage)), m;
      }
      return GoOn, w.payload.message;
    }

    method WriteHandshake(m: Message)
      modifies this`hs, this`outgoing
      ensures hs == old(hs).(hash := old(hs).hash.Write(m))
      ensures outgoing == old(outgoing) + [Wire(hs.outSpec, Handshake(m))]
    {
      hs := hs.(hash := hs.hash.Write(m));
      outgoing := outgoing + [Wire(hs.outSpec, Handshake(m))];
    }

    // ---------- clientHandshake and handshake ----------

    /** Reads the ServerHello and runs the handshake, full or resumed. */
    method ClientHandshake(ghost goal: Course) returns (status: Status)
      requires hs.stage == WaitServerHello && hs.outSpec == Plaintext && !hs.resumed
      requires goal == Drive(hs, incoming, outgoing)
      modifies this
      ensures Ended(status, goal)
    {
      var m;
      status, m := ReadHandshake(goal);
      if status != GoOn {
        return;
      }
      if !m.ServerHelloMsg? {
        return Failed(Protocol(UnexpectedMessage));
      }
      var peerVersion := PeerVersion(m.serverHello);
      if peerVersion !in Versions(hs.cfg) {
        return Failed(Protocol(UnsupportedVersion));
      }
      if DowngradeSignalled(MaxVersion(Versions(hs.cfg)), peerVersion, m.serverHello.random) {
        return Failed(Protocol(DowngradeDetected));
      }
      if peerVersion == TLS13 {
        return Failed(Configuration(Tls13Negotiated));
      }
      hs := hs.(vers := peerVersion, serverHello := m.serverHello);
      status := RunHandshake(goal);
    }

    method RunHandshake(ghost goal: Course) returns (status: Status)
      requires hs.outSpec == Plaintext && !hs.resumed
      requires goal == Continue(Begin(ProcessServerHello(hs, hs.serverHello)), incoming, outgoing)
      modifies this
      ensures Ended(status, goal)
    {
      var r := ProcessServerHello(hs, hs.serverHello);
      if r.Fail? {
        return Failed(r.error);
      }
      hs := r.value.0;
      if r.value.1 {
        BeginHash(true);
        hs := hs.(resumed := true);
        status := Resume(goal);
      } else {
        BeginHash(|hs.cfg.certificates| == 0 && hs.cfg.getClientCertificate.None?);
        hs := hs.(stage := WaitCertificate);
        status := DoFull(goal);
      }
    }

    /** The handshake hash after both hellos; without a buffer when no signature of it can be needed. */
    method BeginHash(discard: bool)
      modifies this`hs
      ensures hs == old(hs).(hash := Tls12Client.BeginHash(old(hs), discard))
    {
      hs := hs.(hash := NewHandshakeHash(hs.vers, hs.suite));
      if discard {
        hs := hs.(hash := hs.hash.Discard());
      }
      hs := hs.(hash := hs.hash.Write(ClientHelloMsg(hs.hello)));
      hs := hs.(hash := hs.hash.Write(ServerHelloMsg(hs.serverHello)));
    }

    method Resume(ghost goal: Course) returns (status: Status)
      requires goal == Drive(AwaitFinal(EstablishKeys(hs)), incoming, outgoing) && hs.resumed
      modifies this
      ensures Ended(status, goal)
    {
      hs := EstablishKeys(hs);
      status := ReadFinal(goal);
      if status == GoOn {
        if !hs.cfg.connectionOk {
          return Failed(Configuration(ConnectionRefused));
        }
        SendFinished();
        hs := Establish(hs);
      }
    }

    method DoFull(ghost goal: Course) returns (status: Status)
      requires hs.stage == WaitCertificate && !hs.resumed && hs.outSpec == Plaintext
      requires goal == Drive(hs, incoming, outgoing)
      modifies this
      ensures Ended(status, goal)
    {
      status := DoFullHandshake(goal);
      if status == GoOn {
        ghost var finished := Tls12Client.SendFinished(EstablishKeys(hs)).1;
        assert Plain([]) + finished == finished;
        hs := EstablishKeys(hs);
        SendFinished();
        status := ReadFinal(goal);
        if status == GoOn {
          hs := Establish(hs);
        }
      }
    }

    // ---------- readSessionTicket, readFinished and sendFinished ----------

    /** readSessionTicket and readFinished, up to the point where the Finished has been accepted. */
    method ReadFinal(ghost goal: Course) returns (status: Status)
      requires goal == Drive(AwaitFinal(hs), incoming, outgoing)
      modifies this
      ensures status == GoOn ==> goal == Continue(AfterFinished(hs), incoming, outgoing)
      ensures status == GoOn ==> hs.resumed == old(hs.resumed)
      ensures status != GoOn ==> Ended(status, goal)
    {
      var m;
      if hs.serverHello.ticketSupported {
        hs := hs.(stage := WaitTicket);
        status, m := ReadHandshake(goal);
        if status != GoOn {
          return;
        }
        if !m.NewSessionTicket? {
          return Failed(Protocol(UnexpectedMessage));
        }
        hs := hs.(hash := hs.hash.Write(m),
                  issued := Some(Session(m.ticket, hs.vers, hs.suite.id, hs.masterSecret, hs.peerChain)));
      }
      hs := hs.(stage := WaitChangeCipherSpec);
      status := ReadChangeCipherSpec(goal);
      if status != GoOn {
        return;
      }
      status, m := ReadHandshake(goal);
      if status != GoOn {
        return;
      }
      if !m.Finished? {
        return Failed(Protocol(UnexpectedMessage));
      }
      if m.verifyData != hs.hash.ServerSum(hs.masterSecret) {
        return Failed(Protocol(InvalidFinished));
      }
      hs := hs.(hash := hs.hash.Write(m));
    }

    method ReadChangeCipherSpec(ghost goal: Course) returns (status: Status)
      requires hs.stage == WaitChangeCipherSpec && goal == Drive(hs, incoming, outgoing)
      modifies this`hs, this`incoming
      ensures status == GoOn ==> hs.stage == WaitFinished && goal == Drive(hs, incoming, outgoing)
      ensures status == GoOn ==> hs.resumed == old(hs.resumed)
      ensures status != GoOn ==> Ended(status, goal)
    {
      if incoming == [] {
        return Waiting;
      }
      var w := incoming[0];
      incoming := incoming[1..];
      if w.spec != hs.inSpec {
        return Failed(Protocol(Garbled));
      }
      if !w.payload.ChangeCipherSpec? {
        return Failed(Protocol(UnexpectedMessage));
      }
      if hs.nextIn == Plaintext {
        return Failed(Protocol(NoPendingCipher));
      }
      hs := hs.(inSpec := hs.nextIn, nextIn := Plaintext, stage := WaitFinished);
      return GoOn;
    }

    method SendFinished()
      modifies this`hs, this`outgoing
      ensures (hs, outgoing) == (Tls12Client.SendFinished(old(hs)).0, old(outgoing) + Tls12Client.SendFinished(old(hs)).1)
    {
      var m := Finished(hs.hash.ClientSum(hs.masterSecret));
      ghost var before := outgoing;
      outgoing := outgoing + [Wire(hs.outSpec, ChangeCipherSpec)];
      hs := hs.(outSpec := hs.nextOut, nextOut := Plaintext);
      WriteHandshake(m);
      assert outgoing == before + Tls12Client.SendFinished(old(hs)).1;
    }

    // ---------- doFullHandshake ----------

    method DoFullHandshake(ghost goal: Course) returns (status: Status)
      requires hs.stage == WaitCertificate && !hs.resumed && hs.outSpec == Plaintext
      requires goal == Drive(hs, incoming, outgoing)
      modifies this
      ensures status == GoOn ==> goal == Continue(CloseFlight(hs, []), incoming, outgoing) && !hs.resumed
      ensures status != GoOn ==> Ended(status, goal)
    {
      var m;
      status, m := ReadHandshake(goal);
      if status != GoOn {
        return;
      }
      if !m.CertificateMsg? {
        return Failed(Protocol(UnexpectedMessage));
      }
      if |m.chain| == 0 {
        return Failed(Configuration(EmptyCertificate));
      }
      hs := hs.(hash := hs.hash.Write(m), peerChain := m.chain, stage := WaitStatus);
      status, m := ReadHandshake(goal);
      if status != GoOn {
        return;
      }
      if m.CertificateStatus? {
        if !hs.serverHello.ocspStapling {
          return Failed(Protocol(UnexpectedStatus));
        }
        hs := hs.(hash := hs.hash.Write(m), stage := WaitKeyExchange);
        status, m := ReadHandshake(goal);
        if status != GoOn {
          return;
        }
      }
      status := ReadParameters(m, goal);
      if status == GoOn {
        status := SendFlight(goal);
      }
    }

    /** From the check of the server's certificate to the end of its flight. */
    method ReadParameters(m0: Message, ghost goal: Course) returns (status: Status)
      requires goal == Continue(OnKeyExchange(hs, m0), incoming, outgoing)
      modifies this`hs, this`incoming
      ensures status == GoOn ==> goal == Continue(SendCertificate(hs), incoming, outgoing)
      ensures status == GoOn ==> hs.outSpec == old(hs.outSpec) && hs.resumed == old(hs.resumed)
      ensures status != GoOn ==> Ended(status, goal)
    {
      var m := m0;
      if !hs.cfg.serverChainOk || |hs.peerChain| == 0 || hs.peerChain[0].key.kind.OtherKind? {
        return Failed(Configuration(BadCertificate));
      }
      if !hs.cfg.connectionOk {
        return Failed(Configuration(ConnectionRefused));
      }
      if m.ServerKeyExchange? {
        var r := ProcessServerKeyExchange(hs, hs.peerChain[0].key, m);
        if r.Fail? {
          return Failed(r.error);
        }
        hs := hs.(hash := hs.hash.Write(m), agreed := Some(r.value), stage := WaitRequest);
        status, m := ReadHandshake(goal);
        if status != GoOn {
          return;
        }
      }
      status := ReadRequest(m, goal);
    }

    method ReadRequest(m0: Message, ghost goal: Course) returns (status: Status)
      requires goal == Continue(OnRequest(hs, m0), incoming, outgoing)
      modifies this`hs, this`incoming
      ensures status == GoOn ==> goal == Continue(SendCertificate(hs), incoming, outgoing)
      ensures status == GoOn ==> hs.outSpec == old(hs.outSpec) && hs.resumed == old(hs.resumed)
      ensures status != GoOn ==> Ended(status, goal)
    {
      var m := m0;
      if m.CertificateRequest? {
        var reply := GetClientCertificate(hs.cfg);
        if reply.Fail? {
          return Failed(reply.error);
        }
        hs := hs.(hash := hs.hash.Write(m), requested := Some(if m.schemes.Some? then m.schemes.value else []),
                  reply := reply.value, stage := WaitDone);
        status, m := ReadHandshake(goal);
        if status != GoOn {
          return;
        }
      }
      if !m.ServerHelloDone? {
        return Failed(Protocol(UnexpectedMessage));
      }
      hs := hs.(hash := hs.hash.Write(m));
      return GoOn;
    }

    /** The client's flight, written message by message, up to the master secret. */
    method SendFlight(ghost goal: Course) returns (status: Status)
      requires hs.outSpec == Plaintext && goal == Continue(SendCertificate(hs), incoming, outgoing)
      modifies this`hs, this`outgoing
      ensures status == GoOn ==> goal == Continue(CloseFlight(hs, []), incoming, outgoing) && hs.resumed == old(hs.resumed)
      ensures status != GoOn ==> Ended(status, goal)
    {
      ghost var before := outgoing;
      ghost var sent: seq<Message> := [];
      if hs.requested.Some? {
        var m := CertificateMsg(hs.reply.chain);
        WriteHandshake(m);
        sent := [m];
      }
      var r := GenerateClientKeyExchange(hs);
      if r.Fail? {
        return Failed(r.error);
      }
      WriteHandshake(r.value.message);
      Unrolled(sent, r.value.message);
      status := SendCertificateVerify(r.value.premaster, before, sent + [r.value.message], goal);
    }

    method SignHandshake(peerAlgorithms: seq<nat>) returns (r: Result<Message>)
      ensures r == MakeCertificateVerify(hs, peerAlgorithms)
    {
      var how := ChooseSigning(hs.vers, hs.reply, peerAlgorithms);
      if how.None? {
        return Fail(Configuration(NoSignatureScheme));
      }
      var signed := hs.hash.ForClientCertificate(how.value.sigType, how.value.hash);
      if signed.None? {
        return Fail(Panic);
      }
      return Ok(CertificateVerify(how.value.scheme, Sign(hs.reply.key, how.value, signed.value)));
    }

    method SendCertificateVerify(premaster: Term, ghost before: seq<Wire>, ghost sent: seq<Message>, ghost goal: Course)
        returns (status: Status)
      requires hs.outSpec == Plaintext && outgoing == before + Plain(sent)
      requires goal == Continue(SendVerify(hs, premaster, sent), incoming, before)
      modifies this`hs, this`outgoing
      ensures status == GoOn ==> goal == Continue(CloseFlight(hs, []), incoming, outgoing) && hs.resumed == old(hs.resumed)
      ensures status != GoOn ==> Ended(status, goal)
    {
      if hs.requested.None? || |hs.reply.chain| == 0 {
        MakeMasterSecret(premaster, before, sent, goal);
        return GoOn;
      }
      var made := SignHandshake(hs.requested.value);
      if made.Fail? {
        return Failed(made.error);
      }
      WriteHandshake(made.value);
      Unrolled(sent, made.value);
      assert outgoing == before + Plain(sent + [made.value]);
      MakeMasterSecret(premaster, before, sent + [made.value], goal);
      return GoOn;
    }

    method MakeMasterSecret(premaster: Term, ghost before: seq<Wire>, ghost sent: seq<Message>, ghost goal: Course)
      requires outgoing == before + Plain(sent) && goal == Continue(SendFinal(hs, premaster, sent), incoming, before)
      modifies this`hs
      ensures goal == Continue(CloseFlight(hs, []), incoming, outgoing) && hs.resumed == old(hs.resumed)
    {
      hs := hs.(masterSecret := MasterFrom(hs.vers, hs.suite, premaster, hs.hello.random, hs.serverHello.random),
                hash := hs.hash.Discard());
      Flushed(hs, sent, incoming, before);
    }
  }

  /** What follows processServerHello in the step functions. */
  function Begin(r: Result<(Client, bool)>): Step {
    match r
    case Fail(e) => Fail(e)
    case Ok((c, isResume)) => Ok((if isResume then BeginResumed(c) else BeginFull(c), []))
  }

  /** What follows an accepted Finished in the step functions. */
  function AfterFinished(c: Client): Step {
    if !c.resumed then Ok((Establish(c), []))
    else if !c.cfg.connectionOk then Fail(Configuration(ConnectionRefused))
    else
      var (c1, finished) := SendFinished(c);
      Ok((Establish(c1), finished))
  }

  lemma Unrolled(sent: seq<Message>, m: Message)
    ensures Plain(sent + [m]) == Plain(sent) + [Wire(Plaintext, Handshake(m))]
  {
    PlainConcat(sent, [m]);
  }

  /** Writing a flight at once or message by message makes no difference. */
  lemma Flushed(c: Client, sent: seq<Message>, rest: seq<Wire>, before: seq<Wire>)
    ensures Continue(CloseFlight(c, sent), rest, before) == Continue(CloseFlight(c, []), rest, before + Plain(sent))
  {
    var (c1, finished) := SendFinished(EstablishKeys(c));
    assert before + (Plain(sent) + finished) == before + Plain(sent) + (Plain([]) + finished);
  }
}
