/**
  The client of a TLS 1.3 handshake in the shape of the source: methods that read and write as
  they go. Their outcome on any input is that of the step functions of Tls13Client.
 */
module Tls13ClientConn {
  import opened Outcomes
  import opened Symbolic
  import opened Tls13Config
  import opened Tls13Client

  type Step = Result<(Client, seq<Wire>)>

  /** How a handshake ends on the records that arrive: it waits for more, gives up, or completes. */
  datatype Course =
    | Blocked(sent: seq<Wire>)
    | Stopped(error: Failure)
    | Completed(client: Client, sent: seq<Wire>, rest: seq<Wire>)

  /** The step functions, fed one record after the other. */
  function Drive(c: Client, rest: seq<Wire>, sent: seq<Wire>): Course
    decreases |rest|, 1
  {
    if c.stage == Established then Completed(c, sent, rest)
    else if rest == [] then Blocked(sent)
    else Continue(Receive(c, rest[0]), rest[1..], sent)
  }

  function Continue(r: Step, rest: seq<Wire>, sent: seq<Wire>): Course
    decreases |rest|, 2
  {
    match r
    case Fail(e) => Stopped(e)
    case Ok((c, out)) => Drive(c, rest, if out == [] then sent else sent + out)
  }

  /** What a method that reads says: go on, or how the handshake ended. */
  datatype Status = GoOn | Waiting | Failed(error: Failure)

  class ClientHandshake {
    var hs: Client
    var incoming: seq<Wire>
    var outgoing: seq<Wire>

    constructor (hs: Client, outgoing: seq<Wire>, incoming: seq<Wire>)
      ensures this.hs == hs && this.outgoing == outgoing && this.incoming == incoming
    {
      this.hs, this.outgoing, this.incoming := hs, outgoing, incoming;
    }

    /** The handshake ended the way the step functions say. */
    ghost predicate Ended(status: Status, goal: Course)
      reads this
    {
      match goal
      case Blocked(sent) => status == Waiting && outgoing == sent
      case Stopped(e) => status == Failed(e)
      case Completed(c, sent, rest) => status == GoOn && hs == c && outgoing == sent && incoming == rest
    }

    /** readHandshake */
    method ReadHandshake(ghost goal: Course) returns (status: Status, m: Message)
      requires hs.stage != Established && goal == Drive(hs, incoming, outgoing)
      modifies this`incoming
      ensures status == GoOn ==> goal == Continue(Receive(hs, Wire(hs.inSecret, m)), incoming, outgoing)
      ensures status != GoOn ==> Ended(status, goal)
    {
      m := EncryptedExtensions("");
      if incoming == [] {
        return Waiting, m;
      }
      var w := incoming[0];
      incoming := incoming[1..];
      if w.secret != hs.inSecret {
        return Failed(Protocol(BadRecordMac)), m;
      }
      return GoOn, w.message;
    }

    /** Hashes a message and writes it under the current secret. */
    method WriteHandshake(m: Message)
      modifies this`hs, this`outgoing
      ensures hs == old(hs).(transcript := old(hs).transcript + [Whole(m)])
      ensures outgoing == old(outgoing) + [Wire(hs.outSecret, m)]
    {
      hs := hs.(transcript := hs.transcript + [Whole(m)]);
      outgoing := outgoing + [Wire(hs.outSecret, m)];
    }

    // ---------- to the handshake keys ----------

    /** Reads the first ServerHello and runs the handshake. */
    method Handshake(ghost goal: Course) returns (status: Status)
      requires hs.stage == WaitServerHello && goal == Drive(hs, incoming, outgoing)
      modifies this
      ensures Ended(status, goal)
    {
      var m;
      status, m := ReadHandshake(goal);
      if status != GoOn {
        return;
      }
      if !m.ServerHelloMsg? {
        return Failed(Protocol(UnexpectedMessage));
      }
      var sh := m.serverHello;
      if (if sh.supportedVersion != 0 then sh.supportedVersion else sh.vers) != VERSION_TLS13 {
        return Failed(Configuration(NotTls13));
      }
      var r := CheckServerHelloOrHrr(hs, sh);
      if r.Fail? {
        return Failed(r.error);
      }
      hs := r.value;
      status := RunHandshake(sh, goal);
    }

    method RunHandshake(sh0: ServerHello, ghost goal: Course) returns (status: Status)
      requires hs.suite.Some? && hs.serverHello == Some(sh0)
      requires goal == Continue(OnCheckedServerHello(hs, hs.suite.value, sh0), incoming, outgoing)
      modifies this
      ensures Ended(status, goal)
    {
      var sh := sh0;
      if sh.random == RetryRandom {
        status, sh := ProcessHelloRetry(sh, goal);
        if status != GoOn {
          return;
        }
      } else {
        hs := hs.(transcript := [Whole(ClientHelloMsg(hs.hello))]);
      }
      status := TakeServerHello(sh, goal);
      if status == GoOn {
        status := ReadServerFlight(goal);
      }
    }

    /** From the checked ServerHello to the handshake keys. */
    method TakeServerHello(sh: ServerHello, ghost goal: Course) returns (status: Status)
      requires hs.suite.Some? && goal == Continue(AcceptServerHello(hs, hs.suite.value, sh), incoming, outgoing)
      modifies this`hs
      ensures status == GoOn ==> hs.suite.Some? && hs.stage == WaitEncryptedExtensions && goal == Drive(hs, incoming, outgoing)
      ensures status != GoOn ==> Ended(status, goal)
    {
      hs := hs.(transcript := hs.transcript + [Whole(ServerHelloMsg(sh))]);
      var r := ProcessServerHello(hs, hs.suite.value, sh);
      if r.Fail? {
        return Failed(r.error);
      }
      hs := r.value;
      status := EstablishKeys(sh, goal);
    }

    /** processHelloRetryRequest: the second hello goes out and the ServerHello that answers it comes in. */
    method ProcessHelloRetry(retry: ServerHello, ghost goal: Course) returns (status: Status, sh: ServerHello)
      requires hs.suite.Some? && goal == Continue(ProcessHelloRetryRequest(hs, hs.suite.value, retry), incoming, outgoing)
      modifies this
      ensures status == GoOn ==>
        hs.suite.Some? && goal == Continue(AcceptServerHello(hs, hs.suite.value, sh), incoming, outgoing)
      ensures status != GoOn ==> Ended(status, goal)
    {
      sh := retry;
      if retry.selectedGroup == 0 && |retry.cookie| == 0 {
        return Failed(Protocol(UnnecessaryRetry)), sh;
      }
      if retry.serverShare.group != 0 {
        return Failed(Protocol(MalformedKeyShare)), sh;
      }
      status := SendRetried(retry, goal);
      if status == GoOn {
        status, sh := ReadSecondServerHello(retry, goal);
      }
    }

    method ReadSecondServerHello(retry: ServerHello, ghost goal: Course) returns (status: Status, sh: ServerHello)
      requires hs.stage == WaitSecondServerHello && goal == Drive(hs, incoming, outgoing)
      modifies this`hs, this`incoming
      ensures status == GoOn ==>
        hs.suite.Some? && goal == Continue(AcceptServerHello(hs, hs.suite.value, sh), incoming, outgoing)
      ensures status != GoOn ==> Ended(status, goal)
    {
      sh := retry;
      var m;
      status, m := ReadHandshake(goal);
      if status != GoOn {
        return;
      }
      if !m.ServerHelloMsg? {
        return Failed(Protocol(UnexpectedMessage)), sh;
      }
      sh := m.serverHello;
      status := CheckSecond(sh, goal);
    }

    method CheckSecond(sh: ServerHello, ghost goal: Course) returns (status: Status)
      requires goal == Continue(OnSecondServerHello(hs, sh), incoming, outgoing)
      modifies this`hs
      ensures status == GoOn ==>
        hs.suite.Some? && goal == Continue(AcceptServerHello(hs, hs.suite.value, sh), incoming, outgoing)
      ensures status != GoOn ==> Ended(status, goal)
    {
      var r := CheckServerHelloOrHrr(hs, sh);
      if r.Fail? {
        return Failed(r.error);
      }
      hs := r.value;
      return GoOn;
    }

    /** The hello with the cookie, the key share and the binders the retry asks for. */
    method SendRetried(retry: ServerHello, ghost goal: Course) returns (status: Status)
      requires hs.suite.Some? && goal == Continue(ProcessHelloRetryRequest(hs, hs.suite.value, retry), incoming, outgoing)
      requires (retry.selectedGroup != 0 || retry.cookie != []) && retry.serverShare.group == 0
      modifies this`hs, this`outgoing
      ensures status == GoOn ==> hs.stage == WaitSecondServerHello && goal == Drive(hs, incoming, outgoing)
      ensures status != GoOn ==> Ended(status, goal)
    {
      var suite := hs.suite.value;
      var retried := RetryTranscript(suite.hash, hs.hello, retry);
      if |retry.cookie| != 0 {
        hs := hs.(hello := hs.hello.(cookie := retry.cookie));
      }
      var r := RetryKeyShare(hs, retry);
      if r.Fail? {
        return Failed(r.error);
      }
      status := SendSecond(r.value, suite, retried, goal);
    }

    method SendSecond(c: Client, suite: Suite, retried: Transcript, ghost goal: Course) returns (status: Status)
      requires goal == Continue(SendSecondHello(c, suite, retried), incoming, outgoing)
      modifies this`hs, this`outgoing
      ensures status == GoOn ==> hs.stage == WaitSecondServerHello && goal == Drive(hs, incoming, outgoing)
      ensures status != GoOn ==> Ended(status, goal)
    {
      var b := RetryBinders(c, suite, retried);
      if b.Fail? {
        return Failed(b.error);
      }
      hs := b.value.(transcript := retried);
      WriteHandshake(ClientHelloMsg(hs.hello));
      hs := hs.(stage := WaitSecondServerHello);
      return GoOn;
    }

    method EstablishKeys(sh: ServerHello, ghost goal: Course) returns (status: Status)
      requires hs.suite.Some? && goal == Continue(EstablishHandshakeKeys(hs, hs.suite.value, sh), incoming, outgoing)
      modifies this`hs
      ensures status == GoOn ==> hs.suite.Some? && hs.stage == WaitEncryptedExtensions && goal == Drive(hs, incoming, outgoing)
      ensures status != GoOn ==> Ended(status, goal)
    {
      var h := hs.suite.value.hash;
      var sharedKey := hs.ecdhe.Shared(sh.serverShare.data);
      if sharedKey == Nil {
        return Failed(Protocol(InvalidPeerShare));
      }
      var earlySecret := hs.earlySecret;
      if !hs.usingPsk {
        earlySecret := Extract(h, Nil, Nil);
      }
      var handshakeSecret := HandshakeSecret(h, sharedKey, earlySecret);
      hs := hs.(outSecret := DeriveSecret(h, handshakeSecret, CLIENT_HANDSHAKE_LABEL, hs.transcript));
      hs := hs.(inSecret := DeriveSecret(h, handshakeSecret, SERVER_HANDSHAKE_LABEL, hs.transcript));
      hs := hs.(masterSecret := MasterSecret(h, handshakeSecret), stage := WaitEncryptedExtensions);
      return GoOn;
    }

    // ---------- the server's flight ----------

    method ReadServerFlight(ghost goal: Course) returns (status: Status)
      requires hs.suite.Some? && hs.stage == WaitEncryptedExtensions && goal == Drive(hs, incoming, outgoing)
      modifies this
      ensures Ended(status, goal)
    {
      status := ReadServerParameters(goal);
      if status != GoOn {
        return;
      }
      status := ReadServerCertificate(goal);
      if status != GoOn {
        return;
      }
      status := ReadServerFinished(goal);
      if status != GoOn {
        return;
      }
      status := SendSecondFlight(goal);
    }

    method ReadServerParameters(ghost goal: Course) returns (status: Status)
      requires hs.suite.Some? && hs.stage == WaitEncryptedExtensions && goal == Drive(hs, incoming, outgoing)
      modifies this`hs, this`incoming
      ensures status == GoOn ==>
        && hs.suite.Some? && goal == Drive(hs, incoming, outgoing)
        && hs.stage == if hs.usingPsk then WaitServerFinished else WaitCertificateOrRequest
      ensures status != GoOn ==> Ended(status, goal)
    {
      var m;
      status, m := ReadHandshake(goal);
      if status != GoOn {
        return;
      }
      if !m.EncryptedExtensions? {
        return Failed(Protocol(UnexpectedMessage));
      }
      hs := hs.(transcript := hs.transcript + [Whole(m)]);
      if !AlpnAcceptable(hs.hello.alpnProtocols, m.alpn) {
        return Failed(Protocol(InvalidAlpn));
      }
      hs := hs.(alpn := m.alpn, stage := if hs.usingPsk then WaitServerFinished else WaitCertificateOrRequest);
      return GoOn;
    }

    method ReadServerCertificate(ghost goal: Course) returns (status: Status)
      requires hs.suite.Some? && goal == Drive(hs, incoming, outgoing)
      requires hs.stage == if hs.usingPsk then WaitServerFinished else WaitCertificateOrRequest
      modifies this`hs, this`incoming
      ensures status == GoOn ==> hs.suite.Some? && hs.stage == WaitServerFinished && goal == Drive(hs, incoming, outgoing)
      ensures status != GoOn ==> Ended(status, goal)
    {
      if hs.usingPsk {
        return GoOn;
      }
      var m;
      status, m := ReadHandshake(goal);
      if status != GoOn {
        return;
      }
      if m.CertificateRequest? {
        hs := hs.(transcript := hs.transcript + [Whole(m)], certReq := Some(m), stage := WaitCertificate);
        status, m := ReadHandshake(goal);
        if status != GoOn {
          return;
        }
      }
      if !m.CertificateMsg? {
        return Failed(Protocol(UnexpectedMessage));
      }
      status := TakeCertificate(m, goal);
      if status == GoOn {
        status := ReadCertificateVerify(goal);
      }
    }

    method TakeCertificate(m: Message, ghost goal: Course) returns (status: Status)
      requires m.CertificateMsg? && hs.suite.Some? && goal == Continue(OnCertificate(hs, m), incoming, outgoing)
      modifies this`hs
      ensures status == GoOn ==> hs.suite.Some? && hs.stage == WaitCertificateVerify && goal == Drive(hs, incoming, outgoing)
      ensures status != GoOn ==> Ended(status, goal)
    {
      if |m.chain| == 0 {
        return Failed(Configuration(EmptyCertificate));
      }
      hs := hs.(transcript := hs.transcript + [Whole(m)]);
      if !hs.cfg.serverChainOk {
        return Failed(Configuration(BadCertificate));
      }
      hs := hs.(peerChain := m.chain, stage := WaitCertificateVerify);
      return GoOn;
    }

    method ReadCertificateVerify(ghost goal: Course) returns (status: Status)
      requires hs.suite.Some? && hs.stage == WaitCertificateVerify && goal == Drive(hs, incoming, outgoing)
      modifies this`hs, this`incoming
      ensures status == GoOn ==> hs.suite.Some? && hs.stage == WaitServerFinished && goal == Drive(hs, incoming, outgoing)
      ensures status != GoOn ==> Ended(status, goal)
    {
      var m;
      status, m := ReadHandshake(goal);
      if status != GoOn {
        return;
      }
      if !m.CertificateVerify? {
        return Failed(Protocol(UnexpectedMessage));
      }
      if |hs.peerChain| == 0 {
        return Failed(Protocol(InternalError));
      }
      var refused := VerifySignature(hs.peerChain[0], m.scheme, m.signature, SERVER_SIGNATURE_CONTEXT,
                                     hs.suite.value.hash, hs.transcript);
      if refused.Some? {
        return Failed(refused.value);
      }
      hs := hs.(transcript := hs.transcript + [Whole(m)], stage := WaitServerFinished);
      return GoOn;
    }

    method ReadServerFinished(ghost goal: Course) returns (status: Status)
      requires hs.suite.Some? && hs.stage == WaitServerFinished && goal == Drive(hs, incoming, outgoing)
      modifies this`hs, this`incoming
      ensures status == GoOn ==>
        hs.suite.Some? && goal == Continue(Tls13Client.SendSecondFlight(hs, hs.suite.value), incoming, outgoing)
      ensures status != GoOn ==> Ended(status, goal)
    {
      var m;
      status, m := ReadHandshake(goal);
      if status != GoOn {
        return;
      }
      if !m.Finished? {
        return Failed(Protocol(UnexpectedMessage));
      }
      var h := hs.suite.value.hash;
      if m.verifyData != FinishedHash(h, hs.inSecret, hs.transcript) {
        return Failed(Protocol(InvalidFinished));
      }
      hs := hs.(transcript := hs.transcript + [Whole(m)]);
      hs := hs.(trafficSecret := DeriveSecret(h, hs.masterSecret, CLIENT_APPLICATION_LABEL, hs.transcript));
      hs := hs.(inSecret := DeriveSecret(h, hs.masterSecret, SERVER_APPLICATION_LABEL, hs.transcript));
      hs := hs.(exporter := DeriveSecret(h, hs.masterSecret, EXPORTER_LABEL, hs.transcript));
      return GoOn;
    }

    // ---------- the client's flight ----------

    method SendSecondFlight(ghost goal: Course) returns (status: Status)
      requires hs.suite.Some? && goal == Continue(Tls13Client.SendSecondFlight(hs, hs.suite.value), incoming, outgoing)
      modifies this`hs, this`outgoing
      ensures Ended(status, goal)
    {
      ghost var before := outgoing;
      status := SendCertificate();
      if status == GoOn {
        ghost var certificates := outgoing[|before|..];
        SendFinished();
        assert outgoing == before + (certificates + outgoing[|before| + |certificates|..]);
      }
    }

    /** sendClientCertificate */
    method SendCertificate() returns (status: Status)
      requires hs.suite.Some?
      modifies this`hs, this`outgoing
      ensures match SendClientCertificate(old(hs), old(hs).suite.value)
        case Fail(e) => status == Failed(e)
        case Ok((c, sent)) => status == GoOn && hs == c && hs.suite == old(hs).suite && outgoing == old(outgoing) + sent
    {
      if hs.certReq.None? {
        return GoOn;
      }
      if hs.cfg.certificate.None? {
        return Failed(Configuration(NoCertificates));
      }
      var id := hs.cfg.certificate.value;
      WriteHandshake(CertificateMsg(id.chain));
      if |id.chain| == 0 {
        return GoOn;
      }
      var scheme := SelectSignatureScheme(id, if hs.certReq.value.CertificateRequest? then hs.certReq.value.schemes else []);
      if scheme.Fail? {
        return Failed(scheme.error);
      }
      WriteHandshake(CertificateVerify(scheme.value,
        Sign(id, scheme.value, CLIENT_SIGNATURE_CONTEXT, hs.suite.value.hash, hs.transcript)));
      return GoOn;
    }

    /** sendClientFinished */
    method SendFinished()
      requires hs.suite.Some?
      modifies this`hs, this`outgoing
      ensures hs == SendClientFinished(old(hs), old(hs).suite.value).0
      ensures outgoing == old(outgoing) + SendClientFinished(old(hs), old(hs).suite.value).1
    {
      var h := hs.suite.value.hash;
      WriteHandshake(Finished(FinishedHash(h, hs.outSecret, hs.transcript)));
      hs := hs.(outSecret := hs.trafficSecret, stage := Established,
                resumptionSecret := if hs.cfg.ticketsEnabled
                  then DeriveSecret(h, hs.masterSecret, RESUMPTION_LABEL, hs.transcript) else Nil);
    }
  }
}
