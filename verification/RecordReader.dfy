/** The reading side of a connection as the object that owns its buffers. */
module RecordReader {
  import opened Outcomes
  import opened Octets
  import opened RecordProtection
  import opened RecordReading
  import RecordLayer

  class ConnReader {
    const half: RecordLayer.HalfConn
    var hand: bytes
    var input: bytes
    var network: bytes
    var retryCount: nat
    var vers: nat
    var haveVers: bool
    var complete: bool
    var error: Option<ReadError>

    ghost predicate Valid()
      reads this, half, half.seqOctets
    {
      half.Valid() && Lawful(half.p) && RecordReading.Valid(State())
    }

    ghost function State(): Reader
      reads this, half, half.seqOctets
    {
      Reader(half.State(), half.nextCipher, hand, input, network, retryCount, vers, haveVers, complete, error)
    }

    /** How this connection decrypts. */
    ghost function Opener(): (d: Decryptor)
      ensures KeepsKeys(d)
    {
      DecryptorOfKeepsKeys(half.p);
      DecryptorOf(half.p)
    }

    /**
      The object is in the state the specification asks for. Once an error is recorded every
      later call only reports it, so of the rest only the buffers matter.
     */
    ghost predicate Reached(expected: Reader)
      reads this, half, half.seqOctets
    {
      && half.Valid()
      && if expected.error.None? then State() == expected
         else error == expected.error && hand == expected.hand && input == expected.input
    }

    constructor (half: RecordLayer.HalfConn, network: bytes)
      requires half.Valid() && Lawful(half.p) && half.nextCipher == None
      ensures Valid() && this.half == half
      ensures State() == Reader(half.State(), None, [], [], network, 0, 0, false, false, None)
    {
      this.half := half;
      this.network := network;
      hand, input, retryCount, vers, haveVers, complete, error := [], [], 0, 0, false, false, None;
    }

    /** Takes one record off the network and opens it. */
    method TakeRecord(n: nat) returns (r: Outcome<Opened, Failure>)
      requires Valid() && RECORD_HEADER_LEN + n <= |network| && n <= MAX_CIPHERTEXT
      modifies this`network, half`cipher, half.seqOctets
      ensures half.Valid() && network == old(network[RECORD_HEADER_LEN + n..])
      ensures match Opener().decrypt(old(half.State()), old(network[..RECORD_HEADER_LEN + n]))
        case Ok((h, got)) => r == Ok(got) && half.State() == h
        case Fail(e) => r == Fail(e)
    {
      var record := network[..RECORD_HEADER_LEN + n];
      network := network[RECORD_HEADER_LEN + n..];
      r := half.Decrypt(record);
    }

    method ProcessAlert(data: bytes, ghost expectCcs: bool) returns (retry: bool)
      requires error.None?
      modifies this`error
      ensures DispatchAlert(old(State()), data, expectCcs) == if retry then Retry(State()) else Done(State())
    {
      retry := false;
      if |data| != 2 {
        error := Some(UnexpectedRecord);
      } else if data[1] == CLOSE_NOTIFY {
        error := Some(EndOfStream);
      } else if vers == VERSION_TLS13 {
        error := Some(RemoteAlert(data[1]));
      } else if data[0] == ALERT_LEVEL_WARNING {
        retry := true;
      } else if data[0] == ALERT_LEVEL_ERROR {
        error := Some(RemoteAlert(data[1]));
      } else {
        error := Some(UnexpectedRecord);
      }
    }

    method ProcessCcs(data: bytes, expectCcs: bool) returns (retry: bool)
      requires Valid() && error.None?
      modifies this`error, half`cipher, half`nextCipher, half.seqOctets
      ensures half.Valid()
      ensures DispatchCcs(old(State()), data, expectCcs) == if retry then Retry(State()) else Done(State())
    {
      retry := false;
      if |data| != 1 || data[0] != 1 {
        error := Some(DecodeError);
      } else if |hand| > 0 {
        error := Some(UnexpectedRecord);
      } else if vers == VERSION_TLS13 {
        retry := true;
      } else if !expectCcs {
        error := Some(UnexpectedRecord);
      } else {
        var ok := half.ChangeCipherSpec();
        if !ok {
          error := Some(NoCipherSpec);
        }
      }
    }

    /** The switch over the content type: true when the record is to be ignored and another one read. */
    method Process(got: Opened, expectCcs: bool) returns (retry: bool)
      requires Valid() && error.None?
      modifies this`hand, this`input, this`error, half`cipher, half`nextCipher, half.seqOctets
      ensures half.Valid()
      ensures Dispatch(old(State()), got, expectCcs) == if retry then Retry(State()) else Done(State())
    {
      var data := got.plaintext;
      retry := false;
      if vers == VERSION_TLS13 && got.typ != HANDSHAKE && |hand| > 0 {
        error := Some(UnexpectedRecord);
      } else if got.typ == ALERT {
        retry := ProcessAlert(data, expectCcs);
      } else if got.typ == CHANGE_CIPHER_SPEC {
        retry := ProcessCcs(data, expectCcs);
      } else if got.typ == APPLICATION_DATA {
        if !complete || expectCcs {
          error := Some(UnexpectedRecord);
        } else if |data| == 0 {
          retry := true;
        } else {
          input := data;
        }
      } else if got.typ == HANDSHAKE {
        if |data| == 0 || expectCcs {
          error := Some(UnexpectedRecord);
        } else {
          hand := hand + data;
        }
      } else {
        error := Some(UnexpectedRecord);
      }
    }

    /** The first half of readRecordOrCCS: header, body, decryption and the checks on what it yields. */
    method ReceiveRecord() returns (r: Option<Opened>)
      requires Valid() && error.None?
      modifies this`network, this`error, half`cipher, half.seqOctets
      ensures half.Valid()
      ensures match NextRecord(Opener(), old(State()))
        case Ok((s, got)) => r == Some(got) && State() == s
        case Fail(e) => r == None && error == Some(e)
    {
      match CheckHeader(network, vers, haveVers, complete)
      case Fail(e) =>
        error := Some(e);
        return None;
      case Ok(n) =>
        var opening := TakeRecord(n);
        match opening
        case Fail(e) =>
          error := Some(Undecryptable(e));
          return None;
        case Ok(got) =>
          if |got.plaintext| > MAX_PLAINTEXT {
            error := Some(PlaintextOverflow);
            return None;
          }
          if half.cipher == NoCipher && got.typ == APPLICATION_DATA {
            error := Some(UnexpectedRecord);
            return None;
          }
          return Some(got);
    }

    /** A record that advances something resets the count of ignored ones; then the switch. */
    method Consume(got: Opened, expectCcs: bool) returns (retry: bool)
      requires Valid() && error.None?
      modifies this`hand, this`input, this`error, this`retryCount, half`cipher, half`nextCipher, half.seqOctets
      ensures half.Valid()
      ensures Dispatch(Counted(old(State()), got), got, expectCcs) == if retry then Retry(State()) else Done(State())
    {
      if got.typ != ALERT && got.typ != CHANGE_CIPHER_SPEC && |got.plaintext| > 0 {
        retryCount := 0;
      }
      retry := Process(got, expectCcs);
    }

    /** readRecordOrCCS */
    method ReadRecordOrCcs(expectCcs: bool, ghost goal: Reader)
      requires Valid() && goal == ReadRecord(Opener(), State(), expectCcs)
      modifies this`hand, this`input, this`network, this`retryCount, this`error, half`cipher, half`nextCipher, half.seqOctets
      ensures Valid() && Reached(goal)
      decreases if error.Some? then 0 else 1 + MAX_USELESS_RECORDS - retryCount, 2
    {
      ghost var before := State();
      if error.Some? {
        return;
      }
      if |input| != 0 {
        error := Some(PendingInput);
        return;
      }
      var got := ReceiveRecord();
      if got.Some? {
        Conclude(got.value, expectCcs, before, goal);
      } else {
        Refused(Opener(), before, error.value, expectCcs);
      }
    }

    /** The second half: the switch, and another read when the record is to be ignored. */
    method Conclude(got: Opened, expectCcs: bool, ghost before: Reader, ghost goal: Reader)
      requires Valid() && RecordReading.Valid(before) && before.error.None? && before.input == []
      requires NextRecord(Opener(), before) == Ok((State(), got)) && goal == ReadRecord(Opener(), before, expectCcs)
      modifies this`hand, this`input, this`network, this`retryCount, this`error, half`cipher, half`nextCipher, half.seqOctets
      ensures Valid() && Reached(goal)
      decreases 1 + MAX_USELESS_RECORDS - retryCount, 1
    {
      ghost var s1 := State();
      var retry := Consume(got, expectCcs);
      ghost var s3 := Dispatched(Opener(), before, s1, got, expectCcs, goal);
      if retry {
        RetryReadRecord(expectCcs, s3, goal);
      }
    }

    /** retryReadRecord: ignores a record, but not too many in a row. */
    method RetryReadRecord(expectCcs: bool, ghost s1: Reader, ghost goal: Reader)
      requires Valid() && error.None? && s1 == State().(retryCount := retryCount + 1)
      requires if s1.retryCount > MAX_USELESS_RECORDS then goal == s1.(error := Some(TooManyIgnoredRecords))
        else goal == ReadRecord(Opener(), s1, expectCcs)
      modifies this`hand, this`input, this`network, this`retryCount, this`error, half`cipher, half`nextCipher, half.seqOctets
      ensures Valid() && Reached(goal)
      decreases 1 + MAX_USELESS_RECORDS - retryCount, 0
    {
      retryCount := retryCount + 1;
      assert State() == s1;
      if retryCount > MAX_USELESS_RECORDS {
        GiveUp(goal);
      } else {
        ReadRecordOrCcs(expectCcs, goal);
      }
    }

    method GiveUp(ghost goal: Reader)
      requires half.Valid() && Lawful(half.p) && WellKeyed(half.version, half.cipher)
      requires half.nextCipher.Some? ==> WellKeyed(half.version, half.nextCipher.value)
      requires goal == State().(error := Some(TooManyIgnoredRecords))
      modifies this`error
      ensures Valid() && State() == goal
    {
      error := Some(TooManyIgnoredRecords);
    }

    /** The loop around readRecord: until the handshake buffer holds n octets, or an error. */
    method Fill(n: nat)
      requires Valid()
      modifies this`hand, this`input, this`network, this`retryCount, this`error, half`cipher, half`nextCipher, half.seqOctets
      ensures Valid() && Filled(FillTo(Opener(), old(State()), n), n)
    {
      ghost var before := State();
      while |hand| < n
        invariant Valid() && FillTo(Opener(), State(), n) == FillTo(Opener(), before, n)
        decreases |network|, if error.Some? then 0 else 1
      {
        ReadRecordOrCcs(false, ReadRecord(Opener(), State(), false));
        if error.Some? {
          return;
        }
      }
    }

    ghost predicate Filled(expected: Reader, n: nat)
      reads this, half, half.seqOctets
    {
      && half.Valid()
      && if |hand| >= n then State() == expected
         else |expected.hand| < n && Reached(expected) && expected.error.Some?
    }

    method Take(parses: bytes -> bool, n: nat) returns (m: Option<bytes>)
      requires Valid() && 4 <= n <= |hand|
      modifies this`hand, this`error
      ensures half.Valid()
      ensures TakeMessage(parses, old(State()), n) == (State(), m)
    {
      var data := hand[..n];
      hand := hand[n..];
      if data[0] !in KNOWN_TYPES {
        error := Some(UnexpectedHandshakeType);
        return None;
      }
      if !parses(data) {
        error := Some(Unparseable);
        return None;
      }
      return Some(data);
    }

    method TakeBody(parses: bytes -> bool) returns (m: Option<bytes>)
      requires Valid() && |hand| >= 4
      modifies this`hand, this`input, this`network, this`retryCount, this`error, half`cipher, half`nextCipher, half.seqOctets
      ensures Valid()
      ensures Read(ReadBody(Opener(), parses, old(State())), m)
    {
      var n := MessageLen(hand);
      if n > 4 + MAX_HANDSHAKE {
        error := Some(HandshakeTooLong);
        return None;
      }
      Fill(n);
      if |hand| < n {
        return None;
      }
      m := Take(parses, n);
    }

    ghost predicate Read(expected: (Reader, Option<bytes>), m: Option<bytes>)
      reads this, half, half.seqOctets
    {
      m == expected.1 && if m.Some? then State() == expected.0 else Reached(expected.0)
    }

    method ReadHandshake(parses: bytes -> bool) returns (m: Option<bytes>)
      requires Valid()
      modifies this`hand, this`input, this`network, this`retryCount, this`error, half`cipher, half`nextCipher, half.seqOctets
      ensures Valid()
      ensures Read(RecordReading.ReadHandshake(Opener(), parses, old(State())), m)
    {
      Fill(4);
      if |hand| < 4 {
        return None;
      }
      m := TakeBody(parses);
    }
  }

  /** What one opened record does to a call of readRecordOrCCS; s3 is the state with an ignored record counted. */
  lemma Dispatched(d: Decryptor, s: Reader, s1: Reader, got: Opened, expectCcs: bool, r: Reader) returns (s3: Reader)
    requires KeepsKeys(d) && RecordReading.Valid(s) && s.error.None? && s.input == []
    requires NextRecord(d, s) == Ok((s1, got)) && r == ReadRecord(d, s, expectCcs)
    ensures var next := Dispatch(Counted(s1, got), got, expectCcs);
      && RecordReading.Valid(next.state) && s3 == next.state.(retryCount := next.state.retryCount + 1)
      && (next.Done? ==> r == next.state) && (next.Retry? ==> next.state.error.None?)
      && (next.Retry? && s3.retryCount > MAX_USELESS_RECORDS ==> r == s3.(error := Some(TooManyIgnoredRecords)))
      && (next.Retry? && s3.retryCount <= MAX_USELESS_RECORDS ==> RecordReading.Valid(s3) && r == ReadRecord(d, s3, expectCcs))
  {
    var next := Dispatch(Counted(s1, got), got, expectCcs);
    s3 := next.state.(retryCount := next.state.retryCount + 1);
    var once := Once(d, s, s1, got, expectCcs);
    match once
    case Done(s2) =>
      assert r == s2;
    case Retry(s2) =>
      assert r == ReadRecord(d, s2, expectCcs);
  }

  lemma Once(d: Decryptor, s: Reader, s1: Reader, got: Opened, expectCcs: bool) returns (r: Next)
    requires KeepsKeys(d) && RecordReading.Valid(s) && s.error.None? && s.input == []
    requires NextRecord(d, s) == Ok((s1, got))
    ensures r == ReadOnce(d, s, expectCcs)
    ensures var next := Dispatch(Counted(s1, got), got, expectCcs);
      RecordReading.Valid(next.state) &&
      if next.Done? then r == next
      else
        var s2 := next.state.(retryCount := next.state.retryCount + 1);
        next.state.error.None? &&
        r == if s2.retryCount > MAX_USELESS_RECORDS then Done(s2.(error := Some(TooManyIgnoredRecords))) else Retry(s2)
  {
    r := ReadOnce(d, s, expectCcs);
  }

  lemma Refused(d: Decryptor, s: Reader, e: ReadError, expectCcs: bool)
    requires KeepsKeys(d) && RecordReading.Valid(s) && s.error.None? && s.input == []
    requires NextRecord(d, s) == Fail(e)
    ensures ReadRecord(d, s, expectCcs) == s.(error := Some(e))
  {
  }
}
