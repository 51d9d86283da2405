/**
  Reading records and handshake messages (readRecordOrCCS, retryReadRecord, readHandshake) as
  functions of the reading side's state. The network is the octets that will still arrive;
  after them comes the end of the stream.
 */
module RecordReading {
  import opened Outcomes
  import opened Octets
  import opened RecordProtection

  const ALERT: byte := 21
  const HANDSHAKE: byte := 22
  const MAX_CIPHERTEXT_TLS13: nat := 16384 + 256
  const MAX_USELESS_RECORDS: nat := 16
  const MAX_HANDSHAKE: nat := 65536
  const ALERT_LEVEL_WARNING: byte := 1
  const ALERT_LEVEL_ERROR: byte := 2
  const CLOSE_NOTIFY: byte := 0

  /** Record decryption as the reader uses it. */
  datatype Decryptor = Decryptor(decrypt: (Half, bytes) -> Decrypted)

  /** What the reader relies on: decryption keeps version and keys. */
  ghost predicate KeepsKeys(d: Decryptor) {
    forall h: Half, record: bytes :: WellKeyed(h.version, h.cipher) && d.decrypt(h, record).Ok? ==>
      var h' := d.decrypt(h, record).value.0;
      h'.version == h.version && WellKeyed(h'.version, h'.cipher) && (h'.cipher.NoCipher? <==> h.cipher.NoCipher?)
  }

  /** halfConn.decrypt with the given primitives. */
  function DecryptorOf(p: Primitives): Decryptor {
    Decryptor((h: Half, record: bytes) =>
      if |record| >= RECORD_HEADER_LEN && WellKeyed(h.version, h.cipher) then Decrypt(p, h, record) else Fail(BadRecordMac))
  }

  lemma DecryptorOfKeepsKeys(p: Primitives)
    ensures KeepsKeys(DecryptorOf(p))
  {
    forall h: Half, record: bytes | WellKeyed(h.version, h.cipher) && DecryptorOf(p).decrypt(h, record).Ok?
      ensures var h' := DecryptorOf(p).decrypt(h, record).value.0;
        h'.version == h.version && WellKeyed(h'.version, h'.cipher) && (h'.cipher.NoCipher? <==> h.cipher.NoCipher?)
    {
      if |record| >= RECORD_HEADER_LEN {
        DecryptKeepsKeys(p, h, record);
      }
    }
  }

  datatype ReadError =
    | EndOfStream | UnexpectedEnd | PendingInput | Sslv2Hello | WrongRecordVersion | NotATlsRecord | OversizedRecord
    | Undecryptable(reason: Failure) | PlaintextOverflow | UnexpectedRecord | DecodeError | NoCipherSpec
    | RemoteAlert(code: byte) | TooManyIgnoredRecords | HandshakeTooLong | UnexpectedHandshakeType | Unparseable

  datatype Reader = Reader(
    half: Half, next: Option<Cipher>, hand: bytes, input: bytes, network: bytes, retryCount: nat,
    vers: nat, haveVers: bool, complete: bool, error: Option<ReadError>)

  predicate Valid(s: Reader) {
    && WellKeyed(s.half.version, s.half.cipher)
    && (s.next.Some? ==> WellKeyed(s.half.version, s.next.value))
    && (s.error.None? ==> s.retryCount <= MAX_USELESS_RECORDS)
  }


  function Err(s: Reader, e: ReadError): Reader { s.(error := Some(e)) }

  function Number2(a: byte, b: byte): nat { a as nat * 256 + b as nat }

  /** The header checks, before the body of the record is read: the length of the body. */
  function CheckHeader(network: bytes, vers: nat, haveVers: bool, complete: bool): (r: Outcome<nat, ReadError>)
    ensures r.Ok? ==> RECORD_HEADER_LEN + r.value <= |network| && r.value <= MAX_CIPHERTEXT
  {
    if |network| < RECORD_HEADER_LEN then Fail(if network == [] then EndOfStream else UnexpectedEnd)
    else
      var typ := network[0];
      var recordVers := Number2(network[1], network[2]);
      var n := Number2(network[3], network[4]);
      if !complete && typ == 0x80 then Fail(Sslv2Hello)
      else if haveVers && vers != VERSION_TLS13 && recordVers != vers then Fail(WrongRecordVersion)
      else if !haveVers && ((typ != ALERT && typ != HANDSHAKE) || recordVers >= 0x1000) then Fail(NotATlsRecord)
      else if (vers == VERSION_TLS13 && n > MAX_CIPHERTEXT_TLS13) || n > MAX_CIPHERTEXT then Fail(OversizedRecord)
      else if |network| < RECORD_HEADER_LEN + n then Fail(UnexpectedEnd)
      else Ok(n)
  }

  /** The next record, opened: the state after it and its content. */
  function NextRecord(d: Decryptor, s: Reader): (r: Outcome<(Reader, Opened), ReadError>)
    requires KeepsKeys(d) && WellKeyed(s.half.version, s.half.cipher)
    ensures r.Ok? ==>
      var s' := r.value.0;
      s' == s.(half := s'.half, network := s'.network) && |s'.network| < |s.network|
      && WellKeyed(s'.half.version, s'.half.cipher) && s'.half.version == s.half.version
      && (s'.half.cipher.NoCipher? <==> s.half.cipher.NoCipher?)
  {
    match CheckHeader(s.network, s.vers, s.haveVers, s.complete)
    case Fail(e) => Fail(e)
    case Ok(n) =>
      match d.decrypt(s.half, s.network[..RECORD_HEADER_LEN + n])
      case Fail(e) => Fail(Undecryptable(e))
      case Ok((half, got)) =>
        var s1 := s.(half := half, network := s.network[RECORD_HEADER_LEN + n..]);
        if |got.plaintext| > MAX_PLAINTEXT then Fail(PlaintextOverflow)
        else if half.cipher == NoCipher && got.typ == APPLICATION_DATA then Fail(UnexpectedRecord)
        else Ok((s1, got))
  }

  /** retryCount is reset by a record that advances something. */
  function Counted(s: Reader, got: Opened): Reader {
    if got.typ != ALERT && got.typ != CHANGE_CIPHER_SPEC && got.plaintext != [] then s.(retryCount := 0) else s
  }

  // ---------- what one call may do ----------

  predicate HandGrew(s: Reader, r: Reader) { |r.hand| > |s.hand| && r.hand[..|s.hand|] == s.hand }
  predicate InputSet(s: Reader, r: Reader) { s.input == [] && r.input != [] }
  predicate CipherChanged(s: Reader, r: Reader) { s.next.Some? && r.next.None? && r.half == Half(s.half.version, s.next.value, 0) }

  /** One and only one of the outcomes of a call, with everything else unchanged. */
  predicate OneOf(s: Reader, r: Reader, expectCcs: bool) {
    && r.vers == s.vers && r.haveVers == s.haveVers && r.complete == s.complete && r.half.version == s.half.version
    && if r.error.Some? then r.hand == s.hand && r.input == s.input && r.next == s.next
       else if r.input != [] then InputSet(s, r) && r.hand == s.hand && r.next == s.next && s.complete && !expectCcs && r.retryCount == 0
       else if |r.hand| > |s.hand| then HandGrew(s, r) && r.next == s.next && !expectCcs && r.retryCount == 0
       else CipherChanged(s, r) && r.hand == s.hand == [] && expectCcs && s.vers != VERSION_TLS13
  }

  /** What one opened record leads to: another read, or the end of this call. */
  datatype Next = Done(state: Reader) | Retry(state: Reader)

  /** The end of a call: what happened is one of the outcomes, and the network was left alone. */
  ghost predicate Ends(s: Reader, r: Next, expectCcs: bool) {
    && (r.Retry? ==> r.state == s)
    && (r.Done? && Valid(s) ==> Valid(r.state))
    && (r.Done? ==> r.state.network == s.network && r.state.retryCount == s.retryCount && OneOf(s, r.state, expectCcs))
  }

  function DispatchAlert(s: Reader, data: bytes, expectCcs: bool): (r: Next)
    ensures Ends(s, r, expectCcs)
  {
    if |data| != 2 then Done(Err(s, UnexpectedRecord))
    else if data[1] == CLOSE_NOTIFY then Done(Err(s, EndOfStream))
    else if s.vers == VERSION_TLS13 then Done(Err(s, RemoteAlert(data[1])))
    else if data[0] == ALERT_LEVEL_WARNING then Retry(s)
    else if data[0] == ALERT_LEVEL_ERROR then Done(Err(s, RemoteAlert(data[1])))
    else Done(Err(s, UnexpectedRecord))
  }

  function DispatchCcs(s: Reader, data: bytes, expectCcs: bool): (r: Next)
    ensures s.input == [] && s.error.None? ==> Ends(s, r, expectCcs)
  {
    if |data| != 1 || data[0] != 1 then Done(Err(s, DecodeError))
    else if s.hand != [] then Done(Err(s, UnexpectedRecord))
    else if s.vers == VERSION_TLS13 then Retry(s)
    else if !expectCcs then Done(Err(s, UnexpectedRecord))
    else if s.next.None? || s.half.version == VERSION_TLS13 then Done(Err(s, NoCipherSpec))
    else Done(s.(half := Half(s.half.version, s.next.value, 0), next := None))
  }

  function DispatchData(s: Reader, data: bytes, expectCcs: bool): (r: Next)
    ensures s.input == [] && s.error.None? && (data != [] ==> s.retryCount == 0) ==> Ends(s, r, expectCcs)
  {
    if !s.complete || expectCcs then Done(Err(s, UnexpectedRecord))
    else if data == [] then Retry(s)
    else Done(s.(input := data))
  }

  function DispatchHandshake(s: Reader, data: bytes, expectCcs: bool): (r: Next)
    ensures s.input == [] && s.error.None? && (data != [] ==> s.retryCount == 0) ==> Ends(s, r, expectCcs)
  {
    if data == [] || expectCcs then Done(Err(s, UnexpectedRecord))
    else Done(s.(hand := s.hand + data))
  }

  function Dispatch(s: Reader, got: Opened, expectCcs: bool): (r: Next)
    ensures s.input == [] && s.error.None? && (got.typ != ALERT && got.typ != CHANGE_CIPHER_SPEC && got.plaintext != [] ==> s.retryCount == 0)
      ==> Ends(s, r, expectCcs)
  {
    if s.vers == VERSION_TLS13 && got.typ != HANDSHAKE && s.hand != [] then Done(Err(s, UnexpectedRecord))
    else if got.typ == ALERT then DispatchAlert(s, got.plaintext, expectCcs)
    else if got.typ == CHANGE_CIPHER_SPEC then DispatchCcs(s, got.plaintext, expectCcs)
    else if got.typ == APPLICATION_DATA then DispatchData(s, got.plaintext, expectCcs)
    else if got.typ == HANDSHAKE then DispatchHandshake(s, got.plaintext, expectCcs)
    else Done(Err(s, UnexpectedRecord))
  }

  /** retryReadRecord's count, and its limit. */
  function CountRetry(s: Reader): (r: Next)
    requires Valid(s) && s.error.None?
    ensures Valid(r.state)
    ensures r.state == s.(retryCount := s.retryCount + 1, error := r.state.error)
    ensures if r.Retry? then r.state.error.None? else r.state.error.Some?
  {
    var s1 := s.(retryCount := s.retryCount + 1);
    if s1.retryCount > MAX_USELESS_RECORDS then Done(Err(s1, TooManyIgnoredRecords)) else Retry(s1)
  }

  /** An opened record is put to use, or ignored and counted. */
  function Use(s: Reader, got: Opened, expectCcs: bool): (r: Next)
    requires Valid(s) && s.error.None? && s.input == []
    requires got.typ != ALERT && got.typ != CHANGE_CIPHER_SPEC && got.plaintext != [] ==> s.retryCount == 0
    ensures Valid(r.state) && r.state.network == s.network
    ensures if r.Done? then OneOf(s, r.state, expectCcs) else r.state == s.(retryCount := s.retryCount + 1)
  {
    match Dispatch(s, got, expectCcs)
    case Done(s1) => Done(s1)
    case Retry(s1) => CountRetry(s1)
  }

  /** An ignored record moves only the network, the cipher's state and the count of retries. */
  predicate Skipped(s: Reader, s1: Reader) {
    s1 == s.(half := s1.half, network := s1.network, retryCount := s1.retryCount) && s1.half.version == s.half.version
  }

  /** Ignored records before the one that counts change nothing an outcome speaks of. */
  lemma CarryOver(s: Reader, s1: Reader, expectCcs: bool)
    requires Skipped(s, s1)
    ensures forall r: Reader :: OneOf(s1, r, expectCcs) ==> OneOf(s, r, expectCcs)
  {
  }

  /** One record: an error, the end of the call, or a record to ignore, with its retry counted. */
  function ReadOnce(d: Decryptor, s: Reader, expectCcs: bool): (r: Next)
    requires KeepsKeys(d) && Valid(s) && s.error.None?
    ensures Valid(r.state) && |r.state.network| <= |s.network|
    ensures r.state.error.None? ==> |r.state.network| < |s.network|
    ensures r.Retry? ==> r.state.error.None? && r.state.retryCount == s.retryCount + 1 && Skipped(s, r.state)
    ensures r.Done? ==> OneOf(s, r.state, expectCcs)
  {
    if s.input != [] then Done(Err(s, PendingInput))
    else
      match NextRecord(d, s)
      case Fail(e) => Done(Err(s, e))
      case Ok((s1, got)) =>
        CarryOver(s, Counted(s1, got), expectCcs);
        Use(Counted(s1, got), got, expectCcs)
  }

  /** readRecordOrCCS. The recursion of retryReadRecord ends because retryCount only grows. */
  function ReadRecord(d: Decryptor, s: Reader, expectCcs: bool): (r: Reader)
    requires KeepsKeys(d) && Valid(s)
    ensures Valid(r) && |r.network| <= |s.network|
    ensures if r.error.None? then |r.network| < |s.network| else r.hand == s.hand
    decreases if s.error.Some? then 0 else 1 + MAX_USELESS_RECORDS - s.retryCount
  {
    if s.error.Some? then s
    else
      match ReadOnce(d, s, expectCcs)
      case Done(s1) => s1
      case Retry(s1) => ReadRecord(d, s1, expectCcs)
  }

  /**
    The contract in the source's comment, in exact form. Application data comes only after the
    handshake and a cipher change only when one was asked for.
   */
  lemma {:induction false} OneOutcome(d: Decryptor, s: Reader, expectCcs: bool)
    requires KeepsKeys(d) && Valid(s) && s.error.None?
    ensures OneOf(s, ReadRecord(d, s, expectCcs), expectCcs)
    decreases 1 + MAX_USELESS_RECORDS - s.retryCount
  {
    match ReadOnce(d, s, expectCcs)
    case Done(_) =>
    case Retry(s1) =>
      OneOutcome(d, s1, expectCcs);
      CarryOver(s, s1, expectCcs);
  }

  // ---------- handshake messages ----------

  const KNOWN_TYPES: set<byte> := {0, 1, 2, 4, 5, 8, 11, 12, 13, 14, 15, 16, 20, 22, 24}

  function Number3(a: byte, b: byte, c: byte): nat { a as nat * 65536 + b as nat * 256 + c as nat }

  /** Reads records until the handshake buffer holds n octets, or an error. */
  function FillTo(d: Decryptor, s: Reader, n: nat): (r: Reader)
    requires KeepsKeys(d) && Valid(s)
    ensures Valid(r) && |r.network| <= |s.network| && (|r.hand| < n ==> r.error.Some?)
    decreases |s.network|, if s.error.Some? then 0 else 1
  {
    if |s.hand| >= n then s
    else
      var s1 := ReadRecord(d, s, false);
      if s1.error.Some? then s1 else FillTo(d, s1, n)
  }

  /** The length of the message a buffer of at least four octets starts with, header included. */
  function MessageLen(hand: bytes): nat
    requires |hand| >= 4
  {
    4 + Number3(hand[1], hand[2], hand[3])
  }

  /** The end of readHandshake: n octets leave the buffer and are parsed. parses stands for the unmarshal functions. */
  function TakeMessage(parses: bytes -> bool, s: Reader, n: nat): (r: (Reader, Option<bytes>))
    requires Valid(s) && 4 <= n <= |s.hand|
    ensures Valid(r.0) && r.0.network == s.network && (r.1.None? ==> r.0.error.Some?)
  {
    var data := s.hand[..n];
    var s1 := s.(hand := s.hand[n..]);
    if data[0] !in KNOWN_TYPES then (Err(s1, UnexpectedHandshakeType), None)
    else if !parses(data) then (Err(s1, Unparseable), None)
    else (s1, Some(data))
  }

  /** readHandshake once the header is there. */
  function ReadBody(d: Decryptor, parses: bytes -> bool, s: Reader): (r: (Reader, Option<bytes>))
    requires KeepsKeys(d) && Valid(s) && |s.hand| >= 4
    ensures Valid(r.0) && |r.0.network| <= |s.network| && (r.1.None? ==> r.0.error.Some?)
  {
    var n := MessageLen(s.hand);
    if n > 4 + MAX_HANDSHAKE then (Err(s, HandshakeTooLong), None)
    else
      var s1 := FillTo(d, s, n);
      if |s1.hand| < n then (s1, None) else TakeMessage(parses, s1, n)
  }

  /** readHandshake: the octets of the next message. */
  function ReadHandshake(d: Decryptor, parses: bytes -> bool, s: Reader): (r: (Reader, Option<bytes>))
    requires KeepsKeys(d) && Valid(s)
    ensures Valid(r.0) && |r.0.network| <= |s.network| && (r.1.None? ==> r.0.error.Some?)
  {
    var s1 := FillTo(d, s, 4);
    if |s1.hand| < 4 then (s1, None) else ReadBody(d, parses, s1)
  }

  /** The handshake octets still to come, when everything that comes is a handshake record. */
  function Incoming(d: Decryptor, s: Reader): Option<bytes>
    requires KeepsKeys(d) && Valid(s)
    decreases |s.network|
  {
    if s.network == [] then Some([])
    else
      match NextRecord(d, s)
      case Fail(_) => None
      case Ok((s1, got)) =>
        if got.typ != HANDSHAKE || got.plaintext == [] then None
        else
          match Incoming(d, s1.(retryCount := 0))
          case None => None
          case Some(rest) => Some(got.plaintext + rest)
  }

  /** What a reader has yet to hand out: what is buffered and what comes. */
  function Stream(d: Decryptor, s: Reader): Option<bytes>
    requires KeepsKeys(d) && Valid(s)
  {
    match Incoming(d, s)
    case None => None
    case Some(rest) => Some(s.hand + rest)
  }

  ghost predicate Flowing(d: Decryptor, s: Reader) {
    KeepsKeys(d) && Valid(s) && s.error.None? && s.input == [] && Stream(d, s).Some?
  }

  lemma {:induction false} IncomingIgnores(d: Decryptor, s: Reader, hand: bytes, retryCount: nat)
    requires KeepsKeys(d) && Valid(s) && retryCount <= MAX_USELESS_RECORDS
    ensures Incoming(d, s.(hand := hand, retryCount := retryCount)) == Incoming(d, s)
    decreases |s.network|
  {
    var t := s.(hand := hand, retryCount := retryCount);
    match NextRecord(d, s)
    case Fail(_) =>
    case Ok((s1, got)) =>
      assert NextRecord(d, t) == Ok((s1.(hand := hand, retryCount := retryCount), got));
      if got.typ == HANDSHAKE && got.plaintext != [] {
        IncomingIgnores(d, s1.(retryCount := 0), hand, 0);
        assert s1.(hand := hand, retryCount := retryCount).(retryCount := 0) == s1.(retryCount := 0).(hand := hand, retryCount := 0);
      }
  }

  /** A handshake record ends the call with its content in the buffer. */
  lemma HandshakeRecord(d: Decryptor, s: Reader, s1: Reader, got: Opened)
    requires KeepsKeys(d) && Valid(s) && s.error.None? && s.input == []
    requires NextRecord(d, s) == Ok((s1, got)) && got.typ == HANDSHAKE && got.plaintext != []
    ensures ReadRecord(d, s, false) == s1.(retryCount := 0, hand := s.hand + got.plaintext)
  {
    assert ReadOnce(d, s, false) == Done(s1.(retryCount := 0, hand := s.hand + got.plaintext));
  }

  lemma FirstRecord(d: Decryptor, s: Reader) returns (s1: Reader, got: Opened, rest: bytes)
    requires KeepsKeys(d) && Valid(s) && Incoming(d, s).Some? && s.network != []
    ensures NextRecord(d, s) == Ok((s1, got)) && got.typ == HANDSHAKE && got.plaintext != [] && Valid(s1.(retryCount := 0))
    ensures Incoming(d, s1.(retryCount := 0)) == Some(rest) && Incoming(d, s) == Some(got.plaintext + rest)
  {
    s1, got := NextRecord(d, s).value.0, NextRecord(d, s).value.1;
    rest := Incoming(d, s1.(retryCount := 0)).value;
  }

  lemma Joined(a: bytes, b: bytes, c: bytes)
    ensures a + (b + c) == a + b + c
  {
  }

  /** One record of the stream moves from the network to the buffer. */
  lemma ReadFlows(d: Decryptor, s: Reader)
    requires Flowing(d, s) && s.network != []
    ensures var r := ReadRecord(d, s, false);
      Flowing(d, r) && Stream(d, r) == Stream(d, s)
  {
    var s1, got, rest := FirstRecord(d, s);
    HandshakeRecord(d, s, s1, got);
    IncomingIgnores(d, s1.(retryCount := 0), s.hand + got.plaintext, 0);
    Joined(s.hand, got.plaintext, rest);
  }

  lemma {:induction false} FillFlows(d: Decryptor, s: Reader, n: nat)
    requires Flowing(d, s)
    ensures var r := FillTo(d, s, n);
      if |Stream(d, s).value| >= n then Flowing(d, r) && Stream(d, r) == Stream(d, s) && |r.hand| >= n
      else r.error == Some(EndOfStream) && |r.hand| < n
    decreases |s.network|
  {
    if |s.hand| < n {
      if s.network == [] {
        assert ReadOnce(d, s, false) == Done(Err(s, EndOfStream));
      } else {
        ReadFlows(d, s);
        FillFlows(d, ReadRecord(d, s, false), n);
      }
    }
  }

  // ---------- the messages of an octet stream, however it was cut into records ----------

  datatype Cut = Message(octets: bytes, rest: bytes) | Stop(error: ReadError)

  function CutMessage(parses: bytes -> bool, all: bytes): Cut {
    if |all| < 4 then Stop(EndOfStream) else CutBody(parses, all)
  }

  function CutBody(parses: bytes -> bool, all: bytes): Cut
    requires |all| >= 4
  {
    var n := MessageLen(all);
    if n > 4 + MAX_HANDSHAKE then Stop(HandshakeTooLong)
    else if |all| < n then Stop(EndOfStream)
    else if all[0] !in KNOWN_TYPES then Stop(UnexpectedHandshakeType)
    else if !parses(all[..n]) then Stop(Unparseable)
    else Message(all[..n], all[n..])
  }

  /** The state and result of a read agree with where the octets were cut. */
  ghost predicate Agrees(d: Decryptor, result: (Reader, Option<bytes>), cut: Cut) {
    match cut
    case Stop(e) => result.1 == None && result.0.error == Some(e)
    case Message(octets, rest) => result.1 == Some(octets) && Flowing(d, result.0) && Stream(d, result.0) == Some(rest)
  }

  lemma TakeMessageCuts(d: Decryptor, parses: bytes -> bool, s: Reader, all: bytes, n: nat)
    requires Flowing(d, s) && Stream(d, s) == Some(all) && 4 <= n <= |s.hand|
    requires n == MessageLen(all) <= 4 + MAX_HANDSHAKE
    ensures Agrees(d, TakeMessage(parses, s, n), CutBody(parses, all))
  {
    var rest := Incoming(d, s).value;
    assert (s.hand + rest)[..n] == s.hand[..n];
    assert (s.hand + rest)[n..] == s.hand[n..] + rest;
    IncomingIgnores(d, s, s.hand[n..], s.retryCount);
  }

  lemma ReadBodyCuts(d: Decryptor, parses: bytes -> bool, s: Reader, all: bytes)
    requires Flowing(d, s) && Stream(d, s) == Some(all) && |s.hand| >= 4
    ensures Agrees(d, ReadBody(d, parses, s), CutBody(parses, all))
  {
    var n := MessageLen(s.hand);
    assert n == MessageLen(all);
    if n <= 4 + MAX_HANDSHAKE {
      FillFlows(d, s, n);
      if |all| >= n {
        TakeMessageCuts(d, parses, FillTo(d, s, n), all, n);
      }
    }
  }

  /** readHandshake sees the octets only, not where the records begin. */
  lemma ReadHandshakeCuts(d: Decryptor, parses: bytes -> bool, s: Reader)
    requires Flowing(d, s)
    ensures Agrees(d, ReadHandshake(d, parses, s), CutMessage(parses, Stream(d, s).value))
  {
    var all := Stream(d, s).value;
    FillFlows(d, s, 4);
    if |all| >= 4 {
      ReadBodyCuts(d, parses, FillTo(d, s, 4), all);
    }
  }

  /** readHandshake as a whole: from a reader to the reader afterwards and the message, if any. */
  datatype Handshakes = Handshakes(read: Reader -> (Reader, Option<bytes>))

  function HandshakesOf(d: Decryptor, parses: bytes -> bool): Handshakes
    requires KeepsKeys(d)
  {
    Handshakes((s: Reader) => if Valid(s) then ReadHandshake(d, parses, s) else (s, None))
  }

  function CutterOf(parses: bytes -> bool): bytes -> Cut { (all: bytes) => CutMessage(parses, all) }

  /** Reading is cutting the octets that are left. */
  ghost predicate ReadsCuts(d: Decryptor, h: Handshakes, cut: bytes -> Cut) {
    forall s: Reader :: Flowing(d, s) ==> Agrees(d, h.read(s), cut(Stream(d, s).value))
  }

  lemma HandshakesCut(d: Decryptor, parses: bytes -> bool)
    requires KeepsKeys(d)
    ensures ReadsCuts(d, HandshakesOf(d, parses), CutterOf(parses))
  {
    forall s: Reader | Flowing(d, s) ensures Agrees(d, HandshakesOf(d, parses).read(s), CutterOf(parses)(Stream(d, s).value)) {
      ReadHandshakeCuts(d, parses, s);
    }
  }

  /** The results of k calls to readHandshake: the messages, and the error that ended them, if any. */
  function ReadMany(h: Handshakes, s: Reader, k: nat): (seq<bytes>, Option<ReadError>)
    decreases k
  {
    if k == 0 then ([], None)
    else
      var (r, m) := h.read(s);
      if m.None? then ([], r.error) else First(m.value, ReadMany(h, r, k - 1))
  }

  function First(message: bytes, more: (seq<bytes>, Option<ReadError>)): (seq<bytes>, Option<ReadError>) {
    ([message] + more.0, more.1)
  }

  /** The same on the octets. */
  function CutMany(cut: bytes -> Cut, all: bytes, k: nat): (seq<bytes>, Option<ReadError>)
    decreases k
  {
    if k == 0 then ([], None)
    else
      match cut(all)
      case Stop(e) => ([], Some(e))
      case Message(octets, rest) => First(octets, CutMany(cut, rest, k - 1))
  }

  lemma {:induction false} ReadManyCuts(d: Decryptor, h: Handshakes, cut: bytes -> Cut, s: Reader, k: nat)
    requires Flowing(d, s) && ReadsCuts(d, h, cut)
    ensures ReadMany(h, s, k) == CutMany(cut, Stream(d, s).value, k)
    decreases k
  {
    if k > 0 {
      var (r, m) := h.read(s);
      if m.Some? {
        ReadManyCuts(d, h, cut, r, k - 1);
      }
    }
  }

  /** Two readers of the same handshake octets, split into records and protected in any two ways, read the same messages. */
  lemma SplitDoesNotMatter(d1: Decryptor, s1: Reader, d2: Decryptor, s2: Reader, parses: bytes -> bool, k: nat)
    requires Flowing(d1, s1) && Flowing(d2, s2) && Stream(d1, s1) == Stream(d2, s2)
    ensures ReadMany(HandshakesOf(d1, parses), s1, k) == ReadMany(HandshakesOf(d2, parses), s2, k)
  {
    HandshakesCut(d1, parses);
    HandshakesCut(d2, parses);
    ReadManyCuts(d1, HandshakesOf(d1, parses), CutterOf(parses), s1, k);
    ReadManyCuts(d2, HandshakesOf(d2, parses), CutterOf(parses), s2, k);
  }
}
