/**
  What one direction of the record layer keeps over whole runs of sends, deliveries and key
  changes: the receiver stays in lockstep with the sender, epoch by epoch.
 */
module RecordRuns {
  import opened Outcomes
  import opened Octets
  import opened Padding
  import opened Arithmetic
  import opened RecordProtection

  /** Same keys and same cipher state; the counters agree only once there is a cipher, for encrypt does not count without. */
  predicate InStep(sender: Half, receiver: Half) {
    && sender.version == receiver.version && sender.cipher == receiver.cipher
    && (sender.cipher != NoCipher ==> sender.seqNo == receiver.seqNo)
  }

  function Header(typ: byte, legacy: nat, length: nat): (h: bytes)
    ensures |h| == RECORD_HEADER_LEN
  {
    [typ] + Uint16(legacy) + Uint16(length)
  }

  /** What writeRecordLocked may hand to encrypt. */
  predicate Sendable(typ: byte, payload: bytes) {
    20 <= typ <= 24 && 0 < |payload| <= MAX_PLAINTEXT
  }

  lemma XorStreamCancels(p: Primitives, key: Key, position: nat, data: bytes)
    ensures XorStream(p, key, position, XorStream(p, key, position, data)) == data
  {
    forall i | 0 <= i < |data| ensures XorStream(p, key, position, XorStream(p, key, position, data))[i] == data[i] {
      XorCancels(data[i], p.keystream(key, position + i));
    }
  }

  lemma PaddingIsFound(payload: bytes, mac: bytes, blockSize: nat)
    requires 1 <= blockSize <= 256
    ensures var s := PaddedPlaintext(payload, mac, blockSize);
      var paddingLen := |s| - |payload| - |mac|;
      1 <= paddingLen <= blockSize && |s| % blockSize == 0 && PaddingFound(s) == (paddingLen, true)
      && s[..|payload|] == payload && s[|payload|..|payload| + |mac|] == mac
  {
    PadToMultiple(|payload| + |mac|, blockSize);
  }

  /** Strips a header of the record it starts. */
  lemma RecordParts(header: bytes, body: bytes)
    requires |header| == RECORD_HEADER_LEN
    ensures var r := header[..3] + Uint16(|body|) + body;
      |r| == RECORD_HEADER_LEN + |body| && r[0] == header[0] && r[..3] == header[..3] && r[RECORD_HEADER_LEN..] == body
      && r[..RECORD_HEADER_LEN] == header[..3] + Uint16(|body|)
  {
  }

  /** The MAC check passes on exactly what the sender authenticated. */
  lemma MacAccepted(p: Primitives, h: Half, mac: Mac, header: bytes, record: bytes, payload: bytes, padded: bytes, paddingLen: nat)
    requires Lawful(p) && |header| == RECORD_HEADER_LEN && |record| >= RECORD_HEADER_LEN
    requires header == header[..3] + Uint16(|payload|) && record[..3] == header[..3] && record[0] == header[0]
    requires |padded| == |payload| + mac.size + paddingLen
    requires padded[..|payload|] == payload
    requires padded[|payload|..|payload| + mac.size] == RecordMac(p, mac, Sequence(h), header, payload)
    ensures AcceptMac(p, h, mac, record, padded, paddingLen, true) == Accept(h, payload, header[0])
  {
  }

  /** One record of each shape: what was sealed is what is opened, and both sides stay in step. */
  lemma RoundTrip(p: Primitives, sender: Half, receiver: Half, typ: byte, legacy: nat, payload: bytes, random: bytes)
    requires Lawful(p) && WellKeyed(sender.version, sender.cipher) && InStep(sender, receiver) && Sendable(typ, payload)
    requires receiver.seqNo < MAX_SEQUENCE
    ensures var header := Header(typ, legacy, |payload|);
      match Encrypt(p, sender, header, payload, random)
      case Fail(e) => e == ShortRandom && sender.cipher.Cbc?
      case Ok((sender', record)) =>
        |record| >= RECORD_HEADER_LEN && WellKeyed(sender'.version, sender'.cipher) &&
        match Decrypt(p, receiver, record)
        case Fail(_) => false
        case Ok((receiver', got)) => got == Opened(payload, typ) && InStep(sender', receiver')
  {
    var header := Header(typ, legacy, |payload|);
    match sender.cipher
    case NoCipher =>
      assert (header + payload)[RECORD_HEADER_LEN..] == payload;
    case Stream(key, position, mac) => StreamRoundTrip(p, sender, receiver, header, payload, random);
    case PrefixAead(key, prefix) => PrefixRoundTrip(p, sender, receiver, header, payload, random);
    case XorAead(key, mask) =>
      if sender.version == VERSION_TLS13 {
        Tls13RoundTrip(p, sender, receiver, header, payload, random);
      } else {
        XorRoundTrip(p, sender, receiver, header, payload, random);
      }
    case Cbc(key, blockSize, iv, mac) => CbcRoundTrip(p, sender, receiver, header, payload, random);
  }

  /** The conclusion of RoundTrip for one header. */
  ghost predicate Survives(p: Primitives, sender: Half, receiver: Half, header: bytes, payload: bytes, random: bytes)
    requires |header| == RECORD_HEADER_LEN && WellKeyed(sender.version, sender.cipher) && WellKeyed(receiver.version, receiver.cipher)
  {
    match Encrypt(p, sender, header, payload, random)
    case Fail(e) => e == ShortRandom && sender.cipher.Cbc?
    case Ok((sender', record)) =>
      |record| >= RECORD_HEADER_LEN && WellKeyed(sender'.version, sender'.cipher) &&
      match Decrypt(p, receiver, record)
      case Fail(_) => false
      case Ok((receiver', got)) => got == Opened(payload, header[0]) && InStep(sender', receiver')
  }

  ghost predicate Ready(p: Primitives, sender: Half, receiver: Half, header: bytes, payload: bytes) {
    && Lawful(p) && WellKeyed(sender.version, sender.cipher) && InStep(sender, receiver)
    && sender.seqNo == receiver.seqNo < MAX_SEQUENCE
    && |header| == RECORD_HEADER_LEN && header == header[..3] + Uint16(|payload|)
    && Sendable(header[0], payload)
    && (sender.version == VERSION_TLS13 ==> sender.cipher.XorAead?)
  }

  lemma StreamRoundTrip(p: Primitives, sender: Half, receiver: Half, header: bytes, payload: bytes, random: bytes)
    requires Ready(p, sender, receiver, header, payload) && sender.cipher.Stream?
    ensures Survives(p, sender, receiver, header, payload, random)
  {
    var Stream(key, position, mac) := sender.cipher;
    var tag := RecordMac(p, mac, Sequence(sender), header, payload);
    var body := payload + tag;
    var sealed := XorStream(p, key, position, body);
    var record := header[..3] + Uint16(|sealed|) + sealed;
    RecordParts(header, sealed);
    XorStreamCancels(p, key, position, body);
    var h := receiver.(cipher := Stream(key, position + |body|, mac));
    MacAccepted(p, h, mac, header, record, payload, body, 0);
  }

  lemma PrefixRoundTrip(p: Primitives, sender: Half, receiver: Half, header: bytes, payload: bytes, random: bytes)
    requires Ready(p, sender, receiver, header, payload) && sender.cipher.PrefixAead?
    ensures Survives(p, sender, receiver, header, payload, random)
  {
    var nonce := Sequence(sender);
    var sealed := p.seal(sender.cipher.key, InnerNonce(sender.cipher, nonce), nonce + header, payload);
    var body := nonce + sealed;
    RecordParts(header, body);
    assert body[..8] == nonce && body[8..] == sealed;
    assert nonce + header[..3] + Uint16(|payload|) == nonce + header;
  }

  lemma XorRoundTrip(p: Primitives, sender: Half, receiver: Half, header: bytes, payload: bytes, random: bytes)
    requires Ready(p, sender, receiver, header, payload) && sender.cipher.XorAead? && sender.version != VERSION_TLS13
    ensures Survives(p, sender, receiver, header, payload, random)
  {
    var nonce := Sequence(sender);
    var sealed := p.seal(sender.cipher.key, InnerNonce(sender.cipher, nonce), nonce + header, payload);
    RecordParts(header, sealed);
    assert nonce + header[..3] + Uint16(|payload|) == nonce + header;
  }

  lemma Tls13RoundTrip(p: Primitives, sender: Half, receiver: Half, header: bytes, payload: bytes, random: bytes)
    requires Ready(p, sender, receiver, header, payload) && sender.cipher.XorAead? && sender.version == VERSION_TLS13
    ensures Survives(p, sender, receiver, header, payload, random)
  {
    var inner := payload + [header[0]];
    var header13 := Tls13Header(header, |payload|);
    var sealed := p.seal(sender.cipher.key, InnerNonce(sender.cipher, Sequence(sender)), header13, inner);
    RecordParts(header13, sealed);
    assert header13[..3] + Uint16(|sealed|) == header13;
    assert StripZeros(inner) == |inner|;
    assert inner[..|inner| - 1] == payload;
  }

  /** The blocks of one CBC record and its IV. */
  function CbcPlaintext(p: Primitives, h: Half, header: bytes, payload: bytes): bytes
    requires h.cipher.Cbc? && 1 <= h.cipher.blockSize <= 256
  {
    PaddedPlaintext(payload, RecordMac(p, h.cipher.mac, Sequence(h), header, payload), h.cipher.blockSize)
  }

  lemma CbcLengths(p: Primitives, h: Half, header: bytes, payload: bytes, explicitLen: nat)
    requires Lawful(p) && h.cipher.Cbc? && 1 <= h.cipher.blockSize <= 256
    requires explicitLen == 0 || explicitLen == h.cipher.blockSize
    ensures var n := |CbcPlaintext(p, h, header, payload)|;
      var b := h.cipher.blockSize;
      n >= b && (explicitLen + n) % b == 0 && n >= RoundUp(h.cipher.mac.size + 1, b)
  {
    var b := h.cipher.blockSize;
    var n := |CbcPlaintext(p, h, header, payload)|;
    PaddingIsFound(payload, RecordMac(p, h.cipher.mac, Sequence(h), header, payload), b);
    DivMod(1, 0, b);
    DivMod(0, 0, b);
    MultiplesAdd(explicitLen, n, b);
    MultipleAboveRoundUp(n, h.cipher.mac.size + 1, b);
    MultipleAboveRoundUp(n, 1, b);
    RoundUpOfOne(b);
  }

  lemma RoundUpOfOne(b: int)
    requires b > 0
    ensures RoundUp(1, b) == b
  {
    if b > 1 {
      DivMod(0, 1, b);
      DivMod(0, b - 1, b);
    }
  }

  /** Decryption of explicit IV and blocks reduces to the padding and MAC checks on the plaintext. */
  lemma CbcOpens(p: Primitives, h: Half, record: bytes, explicit: bytes, blocks: bytes, plaintext: bytes)
    requires WellKeyed(h.version, h.cipher) && h.cipher.Cbc? && |record| >= RECORD_HEADER_LEN
    requires |explicit| == ExplicitNonceLen(h) && record[RECORD_HEADER_LEN..] == explicit + blocks
    requires (|explicit| + |blocks|) % h.cipher.blockSize == 0
    requires |blocks| >= RoundUp(h.cipher.mac.size + 1, h.cipher.blockSize)
    requires p.cbcDecrypt(h.cipher.key, h.cipher.blockSize, if explicit != [] then explicit else h.cipher.iv, blocks) == plaintext
    ensures Decrypt(p, h, record)
      == AcceptMac(p, h.(cipher := h.cipher.(iv := LastBlock(blocks, h.cipher.blockSize))), h.cipher.mac, record, plaintext,
                   PaddingFound(plaintext).0, PaddingFound(plaintext).1)
  {
    var body := explicit + blocks;
    assert body[..|explicit|] == explicit && body[|explicit|..] == blocks;
  }

  /** The receiver accepts the payload from the blocks a sender in the same state made. */
  lemma CbcDelivered(p: Primitives, h: Half, header: bytes, payload: bytes, explicit: bytes, blocks: bytes)
    requires Lawful(p) && WellKeyed(h.version, h.cipher) && h.cipher.Cbc? && |explicit| == ExplicitNonceLen(h)
    requires |header| == RECORD_HEADER_LEN && header == header[..3] + Uint16(|payload|)
    requires blocks == p.cbcEncrypt(h.cipher.key, h.cipher.blockSize, if explicit != [] then explicit else h.cipher.iv,
                                    CbcPlaintext(p, h, header, payload))
    ensures Decrypt(p, h, header[..3] + Uint16(|explicit + blocks|) + (explicit + blocks))
      == Accept(h.(cipher := h.cipher.(iv := LastBlock(blocks, h.cipher.blockSize))), payload, header[0])
    ensures |LastBlock(blocks, h.cipher.blockSize)| == h.cipher.blockSize
  {
    var record := header[..3] + Uint16(|explicit + blocks|) + (explicit + blocks);
    RecordParts(header, explicit + blocks);
    CbcRecordDelivered(p, h, header, payload, explicit, blocks, record);
  }

  lemma CbcRecordDelivered(p: Primitives, h: Half, header: bytes, payload: bytes, explicit: bytes, blocks: bytes, record: bytes)
    requires Lawful(p) && WellKeyed(h.version, h.cipher) && h.cipher.Cbc? && |explicit| == ExplicitNonceLen(h)
    requires |header| == RECORD_HEADER_LEN && header == header[..3] + Uint16(|payload|)
    requires blocks == p.cbcEncrypt(h.cipher.key, h.cipher.blockSize, if explicit != [] then explicit else h.cipher.iv,
                                    CbcPlaintext(p, h, header, payload))
    requires |record| >= RECORD_HEADER_LEN && record[..3] == header[..3] && record[0] == header[0]
    requires record[RECORD_HEADER_LEN..] == explicit + blocks
    ensures Decrypt(p, h, record)
      == Accept(h.(cipher := h.cipher.(iv := LastBlock(blocks, h.cipher.blockSize))), payload, header[0])
    ensures |LastBlock(blocks, h.cipher.blockSize)| == h.cipher.blockSize
  {
    CbcLengths(p, h, header, payload, |explicit|);
    CbcOpens(p, h, record, explicit, blocks, CbcPlaintext(p, h, header, payload));
    CbcAccepted(p, h.(cipher := h.cipher.(iv := LastBlock(blocks, h.cipher.blockSize))), h, header, payload, record);
  }

  /** Padding and MAC of the plaintext pass the checks. */
  lemma CbcAccepted(p: Primitives, h1: Half, h: Half, header: bytes, payload: bytes, record: bytes)
    requires Lawful(p) && WellKeyed(h.version, h.cipher) && h.cipher.Cbc? && Sequence(h1) == Sequence(h)
    requires |header| == RECORD_HEADER_LEN && header == header[..3] + Uint16(|payload|)
    requires |record| >= RECORD_HEADER_LEN && record[..3] == header[..3] && record[0] == header[0]
    ensures var plaintext := CbcPlaintext(p, h, header, payload);
      AcceptMac(p, h1, h.cipher.mac, record, plaintext, PaddingFound(plaintext).0, PaddingFound(plaintext).1)
        == Accept(h1, payload, header[0])
  {
    var mac := h.cipher.mac;
    var tag := RecordMac(p, mac, Sequence(h), header, payload);
    var plaintext := CbcPlaintext(p, h, header, payload);
    PaddingIsFound(payload, tag, h.cipher.blockSize);
    MacAccepted(p, h1, mac, header, record, payload, plaintext, |plaintext| - |payload| - |tag|);
  }

  lemma CbcRoundTrip(p: Primitives, sender: Half, receiver: Half, header: bytes, payload: bytes, random: bytes)
    requires Ready(p, sender, receiver, header, payload) && sender.cipher.Cbc?
    ensures Survives(p, sender, receiver, header, payload, random)
  {
    var explicitLen := ExplicitNonceLen(sender);
    if explicitLen == 0 || |random| == explicitLen {
      var explicit := if explicitLen > 0 then random else [];
      var blocks := p.cbcEncrypt(sender.cipher.key, sender.cipher.blockSize,
                                 if explicit != [] then explicit else sender.cipher.iv,
                                 CbcPlaintext(p, sender, header, payload));
      CbcDelivered(p, receiver, header, payload, explicit, blocks);
    }
  }

  // ---------- runs ----------

  /** What the sender puts into the stream. */
  datatype Item = Data(typ: byte, payload: bytes) | KeyChange(version: nat, cipher: Cipher)

  /** What travels: protected records, and the positions at which both sides install new keys. */
  datatype WireItem = Record(octets: bytes) | Install(version: nat, cipher: Cipher)

  datatype Event = Send(typ: byte, payload: bytes, random: bytes) | Change(version: nat, cipher: Cipher) | Deliver

  datatype System = System(
    sender: Half, receiver: Half, wire: seq<WireItem>, sent: seq<Item>, received: seq<Item>,
    nonces: seq<bytes>)          // nonces given to the inner AEAD by the sender in this epoch

  function InstallKeys(h: Half, version: nat, cipher: Cipher): Half { Half(version, cipher, 0) }

  /** The legacy version field written by writeRecordLocked. */
  function LegacyVersion(version: nat): nat {
    if version == 0 then 0x0301 else if version == VERSION_TLS13 then VERSION_TLS12 else version
  }

  function IsAead(cipher: Cipher): bool { cipher.PrefixAead? || cipher.XorAead? }

  predicate Allowed(e: Event) {
    match e
    case Send(typ, payload, _) => Sendable(typ, payload)
    case Change(version, cipher) => WellKeyed(version, cipher) && (version == VERSION_TLS13 ==> cipher.XorAead?)
    case Deliver => true
  }

  /** The receiver takes one item from the wire. */
  function Take(p: Primitives, receiver: Half, item: WireItem): Outcome<(Half, Item), Failure>
    requires WellKeyed(receiver.version, receiver.cipher)
  {
    match item
    case Install(version, cipher) => Ok((InstallKeys(receiver, version, cipher), KeyChange(version, cipher)))
    case Record(octets) =>
      if |octets| < RECORD_HEADER_LEN then Fail(BadRecordMac)
      else
        match Decrypt(p, receiver, octets)
        case Fail(e) => Fail(e)
        case Ok((receiver', got)) => Ok((receiver', Data(got.typ, got.plaintext)))
  }

  /** None when a side cannot go on: no randomness, a counter at its end, or a record that does not open. */
  function Step(p: Primitives, sys: System, e: Event): Option<System> {
    if !WellKeyed(sys.sender.version, sys.sender.cipher) || !WellKeyed(sys.receiver.version, sys.receiver.cipher) then None
    else
      match e
      case Send(typ, payload, random) => StepSend(p, sys, typ, payload, random)
      case Change(version, cipher) =>
        Some(sys.(sender := InstallKeys(sys.sender, version, cipher), wire := sys.wire + [Install(version, cipher)],
                  sent := sys.sent + [KeyChange(version, cipher)], nonces := []))
      case Deliver =>
        if sys.wire == [] then Some(sys)
        else
          match Take(p, sys.receiver, sys.wire[0])
          case Fail(_) => None
          case Ok((receiver', item)) =>
            Some(sys.(receiver := receiver', wire := sys.wire[1..], received := sys.received + [item]))
  }

  function StepSend(p: Primitives, sys: System, typ: byte, payload: bytes, random: bytes): Option<System>
    requires WellKeyed(sys.sender.version, sys.sender.cipher)
  {
    match Encrypt(p, sys.sender, Header(typ, LegacyVersion(sys.sender.version), |payload|), payload, random)
    case Fail(_) => None
    case Ok((sender', record)) =>
      Some(sys.(sender := sender', wire := sys.wire + [Record(record)], sent := sys.sent + [Data(typ, payload)],
                nonces := if IsAead(sys.sender.cipher)
                          then sys.nonces + [InnerNonce(sys.sender.cipher, Sequence(sys.sender))] else sys.nonces))
  }

  function Run(p: Primitives, sys: System, events: seq<Event>): Option<System>
    decreases |events|
  {
    if events == [] then Some(sys)
    else
      match Step(p, sys, events[0])
      case None => None
      case Some(next) => Run(p, next, events[1..])
  }

  /** Both directions start without a cipher. */
  function Start(version: nat): System {
    System(Half(version, NoCipher, 0), Half(version, NoCipher, 0), [], [], [], [])
  }

  datatype Drained = Drained(receiver: Half, items: seq<Item>)

  /** The receiver after everything on the wire, and what it will have read; None if something does not open. */
  function Drain(p: Primitives, receiver: Half, wire: seq<WireItem>): Option<Drained>
    requires WellKeyed(receiver.version, receiver.cipher)
    decreases |wire|
  {
    if wire == [] then Some(Drained(receiver, []))
    else
      match Take(p, receiver, wire[0])
      case Fail(_) => None
      case Ok((receiver', item)) =>
        if !WellKeyed(receiver'.version, receiver'.cipher) then None
        else
          match Drain(p, receiver', wire[1..])
          case None => None
          case Some(rest) => Some(rest.(items := [item] + rest.items))
  }

  /** The counter the receiver will have reached. */
  function CountTo(seqNo: nat, wire: seq<WireItem>): nat
    decreases |wire|
  {
    if wire == [] then seqNo else CountTo(if wire[0].Install? then 0 else seqNo + 1, wire[1..])
  }

  /**
    The lockstep: the receiver, once it has read what is on the wire, is in step with the
    sender and has read exactly what was sent.
   */
  ghost predicate Lockstep(p: Primitives, sys: System) {
    && WellKeyed(sys.sender.version, sys.sender.cipher) && WellKeyed(sys.receiver.version, sys.receiver.cipher)
    && (sys.sender.version == VERSION_TLS13 && sys.sender.cipher != NoCipher ==> sys.sender.cipher.XorAead?)
    && Drain(p, sys.receiver, sys.wire).Some?
    && var d := Drain(p, sys.receiver, sys.wire).value;
    && InStep(sys.sender, d.receiver)
    && (sys.sender.cipher != NoCipher ==> sys.sender.seqNo == CountTo(sys.receiver.seqNo, sys.wire))
    && sys.received + d.items == sys.sent
    && NonceLog(sys.sender, sys.nonces)
  }

  /** The nonces of this epoch are those of the counter values used so far. */
  ghost predicate NonceLog(h: Half, nonces: seq<bytes>)
    requires WellKeyed(h.version, h.cipher)
  {
    if IsAead(h.cipher) then
      |nonces| == h.seqNo <= MAX_SEQUENCE
      && forall i :: 0 <= i < |nonces| ==> nonces[i] == InnerNonce(h.cipher, BigEndian(i, 8))
    else nonces == []
  }

  /** One more item at the end of the wire is read last. */
  lemma {:induction false} DrainAppends(p: Primitives, receiver: Half, wire: seq<WireItem>, item: WireItem, last: Half, got: Item)
    requires WellKeyed(receiver.version, receiver.cipher) && Drain(p, receiver, wire).Some?
    requires WellKeyed(Drain(p, receiver, wire).value.receiver.version, Drain(p, receiver, wire).value.receiver.cipher)
    requires Take(p, Drain(p, receiver, wire).value.receiver, item) == Ok((last, got)) && WellKeyed(last.version, last.cipher)
    ensures Drain(p, receiver, wire + [item]) == Some(Drained(last, Drain(p, receiver, wire).value.items + [got]))
    decreases |wire|
  {
    if wire == [] {
      assert wire + [item] == [item] && [item][1..] == [];
      assert [got] + [] == [] + [got];
    } else {
      var (receiver', first) := Take(p, receiver, wire[0]).value;
      DrainAppends(p, receiver', wire[1..], item, last, got);
      assert (wire + [item])[1..] == wire[1..] + [item];
      var items := Drain(p, receiver', wire[1..]).value.items;
      assert [first] + (items + [got]) == [first] + items + [got];
    }
  }

  /** encrypt counts every record once there is a cipher, and keeps the cipher's keys. */
  lemma EncryptCounts(p: Primitives, h: Half, header: bytes, payload: bytes, random: bytes)
    requires |header| == RECORD_HEADER_LEN && WellKeyed(h.version, h.cipher) && Encrypt(p, h, header, payload, random).Ok?
    ensures var h' := Encrypt(p, h, header, payload, random).value.0;
      && h'.version == h.version
      && h'.seqNo == (if h.cipher == NoCipher then h.seqNo else h.seqNo + 1)
      && (h.cipher != NoCipher ==> h.seqNo < MAX_SEQUENCE)
      && (h.cipher.NoCipher? || IsAead(h.cipher) ==> h'.cipher == h.cipher)
      && (h'.cipher.NoCipher? <==> h.cipher.NoCipher?) && (IsAead(h'.cipher) <==> IsAead(h.cipher))
  {
  }

  /** One record sent: what comes out, and that the receiver in step takes it. */
  lemma Delivered(p: Primitives, sender: Half, receiver: Half, typ: byte, legacy: nat, payload: bytes, random: bytes)
      returns (sender': Half, record: bytes, last: Half)
    requires Lawful(p) && WellKeyed(sender.version, sender.cipher) && InStep(sender, receiver) && Sendable(typ, payload)
    requires receiver.seqNo < MAX_SEQUENCE
    requires Encrypt(p, sender, Header(typ, legacy, |payload|), payload, random).Ok?
    requires sender.version == VERSION_TLS13 && sender.cipher != NoCipher ==> sender.cipher.XorAead?
    ensures Encrypt(p, sender, Header(typ, legacy, |payload|), payload, random) == Ok((sender', record))
    ensures Take(p, receiver, Record(record)) == Ok((last, Data(typ, payload)))
    ensures last.seqNo <= receiver.seqNo + 1
    ensures InStep(sender', last) && WellKeyed(sender'.version, sender'.cipher) && WellKeyed(last.version, last.cipher)
  {
    RoundTrip(p, sender, receiver, typ, legacy, payload, random);
    var r := Encrypt(p, sender, Header(typ, legacy, |payload|), payload, random).value;
    sender', record := r.0, r.1;
    last := Decrypt(p, receiver, record).value.0;
  }

  lemma {:induction false} CountAppends(seqNo: nat, wire: seq<WireItem>, item: WireItem)
    ensures CountTo(seqNo, wire + [item]) == if item.Install? then 0 else CountTo(seqNo, wire) + 1
    decreases |wire|
  {
    if wire == [] {
      assert wire + [item] == [item] && [item][1..] == [];
    } else {
      assert (wire + [item])[1..] == wire[1..] + [item];
      CountAppends(if wire[0].Install? then 0 else seqNo + 1, wire[1..], item);
    }
  }

  lemma {:induction false} CountMonotone(a: nat, b: nat, wire: seq<WireItem>)
    requires a <= b
    ensures CountTo(a, wire) <= CountTo(b, wire)
    decreases |wire|
  {
    if wire != [] {
      CountMonotone(if wire[0].Install? then 0 else a + 1, if wire[0].Install? then 0 else b + 1, wire[1..]);
    }
  }

  lemma TakeCounts(p: Primitives, receiver: Half, item: WireItem)
    requires WellKeyed(receiver.version, receiver.cipher) && Take(p, receiver, item).Ok?
    ensures Take(p, receiver, item).value.0.seqNo <= if item.Install? then 0 else receiver.seqNo + 1
  {
  }

  lemma {:induction false} DrainCounts(p: Primitives, receiver: Half, wire: seq<WireItem>)
    requires WellKeyed(receiver.version, receiver.cipher) && Drain(p, receiver, wire).Some?
    ensures Drain(p, receiver, wire).value.receiver.seqNo <= CountTo(receiver.seqNo, wire)
    decreases |wire|
  {
    if wire != [] {
      TakeCounts(p, receiver, wire[0]);
      var receiver' := Take(p, receiver, wire[0]).value.0;
      DrainCounts(p, receiver', wire[1..]);
      CountMonotone(receiver'.seqNo, if wire[0].Install? then 0 else receiver.seqNo + 1, wire[1..]);
    }
  }

  lemma {:induction false} CountWithoutInstall(seqNo: nat, wire: seq<WireItem>)
    requires forall i :: 0 <= i < |wire| ==> wire[i].Record?
    ensures CountTo(seqNo, wire) == seqNo + |wire|
    decreases |wire|
  {
    if wire != [] {
      CountWithoutInstall(seqNo + 1, wire[1..]);
    }
  }

  /** Everything the receiver will have counted once the wire is empty. */
  function ReceiverAtEnd(p: Primitives, sys: System): Half {
    if WellKeyed(sys.receiver.version, sys.receiver.cipher) && Drain(p, sys.receiver, sys.wire).Some?
    then Drain(p, sys.receiver, sys.wire).value.receiver else sys.receiver
  }

  /** The system after a record was sent, from what encrypt made of it. */
  lemma SentSystem(p: Primitives, sys: System, e: Event, sender': Half, record: bytes) returns (next: System)
    requires WellKeyed(sys.sender.version, sys.sender.cipher) && WellKeyed(sys.receiver.version, sys.receiver.cipher) && e.Send?
    requires Encrypt(p, sys.sender, Header(e.typ, LegacyVersion(sys.sender.version), |e.payload|), e.payload, e.random) == Ok((sender', record))
    ensures Step(p, sys, e) == Some(next)
    ensures next.sender == sender' && next.receiver == sys.receiver && next.wire == sys.wire + [Record(record)]
    ensures next.sent == sys.sent + [Data(e.typ, e.payload)] && next.received == sys.received
    ensures next.nonces == if IsAead(sys.sender.cipher)
      then sys.nonces + [InnerNonce(sys.sender.cipher, Sequence(sys.sender))] else sys.nonces
  {
    next := Step(p, sys, e).value;
  }

  /** The log goes on with the nonce of the record sent. */
  lemma NonceLogged(h: Half, h': Half, nonces: seq<bytes>)
    requires WellKeyed(h.version, h.cipher) && WellKeyed(h'.version, h'.cipher) && NonceLog(h, nonces)
    requires if IsAead(h.cipher) then h'.cipher == h.cipher && h'.seqNo == h.seqNo + 1 && h.seqNo < MAX_SEQUENCE else !IsAead(h'.cipher)
    ensures NonceLog(h', if IsAead(h.cipher) then nonces + [InnerNonce(h.cipher, Sequence(h))] else nonces)
  {
    if IsAead(h.cipher) {
      var last := InnerNonce(h.cipher, Sequence(h));
      forall i | 0 <= i <= |nonces| ensures (nonces + [last])[i] == InnerNonce(h.cipher, BigEndian(i, 8)) {
        assert (nonces + [last])[i] == if i < |nonces| then nonces[i] else last;
      }
    }
  }

  lemma SendKeeps(p: Primitives, sys: System, e: Event)
    requires Lawful(p) && Lockstep(p, sys) && e.Send? && Allowed(e) && Step(p, sys, e).Some?
    requires ReceiverAtEnd(p, sys).seqNo < MAX_SEQUENCE
    ensures Lockstep(p, Step(p, sys, e).value)
    ensures ReceiverAtEnd(p, Step(p, sys, e).value).seqNo <= ReceiverAtEnd(p, sys).seqNo + 1
  {
    var d := Drain(p, sys.receiver, sys.wire).value;
    var legacy := LegacyVersion(sys.sender.version);
    var sender', record, last := Delivered(p, sys.sender, d.receiver, e.typ, legacy, e.payload, e.random);
    EncryptCounts(p, sys.sender, Header(e.typ, legacy, |e.payload|), e.payload, e.random);
    var next := SentSystem(p, sys, e, sender', record);
    DrainAppends(p, sys.receiver, sys.wire, Record(record), last, Data(e.typ, e.payload));
    CountAppends(sys.receiver.seqNo, sys.wire, Record(record));
    NonceLogged(sys.sender, sender', sys.nonces);
    assert sys.received + (d.items + [Data(e.typ, e.payload)]) == sys.sent + [Data(e.typ, e.payload)];
  }

  lemma ChangeKeeps(p: Primitives, sys: System, e: Event)
    requires Lockstep(p, sys) && e.Change? && Allowed(e)
    ensures Step(p, sys, e).Some? && Lockstep(p, Step(p, sys, e).value)
    ensures ReceiverAtEnd(p, Step(p, sys, e).value).seqNo == 0
  {
    var d := Drain(p, sys.receiver, sys.wire).value;
    var item := KeyChange(e.version, e.cipher);
    DrainAppends(p, sys.receiver, sys.wire, Install(e.version, e.cipher), InstallKeys(d.receiver, e.version, e.cipher), item);
    CountAppends(sys.receiver.seqNo, sys.wire, Install(e.version, e.cipher));
    assert sys.received + (d.items + [item]) == sys.sent + [item];
  }

  lemma DeliverKeeps(p: Primitives, sys: System)
    requires Lockstep(p, sys)
    ensures Step(p, sys, Deliver).Some? && Lockstep(p, Step(p, sys, Deliver).value)
    ensures ReceiverAtEnd(p, Step(p, sys, Deliver).value) == ReceiverAtEnd(p, sys)
  {
    if sys.wire != [] {
      var (receiver', item) := Take(p, sys.receiver, sys.wire[0]).value;
      var rest := Drain(p, receiver', sys.wire[1..]).value;
      assert sys.received + ([item] + rest.items) == sys.received + [item] + rest.items;
      TakeCounts(p, sys.receiver, sys.wire[0]);
      DrainCounts(p, receiver', sys.wire[1..]);
      CountMonotone(receiver'.seqNo, if sys.wire[0].Install? then 0 else sys.receiver.seqNo + 1, sys.wire[1..]);
    }
  }

  lemma {:induction false} RunKeeps(p: Primitives, sys: System, events: seq<Event>, before: nat)
    requires Lawful(p) && Lockstep(p, sys) && (forall e :: e in events ==> Allowed(e))
    requires ReceiverAtEnd(p, sys).seqNo <= before && before + |events| <= MAX_SEQUENCE
    requires Run(p, sys, events).Some?
    ensures Lockstep(p, Run(p, sys, events).value)
    decreases |events|
  {
    if events != [] {
      var e := events[0];
      assert Allowed(e);
      match e {
        case Send(_, _, _) => SendKeeps(p, sys, e);
        case Change(_, _) => ChangeKeeps(p, sys, e);
        case Deliver => DeliverKeeps(p, sys);
      }
      RunKeeps(p, Step(p, sys, e).value, events[1..], before + 1);
    }
  }

  /**
    Main result. In every run of sends, key changes and deliveries, for all cipher shapes:
    what was received is a prefix of what was sent, in order and unchanged, and only what is
    on the wire is missing; while both sides are in one epoch the two counters differ by the
    number of records in flight; and no two records of an epoch used the same AEAD nonce.
   */
  lemma ReceiverFollowsSender(p: Primitives, version: nat, events: seq<Event>)
    requires Lawful(p) && (forall e :: e in events ==> Allowed(e)) && |events| <= MAX_SEQUENCE
    requires Run(p, Start(version), events).Some?
    ensures var sys := Run(p, Start(version), events).value;
      && sys.received <= sys.sent && |sys.sent| == |sys.received| + |sys.wire|
      && (sys.sender.cipher != NoCipher && (forall i :: 0 <= i < |sys.wire| ==> sys.wire[i].Record?) ==>
            sys.sender.seqNo == sys.receiver.seqNo + |sys.wire|)
      && (forall i, j :: 0 <= i < j < |sys.nonces| ==> sys.nonces[i] != sys.nonces[j])
  {
    RunKeeps(p, Start(version), events, 0);
    var sys := Run(p, Start(version), events).value;
    DrainLength(p, sys.receiver, sys.wire);
    if forall i :: 0 <= i < |sys.wire| ==> sys.wire[i].Record? {
      CountWithoutInstall(sys.receiver.seqNo, sys.wire);
    }
    if IsAead(sys.sender.cipher) {
      forall i, j | 0 <= i < j < |sys.nonces| ensures sys.nonces[i] != sys.nonces[j] {
        NoncesDiffer(sys.sender.cipher, i, j);
      }
    }
  }

  /** Nothing stops a delivery: in every run each record on the wire opens. */
  lemma DeliveryNeverFails(p: Primitives, version: nat, events: seq<Event>)
    requires Lawful(p) && (forall e :: e in events ==> Allowed(e)) && |events| <= MAX_SEQUENCE
    requires Run(p, Start(version), events).Some?
    ensures Step(p, Run(p, Start(version), events).value, Deliver).Some?
  {
    RunKeeps(p, Start(version), events, 0);
    DeliverKeeps(p, Run(p, Start(version), events).value);
  }

  lemma {:induction false} DrainLength(p: Primitives, receiver: Half, wire: seq<WireItem>)
    requires WellKeyed(receiver.version, receiver.cipher) && Drain(p, receiver, wire).Some?
    ensures |Drain(p, receiver, wire).value.items| == |wire|
    decreases |wire|
  {
    if wire != [] {
      DrainLength(p, Take(p, receiver, wire[0]).value.0, wire[1..]);
    }
  }

  lemma NoncesDiffer(cipher: Cipher, i: nat, j: nat)
    requires cipher.PrefixAead? || (cipher.XorAead? && |cipher.mask| == 12)
    requires i < j <= MAX_SEQUENCE
    ensures InnerNonce(cipher, BigEndian(i, 8)) != InnerNonce(cipher, BigEndian(j, 8))
  {
    var a, b := BigEndian(i, 8), BigEndian(j, 8);
    Pow256Of8();
    if InnerNonce(cipher, a) == InnerNonce(cipher, b) {
      match cipher {
        case PrefixAead(_, prefix) =>
          assert a == (prefix + a)[|prefix|..] == b;
        case XorAead(_, mask) =>
          forall k | 0 <= k < 8 ensures a[k] == b[k] {
            assert XorAt4(mask, a)[k + 4] == XorAt4(mask, b)[k + 4];
            XorInjective(mask[k + 4], a[k], b[k]);
          }
      }
      BigEndianInjective(i, j, 8);
    }
  }
}
