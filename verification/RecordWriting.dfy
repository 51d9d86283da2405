/**
  Splitting a write into records (maxPayloadSizeForWrite, writeRecordLocked) as a function of the
  writing side's state. random(i) is what the i-th read of the random source yields.
 */
module RecordWriting {
  import opened Outcomes
  import opened Octets
  import opened Arithmetic
  import opened RecordProtection

  const VERSION_TLS10: nat := 0x0301
  const TCP_MSS_ESTIMATE: nat := 1208
  const RECORD_SIZE_BOOST_THRESHOLD: nat := 128 * 1024
  const LAST_GROWING_PACKET: nat := 1000
  const LARGEST_MAC: nat := 64

  datatype WriteError = Unencryptable(reason: Failure) | NoCipherSpec

  datatype Writer = Writer(
    half: Half, next: Option<Cipher>, vers: nat, dynamicDisabled: bool,
    packetsSent: nat, bytesSent: nat, buffering: bool, draws: nat)

  predicate PowerOfTwo(b: nat) { b == 1 || (b >= 2 && b % 2 == 0 && PowerOfTwo(b / 2)) }

  predicate Sized(cipher: Cipher) {
    match cipher
    case Stream(_, _, mac) => mac.size <= LARGEST_MAC
    case Cbc(_, b, _, mac) => mac.size <= LARGEST_MAC && PowerOfTwo(b) && b <= 256
    case _ => true
  }

  /** The version travels with the keys; MACs are no longer than any hash, blocks are powers of two. */
  predicate Valid(w: Writer) {
    && WellKeyed(w.half.version, w.half.cipher) && Sized(w.half.cipher)
    && (w.half.cipher != NoCipher ==> w.half.version == w.vers)
    && (w.next.Some? ==> WellKeyed(w.half.version, w.next.value) && Sized(w.next.value) && w.half.version == w.vers)
  }

  /** x &^ y on natural numbers: the bits of x that y does not have. */
  function AndNot(x: nat, y: nat): (r: nat)
    ensures r <= x
  {
    if x == 0 then 0 else 2 * AndNot(x / 2, y / 2) + (if y % 2 == 1 then 0 else x % 2)
  }

  lemma {:induction false} AndNotZero(x: nat)
    ensures AndNot(x, 0) == x
  {
    if x > 0 {
      AndNotZero(x / 2);
    }
  }

  lemma HalfMod(x: nat, b: nat)
    requires b >= 2 && b % 2 == 0
    ensures x % b == 2 * ((x / 2) % (b / 2)) + x % 2
  {
    var c := b / 2;
    var q, r := (x / 2) / c, (x / 2) % c;
    Decompose(x / 2, c);
    assert q * b == 2 * (q * c) by { assert b == 2 * c; }
    DivMod(q, 2 * r + x % 2, b);
  }

  /** Clearing the low bits rounds down to a multiple. */
  lemma {:induction false} AndNotRoundsDown(x: nat, b: nat)
    requires PowerOfTwo(b)
    ensures AndNot(x, b - 1) == x - x % b
    decreases b
  {
    if b == 1 {
      AndNotZero(x);
    } else {
      HalfMod(x, b);
      AndNotRoundsDown(x / 2, b / 2);
      assert (b - 1) / 2 == b / 2 - 1 && (b - 1) % 2 == 1;
      assert AndNot(x, b - 1) == 2 * AndNot(x / 2, b / 2 - 1);
    }
  }

  /** What fits in one TCP segment, by the overheads of the cipher. */
  function SegmentPayload(h: Half, vers: nat): int
    requires WellKeyed(h.version, h.cipher)
  {
    var room := TCP_MSS_ESTIMATE - RECORD_HEADER_LEN - ExplicitNonceLen(h);
    var n := match h.cipher
      case NoCipher => room
      case Stream(_, _, mac) => room - mac.size
      case PrefixAead(_, _) => room - AEAD_OVERHEAD
      case XorAead(_, _) => room - AEAD_OVERHEAD
      case Cbc(_, blockSize, _, mac) => AndNot(room, blockSize - 1) - 1 - mac.size;
    if vers == VERSION_TLS13 then n - 1 else n
  }

  predicate Growing(w: Writer, typ: byte) {
    !w.dynamicDisabled && typ == APPLICATION_DATA && w.bytesSent < RECORD_SIZE_BOOST_THRESHOLD
  }

  /** maxPayloadSizeForWrite; it counts a packet whenever record sizes are growing. */
  function MaxPayload(w: Writer, typ: byte): int
    requires WellKeyed(w.half.version, w.half.cipher)
  {
    if !Growing(w, typ) || w.packetsSent > LAST_GROWING_PACKET then MAX_PLAINTEXT
    else
      var n := SegmentPayload(w.half, w.vers) * (w.packetsSent + 1);
      if n > MAX_PLAINTEXT then MAX_PLAINTEXT else n
  }

  function CountPacket(w: Writer, typ: byte): Writer {
    if Growing(w, typ) then w.(packetsSent := w.packetsSent + 1) else w
  }

  /** The room left for payload is positive, so that every pass of the loop gets on. */
  lemma SegmentPayloadPositive(w: Writer)
    requires Valid(w)
    ensures SegmentPayload(w.half, w.vers) >= 1
  {
    if w.half.cipher.Cbc? {
      AndNotRoundsDown(TCP_MSS_ESTIMATE - RECORD_HEADER_LEN - ExplicitNonceLen(w.half), w.half.cipher.blockSize);
    }
  }

  lemma MaxPayloadInRange(w: Writer, typ: byte)
    requires Valid(w)
    ensures 1 <= MaxPayload(w, typ) <= MAX_PLAINTEXT
  {
    SegmentPayloadPositive(w);
    MulAtLeast(w.packetsSent + 1, SegmentPayload(w.half, w.vers));
    Commutes(w.packetsSent + 1, SegmentPayload(w.half, w.vers));
  }

  function HeaderFor(typ: byte, vers: nat, m: nat): (h: bytes)
    ensures |h| == RECORD_HEADER_LEN
  {
    var v := if vers == 0 then VERSION_TLS10 else if vers == VERSION_TLS13 then VERSION_TLS12 else vers;
    [typ] + Uint16(v) + Uint16(m)
  }

  function PieceLen(w: Writer, typ: byte, data: bytes): (m: nat)
    requires Valid(w) && data != []
    ensures 1 <= m <= |data| && m <= MAX_PLAINTEXT && m <= MaxPayload(w, typ)
  {
    MaxPayloadInRange(w, typ);
    if |data| > MaxPayload(w, typ) then MaxPayload(w, typ) else |data|
  }

  /** Record encryption as the writer uses it: state, plaintext header, payload, random octets. */
  datatype Encryptor = Encryptor(encrypt: (Half, bytes, bytes, bytes) -> Encrypted)

  /** What the writer relies on: encryption keeps version, keys and sizes, and records have the length they should. */
  ghost predicate Sound(e: Encryptor) {
    forall h: Half, header: bytes, payload: bytes, random: bytes
      | WellKeyed(h.version, h.cipher) && |header| == RECORD_HEADER_LEN && e.encrypt(h, header, payload, random).Ok? ::
        KeepsKeys(h, e.encrypt(h, header, payload, random).value.0)
        && |e.encrypt(h, header, payload, random).value.1| == RecordLen(h, |payload|)
  }

  predicate KeepsKeys(h: Half, h1: Half) {
    && h1.version == h.version && WellKeyed(h1.version, h1.cipher)
    && (Sized(h.cipher) ==> Sized(h1.cipher)) && (h1.cipher == NoCipher <==> h.cipher == NoCipher)
  }

  /** halfConn.encrypt with the given primitives. */
  function EncryptorOf(p: Primitives): Encryptor {
    Encryptor((h: Half, header: bytes, payload: bytes, random: bytes) =>
      if |header| == RECORD_HEADER_LEN && WellKeyed(h.version, h.cipher) then Encrypt(p, h, header, payload, random) else Fail(ShortRandom))
  }

  lemma EncryptorOfSound(p: Primitives)
    requires Lawful(p)
    ensures Sound(EncryptorOf(p))
  {
    forall h: Half, header: bytes, payload: bytes, random: bytes
      | WellKeyed(h.version, h.cipher) && |header| == RECORD_HEADER_LEN && EncryptorOf(p).encrypt(h, header, payload, random).Ok?
      ensures KeepsKeys(h, EncryptorOf(p).encrypt(h, header, payload, random).value.0)
      ensures |EncryptorOf(p).encrypt(h, header, payload, random).value.1| == RecordLen(h, |payload|)
    {
      EncryptKeepsKeys(p, h, header, payload, random);
      EncryptLen(p, h, header, payload, random);
    }
  }

  /** The writer after a piece went out as a record. */
  function Sent(w: Writer, typ: byte, half: Half, record: bytes): Writer {
    var w1 := CountPacket(w, typ);
    w1.(half := half, draws := w.draws + 1, bytesSent := if w.buffering then w.bytesSent else w.bytesSent + |record|)
  }

  /** What a write put on the wire: the pieces and their records, in order. */
  datatype Written = Written(writer: Writer, pieces: seq<bytes>, records: seq<bytes>, error: Option<WriteError>)

  /** One pass of the loop: a piece of m octets went out as a record, or the write has failed. */
  datatype Pass = Went(m: nat, record: bytes, writer: Writer) | Stuck(error: WriteError)

  function WriteOne(e: Encryptor, random: nat -> bytes, w: Writer, typ: byte, data: bytes): (r: Pass)
    requires Sound(e) && Valid(w) && data != []
    ensures r.Went? ==>
      && 1 <= r.m <= |data| && r.m <= MAX_PLAINTEXT && r.m <= MaxPayload(w, typ)
      && Valid(r.writer) && |r.record| == RecordLen(w.half, r.m) && r.writer == Sent(w, typ, r.writer.half, r.record)
  {
    var m := PieceLen(w, typ, data);
    match e.encrypt(w.half, HeaderFor(typ, w.vers, m), data[..m], random(w.draws))
    case Fail(reason) => Stuck(Unencryptable(reason))
    case Ok((half, record)) => Went(m, record, Sent(w, typ, half, record))
  }

  /** The loop of writeRecordLocked. */
  function Write(e: Encryptor, random: nat -> bytes, w: Writer, typ: byte, data: bytes): (r: Written)
    requires Sound(e) && Valid(w)
    ensures Valid(r.writer) && |r.records| == |r.pieces|
    decreases |data|
  {
    if data == [] then Written(w, [], [], None)
    else
      match WriteOne(e, random, w, typ, data)
      case Stuck(error) => Written(w, [], [], Some(error))
      case Went(m, record, w1) => Prepend(data[..m], record, Write(e, random, w1, typ, data[m..]))
  }

  function Prepend(piece: bytes, record: bytes, rest: Written): Written {
    Written(rest.writer, [piece] + rest.pieces, [record] + rest.records, rest.error)
  }

  lemma EncryptKeepsKeys(p: Primitives, h: Half, header: bytes, payload: bytes, random: bytes)
    requires Lawful(p) && |header| == RECORD_HEADER_LEN && WellKeyed(h.version, h.cipher)
    requires Encrypt(p, h, header, payload, random).Ok?
    ensures KeepsKeys(h, Encrypt(p, h, header, payload, random).value.0)
  {
    if h.cipher.Cbc? {
      CbcKeepsKeys(p, h, header, payload, random);
    }
  }

  lemma CbcKeepsKeys(p: Primitives, h: Half, header: bytes, payload: bytes, random: bytes)
    requires Lawful(p) && |header| == RECORD_HEADER_LEN && WellKeyed(h.version, h.cipher) && h.cipher.Cbc?
    requires Encrypt(p, h, header, payload, random).Ok?
    ensures var h1 := Encrypt(p, h, header, payload, random).value.0;
      && h1.version == h.version && h1.cipher.Cbc? && |h1.cipher.iv| == h.cipher.blockSize
      && h1.cipher.blockSize == h.cipher.blockSize && h1.cipher.mac == h.cipher.mac
  {
    var n := |payload| + h.cipher.mac.size;
    PadToMultiple(n, h.cipher.blockSize);
    PadAtLeastBlock(n + (h.cipher.blockSize - n % h.cipher.blockSize), h.cipher.blockSize);
  }

  function Concat(pieces: seq<bytes>): bytes {
    if pieces == [] then [] else pieces[0] + Concat(pieces[1..])
  }

  /** The pieces, one after the other, are the data; a write that fails has sent a proper prefix of it. */
  lemma {:induction false} PiecesAreTheData(e: Encryptor, random: nat -> bytes, w: Writer, typ: byte, data: bytes)
    requires Sound(e) && Valid(w)
    ensures var r := Write(e, random, w, typ, data);
      if r.error.None? then Concat(r.pieces) == data else Concat(r.pieces) < data
    decreases |data|
  {
    if data != [] {
      match WriteOne(e, random, w, typ, data)
      case Stuck(_) =>
      case Went(m, _, w1) =>
        PiecesAreTheData(e, random, w1, typ, data[m..]);
        assert data == data[..m] + data[m..];
        ConcatCons(data[..m], Write(e, random, w1, typ, data[m..]).pieces);
    }
  }

  lemma ConcatCons(piece: bytes, rest: seq<bytes>)
    ensures Concat([piece] + rest) == piece + Concat(rest)
  {
    assert ([piece] + rest)[1..] == rest;
  }

  /** Every piece is 1 to 16384 octets long. */
  lemma {:induction false} PiecesInRange(e: Encryptor, random: nat -> bytes, w: Writer, typ: byte, data: bytes, i: nat)
    requires Sound(e) && Valid(w) && i < |Write(e, random, w, typ, data).pieces|
    ensures 1 <= |Write(e, random, w, typ, data).pieces[i]| <= MAX_PLAINTEXT
    decreases |data|
  {
    var Went(m, record, w1) := WriteOne(e, random, w, typ, data);
    if i > 0 {
      PiecesInRange(e, random, w1, typ, data[m..], i - 1);
    }
  }

  // ---------- how long the records are ----------

  /** The length of a record of the given payload length, header included. */
  function RecordLen(h: Half, m: nat): int
    requires WellKeyed(h.version, h.cipher)
  {
    RECORD_HEADER_LEN + ExplicitNonceLen(h) +
    match h.cipher
    case NoCipher => m
    case Stream(_, _, mac) => m + mac.size
    case PrefixAead(_, _) => m + AEAD_OVERHEAD
    case XorAead(_, _) => (if h.version == VERSION_TLS13 then m + 1 else m) + AEAD_OVERHEAD
    case Cbc(_, b, _, mac) => m + mac.size + (b - (m + mac.size) % b)
  }

  lemma EncryptLen(p: Primitives, h: Half, header: bytes, payload: bytes, random: bytes)
    requires Lawful(p) && |header| == RECORD_HEADER_LEN && WellKeyed(h.version, h.cipher)
    requires Encrypt(p, h, header, payload, random).Ok?
    ensures |Encrypt(p, h, header, payload, random).value.1| == RecordLen(h, |payload|)
  {
  }

  /** Whatever the cipher, k times a segment's payload makes a record of at most k segments. */
  lemma FitsInSegments(h: Half, vers: nat, m: nat, k: nat)
    requires WellKeyed(h.version, h.cipher) && Sized(h.cipher) && (h.cipher != NoCipher ==> h.version == vers)
    requires k >= 1 && m <= SegmentPayload(h, vers) * k
    ensures RecordLen(h, m) <= TCP_MSS_ESTIMATE * k
  {
    var s := SegmentPayload(h, vers);
    if h.cipher.Cbc? {
      CbcFitsInSegments(h, m, k);
    } else {
      var overhead := RecordLen(h, 0);
      assert s + overhead <= TCP_MSS_ESTIMATE;
      AtMostTimes(overhead, k);
      Distributes(s, overhead, k);
      TimesMonotone(s + overhead, TCP_MSS_ESTIMATE, k);
    }
  }

  lemma AtMostTimes(a: nat, k: nat)
    requires k >= 1
    ensures a <= a * k
  {
    TimesMonotone(1, k, a);
    Commutes(a, k);
  }

  lemma {:induction false} TimesMonotone(a: int, b: int, k: nat)
    requires a <= b
    ensures a * k <= b * k
  {
    if k > 0 {
      TimesMonotone(a, b, k - 1);
      assert a * k == a * (k - 1) + a && b * k == b * (k - 1) + b;
    }
  }

  lemma CbcFitsInSegments(h: Half, m: nat, k: nat)
    requires h.cipher.Cbc? && WellKeyed(h.version, h.cipher) && Sized(h.cipher)
    requires k >= 1 && m <= SegmentPayload(h, h.version) * k
    ensures RecordLen(h, m) <= TCP_MSS_ESTIMATE * k
  {
    var b, mac, e := h.cipher.blockSize, h.cipher.mac.size, ExplicitNonceLen(h);
    var room: nat := TCP_MSS_ESTIMATE - RECORD_HEADER_LEN - e;
    var blocks := room - room % b;
    AndNotRoundsDown(room, b);
    AtMostTimes(mac + 1, k);
    Distributes(blocks, -(mac + 1), k);
    assert (-(mac + 1)) * k == -((mac + 1) * k);
    assert m + mac + 1 <= blocks * k;
    WholeBlocks(room, b, k);
    PadBelowMultiple(m + mac, blocks * k, b);
    AtMostTimes(RECORD_HEADER_LEN + e, k);
    Distributes(blocks, RECORD_HEADER_LEN + e, k);
    TimesMonotone(blocks + RECORD_HEADER_LEN + e, TCP_MSS_ESTIMATE, k);
  }

  lemma WholeBlocks(room: nat, b: nat, k: nat)
    requires b > 0
    ensures ((room - room % b) * k) % b == 0
  {
    Decompose(room, b);
    var q := room / b;
    assert (q * b) * k == (q * k) * b;
    DivMod(q * k, 0, b);
  }

  /** Padding stops at the first multiple above, so below any multiple above. */
  lemma PadBelowMultiple(a: nat, limit: nat, b: nat)
    requires b > 0 && limit % b == 0 && a < limit
    ensures a + (b - a % b) <= limit
  {
    MultipleAboveRoundUp(limit, a + 1, b);
    RoundUpLeast(a + 1, b);
    PadToMultiple(a, b);
    Decompose(a, b);
    MultipleAboveRoundUp(a + (b - a % b), a + 1, b);
    if RoundUp(a + 1, b) < a + (b - a % b) {
      var q := a / b;
      Distributes(q, 1, b);
      Decompose(RoundUp(a + 1, b), b);
      DivMod(q, RoundUp(a + 1, b) - q * b, b);
    }
  }

  function TotalLen(records: seq<bytes>): nat {
    if records == [] then 0 else |records[0]| + TotalLen(records[1..])
  }

  /** Record i of a write is still in the growth phase: what was sent before it stays under the threshold. */
  predicate StillGrowing(w: Writer, typ: byte, records: seq<bytes>, i: nat)
    requires i <= |records|
  {
    && !w.dynamicDisabled && typ == APPLICATION_DATA
    && w.packetsSent + i <= LAST_GROWING_PACKET
    && w.bytesSent + (if w.buffering then 0 else TotalLen(records[..i])) < RECORD_SIZE_BOOST_THRESHOLD
  }

  lemma GrowsOn(w: Writer, typ: byte, half: Half, record: bytes, rest: seq<bytes>, i: nat)
    requires 1 <= i <= |rest| && StillGrowing(w, typ, [record] + rest, i)
    ensures StillGrowing(Sent(w, typ, half, record), typ, rest, i - 1)
    ensures Sent(w, typ, half, record).packetsSent == w.packetsSent + 1
  {
    var all := [record] + rest;
    assert all[..i][0] == record && all[..i][1..] == rest[..i - 1];
  }

  /** Over a whole write, and so over any number of writes: packet number k fits in k segments. */
  lemma {:induction false} RecordsFitInSegments(e: Encryptor, random: nat -> bytes, w: Writer, typ: byte, data: bytes, i: nat)
    requires Sound(e) && Valid(w)
    requires i < |Write(e, random, w, typ, data).records| && StillGrowing(w, typ, Write(e, random, w, typ, data).records, i)
    ensures |Write(e, random, w, typ, data).records[i]| <= TCP_MSS_ESTIMATE * (w.packetsSent + i + 1)
    decreases |data|
  {
    var Went(m, record, w1) := WriteOne(e, random, w, typ, data);
    if i == 0 {
      FitsInSegments(w.half, w.vers, m, w.packetsSent + 1);
    } else {
      GrowsOn(w, typ, w1.half, record, Write(e, random, w1, typ, data[m..]).records, i);
      RecordsFitInSegments(e, random, w1, typ, data[m..], i - 1);
    }
  }

  lemma RecordLenBounded(w: Writer, m: nat)
    requires Valid(w) && m <= MAX_PLAINTEXT
    ensures RecordLen(w.half, m) <= LongestRecord(w.vers)
  {
    if w.half.cipher.Cbc? {
      PadToMultiple(m + w.half.cipher.mac.size, w.half.cipher.blockSize);
    }
  }

  function LongestRecord(vers: nat): nat {
    RECORD_HEADER_LEN + (if vers == VERSION_TLS13 then MAX_PLAINTEXT + 256 else MAX_CIPHERTEXT)
  }

  /** No record is longer than a reader accepts. */
  lemma {:induction false} RecordsAreNotOversized(e: Encryptor, random: nat -> bytes, w: Writer, typ: byte, data: bytes, i: nat)
    requires Sound(e) && Valid(w) && i < |Write(e, random, w, typ, data).records|
    ensures |Write(e, random, w, typ, data).records[i]| <= LongestRecord(w.vers)
    decreases |data|
  {
    var Went(m, record, w1) := WriteOne(e, random, w, typ, data);
    if i == 0 {
      RecordLenBounded(w, m);
    } else {
      RecordsAreNotOversized(e, random, w1, typ, data[m..], i - 1);
    }
  }
}
