/**
  Record protection (halfConn.encrypt and halfConn.decrypt) as functions of one direction's
  state. The ciphers and MACs themselves are parameters, of which only the laws in Lawful
  are used.
 */
module RecordProtection {
  import opened Outcomes
  import opened Octets
  import opened Padding
  import opened Arithmetic

  const VERSION_TLS11: nat := 0x0302
  const VERSION_TLS12: nat := 0x0303
  const VERSION_TLS13: nat := 0x0304
  const CHANGE_CIPHER_SPEC: byte := 20
  const APPLICATION_DATA: byte := 23
  const MAX_PLAINTEXT: nat := 16384
  const MAX_CIPHERTEXT: nat := 16384 + 2048
  const RECORD_HEADER_LEN: nat := 5
  const AEAD_OVERHEAD: nat := 16
  const MAX_SEQUENCE: nat := 0xFFFF_FFFF_FFFF_FFFF

  type Key = nat

  datatype Primitives = Primitives(
    keystream: (Key, nat) -> byte,
    seal: (Key, bytes, bytes, bytes) -> bytes,            // key, nonce, additional data, plaintext
    open: (Key, bytes, bytes, bytes) -> Option<bytes>,
    cbcEncrypt: (Key, nat, bytes, bytes) -> bytes,        // key, block size, IV, blocks
    cbcDecrypt: (Key, nat, bytes, bytes) -> bytes,
    mac: (Key, nat, bytes) -> bytes)                      // key, size, message

  /** What is assumed of the primitives: lengths, and that each is undone by its inverse. */
  ghost predicate Lawful(p: Primitives) {
    && (forall k, n, a, t :: |p.seal(k, n, a, t)| == |t| + AEAD_OVERHEAD && p.open(k, n, a, p.seal(k, n, a, t)) == Some(t))
    && (forall k, n, a, c :: p.open(k, n, a, c).Some? ==> |c| == |p.open(k, n, a, c).value| + AEAD_OVERHEAD)
    && (forall k, b, iv, t :: |p.cbcEncrypt(k, b, iv, t)| == |t| && p.cbcDecrypt(k, b, iv, p.cbcEncrypt(k, b, iv, t)) == t)
    && (forall k, b, iv, t :: |p.cbcDecrypt(k, b, iv, t)| == |t|)
    && (forall k, n, m :: |p.mac(k, n, m)| == n)
  }

  datatype Mac = Mac(key: Key, size: nat)

  /** The four cipher shapes, with the state each keeps between records. */
  datatype Cipher =
    | NoCipher
    | Stream(key: Key, position: nat, mac: Mac)
    | Cbc(key: Key, blockSize: nat, iv: bytes, mac: Mac)
    | PrefixAead(key: Key, prefix: bytes)      // explicit 8-octet nonce after a fixed prefix
    | XorAead(key: Key, mask: bytes)           // the sequence number xored into a fixed mask

  datatype Half = Half(version: nat, cipher: Cipher, seqNo: nat)

  predicate WellKeyed(version: nat, cipher: Cipher) {
    match cipher
    case NoCipher => true
    case Stream(_, _, _) => version < VERSION_TLS13
    case Cbc(_, b, iv, _) => version < VERSION_TLS13 && 1 <= b <= 256 && |iv| == b
    case PrefixAead(_, prefix) => version < VERSION_TLS13 && |prefix| == 4
    case XorAead(_, mask) => |mask| == 12
  }

  datatype Failure = BadRecordMac | UnexpectedMessage | RecordOverflow | ShortRandom | SequenceWraparound

  function ExplicitNonceLen(h: Half): nat {
    match h.cipher
    case NoCipher => 0
    case Stream(_, _, _) => 0
    case PrefixAead(_, _) => 8
    case XorAead(_, _) => 0
    case Cbc(_, b, _, _) => if h.version >= VERSION_TLS11 then b else 0
  }

  /** byte(n>>8), byte(n) */
  function Uint16(n: int): (s: bytes)
    ensures |s| == 2
  {
    [((n / 256) % 256) as byte, (n % 256) as byte]
  }

  function Sequence(h: Half): bytes { BigEndian(h.seqNo, 8) }

  function XorAt4(mask: bytes, nonce: bytes): (r: bytes)
    requires |mask| == 12 && |nonce| == 8
    ensures |r| == 12
  {
    seq(12, i requires 0 <= i < 12 => if i < 4 then mask[i] else Xor(mask[i], nonce[i - 4]))
  }

  /** The nonce that reaches the inner AEAD. */
  function InnerNonce(cipher: Cipher, nonce: bytes): bytes
    requires |nonce| == 8 && (cipher.PrefixAead? || (cipher.XorAead? && |cipher.mask| == 12))
  {
    match cipher
    case PrefixAead(_, prefix) => prefix + nonce
    case XorAead(_, mask) => XorAt4(mask, nonce)
  }

  function XorStream(p: Primitives, key: Key, position: nat, data: bytes): (r: bytes)
    ensures |r| == |data|
  {
    seq(|data|, i requires 0 <= i < |data| => Xor(data[i], p.keystream(key, position + i)))
  }

  function RecordMac(p: Primitives, mac: Mac, sequence: bytes, header: bytes, data: bytes): bytes {
    p.mac(mac.key, mac.size, sequence + header + data)
  }

  function Repeat(b: byte, n: nat): bytes { seq(n, _ => b) }

  function LastBlock(blocks: bytes, blockSize: nat): bytes {
    if |blocks| >= blockSize then blocks[|blocks| - blockSize..] else []
  }

  // ---------- encrypt ----------

  type Encrypted = Outcome<(Half, bytes), Failure>

  /** incSeq, which panics rather than wrap. */
  function IncSeq(h: Half): Outcome<Half, Failure> {
    if h.seqNo >= MAX_SEQUENCE then Fail(SequenceWraparound) else Ok(h.(seqNo := h.seqNo + 1))
  }

  /** The end of encrypt: the length field covers nonce, MAC and padding. */
  function Finish(h: Half, header: bytes, body: bytes): Encrypted
    requires |header| == RECORD_HEADER_LEN
  {
    match IncSeq(h)
    case Fail(e) => Fail(e)
    case Ok(h1) => Ok((h1, header[..3] + Uint16(|body|) + body))
  }

  function PaddedPlaintext(payload: bytes, mac: bytes, blockSize: nat): bytes
    requires 1 <= blockSize <= 256
  {
    var plaintextLen := |payload| + |mac|;
    var paddingLen := blockSize - plaintextLen % blockSize;
    payload + mac + Repeat((paddingLen - 1) as byte, paddingLen)
  }

  function Tls13Header(header: bytes, payloadLen: nat): (h: bytes)
    requires |header| == RECORD_HEADER_LEN
    ensures |h| == RECORD_HEADER_LEN
  {
    [APPLICATION_DATA] + header[1..3] + Uint16(payloadLen + 1 + AEAD_OVERHEAD)
  }

  /** header is the plaintext record header; random is what the random source yields for an explicit IV. */
  function Encrypt(p: Primitives, h: Half, header: bytes, payload: bytes, random: bytes): Encrypted
    requires |header| == RECORD_HEADER_LEN && WellKeyed(h.version, h.cipher)
  {
    match h.cipher
    case NoCipher => Ok((h, header + payload))
    case Stream(key, position, mac) =>
      var body := payload + RecordMac(p, mac, Sequence(h), header, payload);
      Finish(h.(cipher := Stream(key, position + |body|, mac)), header, XorStream(p, key, position, body))
    case PrefixAead(key, _) =>
      Finish(h, header, Sequence(h)
        + p.seal(key, InnerNonce(h.cipher, Sequence(h)), Sequence(h) + header, payload))
    case XorAead(key, _) =>
      if h.version == VERSION_TLS13 then
        var header13 := Tls13Header(header, |payload|);
        Finish(h, header13, p.seal(key, InnerNonce(h.cipher, Sequence(h)), header13, payload + [header[0]]))
      else
        Finish(h, header, p.seal(key, InnerNonce(h.cipher, Sequence(h)), Sequence(h) + header, payload))
    case Cbc(key, blockSize, iv, mac) =>
      if ExplicitNonceLen(h) > 0 && |random| != ExplicitNonceLen(h) then Fail(ShortRandom)
      else
        var explicit := if ExplicitNonceLen(h) > 0 then random else [];
        var plaintext := PaddedPlaintext(payload, RecordMac(p, mac, Sequence(h), header, payload), blockSize);
        var blocks := p.cbcEncrypt(key, blockSize, if explicit != [] then explicit else iv, plaintext);
        Finish(h.(cipher := Cbc(key, blockSize, LastBlock(blocks, blockSize), mac)), header, explicit + blocks)
  }

  // ---------- decrypt ----------

  datatype Opened = Opened(plaintext: bytes, typ: byte)
  type Decrypted = Outcome<(Half, Opened), Failure>

  function Accept(h: Half, plaintext: bytes, typ: byte): Decrypted {
    match IncSeq(h)
    case Fail(e) => Fail(e)
    case Ok(h1) => Ok((h1, Opened(plaintext, typ)))
  }

  /** Index one past the last non-zero octet. */
  function StripZeros(s: bytes): (n: nat)
    ensures n <= |s| && (n > 0 ==> s[n - 1] != 0) && forall i :: n <= i < |s| ==> s[i] == 0
  {
    if s == [] then 0 else if s[|s| - 1] != 0 then |s| else StripZeros(s[..|s| - 1])
  }

  /** The TLS 1.3 inner type: the last non-zero octet. */
  function AcceptInner(h: Half, plaintext: bytes, typ: byte): Decrypted {
    if typ != APPLICATION_DATA then Fail(UnexpectedMessage)
    else if |plaintext| > MAX_PLAINTEXT + 1 then Fail(RecordOverflow)
    else if plaintext == [] then Accept(h, [], typ)
    else if StripZeros(plaintext) == 0 then Fail(UnexpectedMessage)
    else
      var n := StripZeros(plaintext);
      Accept(h, plaintext[..n - 1], plaintext[n - 1])
  }

  /** What extractPadding reports, by the plain rule. */
  function PaddingFound(payload: bytes): (r: (int, bool))
  {
    if payload == [] then (0, false)
    else if DecideValidPadding(payload) then (payload[|payload| - 1] as int + 1, true)
    else (1, false)
  }

  predicate DecideValidPadding(payload: bytes)
    ensures DecideValidPadding(payload) <==> ValidPadding(payload)
  {
    payload != [] &&
    var p := payload[|payload| - 1];
    p as int + 1 <= |payload| && forall k :: |payload| - (p as int + 1) <= k < |payload| ==> payload[k] == p
  }

  /** The MAC check, with a negative data length clamped to zero as the source does. */
  function AcceptMac(p: Primitives, h: Half, mac: Mac, record: bytes, payload: bytes, paddingLen: int, paddingGood: bool): Decrypted
    requires |record| >= RECORD_HEADER_LEN && paddingLen >= 0
  {
    if |payload| < mac.size then Fail(BadRecordMac)
    else
      var n := if |payload| - mac.size - paddingLen < 0 then 0 else |payload| - mac.size - paddingLen;
      var header := record[..3] + Uint16(n);
      var localMac := RecordMac(p, mac, Sequence(h), header, payload[..n]);
      if !(localMac == payload[n..n + mac.size] && paddingGood) then Fail(BadRecordMac)
      else Accept(h, payload[..n], record[0])
  }

  function OpenAead(p: Primitives, h: Half, key: Key, nonce: bytes, additional: bytes, sealed: bytes, typ: byte): Decrypted {
    match p.open(key, nonce, additional, sealed)
    case None => Fail(BadRecordMac)
    case Some(plaintext) =>
      if h.version == VERSION_TLS13 then AcceptInner(h, plaintext, typ) else Accept(h, plaintext, typ)
  }

  function Decrypt(p: Primitives, h: Half, record: bytes): Decrypted
    requires |record| >= RECORD_HEADER_LEN && WellKeyed(h.version, h.cipher)
  {
    var typ := record[0];
    var payload := record[RECORD_HEADER_LEN..];
    if h.version == VERSION_TLS13 && typ == CHANGE_CIPHER_SPEC then Ok((h, Opened(payload, typ)))
    else
      match h.cipher
      case NoCipher => Accept(h, payload, typ)
      case Stream(key, position, mac) =>
        AcceptMac(p, h.(cipher := Stream(key, position + |payload|, mac)), mac, record,
                  XorStream(p, key, position, payload), 0, true)
      case PrefixAead(key, _) =>
        if |payload| < 8 then Fail(BadRecordMac)
        else
          OpenAead(p, h, key, InnerNonce(h.cipher, payload[..8]),
                   Sequence(h) + record[..3] + Uint16(|payload| - 8 - AEAD_OVERHEAD), payload[8..], typ)
      case XorAead(key, _) =>
        OpenAead(p, h, key, InnerNonce(h.cipher, Sequence(h)),
                 if h.version == VERSION_TLS13 then record[..RECORD_HEADER_LEN]
                 else Sequence(h) + record[..3] + Uint16(|payload| - AEAD_OVERHEAD), payload, typ)
      case Cbc(key, blockSize, iv, mac) =>
        var explicitLen := ExplicitNonceLen(h);
        if |payload| % blockSize != 0 || |payload| < explicitLen + RoundUp(mac.size + 1, blockSize) then Fail(BadRecordMac)
        else
          RoundUpLeast(mac.size + 1, blockSize);
          var blocks := payload[explicitLen..];
          var plaintext := p.cbcDecrypt(key, blockSize, if explicitLen > 0 then payload[..explicitLen] else iv, blocks);
          var (paddingLen, paddingGood) := PaddingFound(plaintext);
          AcceptMac(p, h.(cipher := Cbc(key, blockSize, LastBlock(blocks, blockSize), mac)), mac, record,
                    plaintext, paddingLen, paddingGood)
  }

  /** The same cipher under the same keys, whatever it keeps of the records so far. */
  predicate SameKeys(a: Cipher, b: Cipher) {
    match a
    case NoCipher => b.NoCipher?
    case Stream(key, _, mac) => b.Stream? && b.key == key && b.mac == mac
    case Cbc(key, blockSize, _, mac) => b.Cbc? && b.key == key && b.blockSize == blockSize && b.mac == mac
    case _ => b == a
  }

  /** decrypt never changes the version or the keys, only the state a cipher keeps. */
  lemma DecryptKeepsKeys(p: Primitives, h: Half, record: bytes)
    requires |record| >= RECORD_HEADER_LEN && WellKeyed(h.version, h.cipher) && Decrypt(p, h, record).Ok?
    ensures var h' := Decrypt(p, h, record).value.0;
      h'.version == h.version && WellKeyed(h'.version, h'.cipher) && SameKeys(h.cipher, h'.cipher)
  {
    if h.cipher.Cbc? {
      RoundUpLeast(h.cipher.mac.size + 1, h.cipher.blockSize);
      PadAtLeastBlock(RoundUp(h.cipher.mac.size + 1, h.cipher.blockSize), h.cipher.blockSize);
    }
  }
}
