/** One direction of the record layer as the object the connection holds: halfConn and its AEAD wrapper. */
module RecordLayer {
  import opened Outcomes
  import opened Octets
  import opened Padding
  import opened Arithmetic
  import opened RecordProtection

  /** An AEAD that xors the 8-octet nonce of each call into a fixed mask, in place, and takes it out again. */
  class XorNonceAead {
    const nonceMask: array<byte>
    const key: Key
    const p: Primitives

    ghost predicate Valid()
      reads this
    {
      nonceMask.Length == 12
    }

    constructor (p: Primitives, key: Key, mask: bytes)
      requires |mask| == 12
      ensures Valid() && fresh(nonceMask) && nonceMask[..] == mask && this.key == key && this.p == p
    {
      this.p := p;
      this.key := key;
      nonceMask := new byte[12](i requires 0 <= i < 12 => mask[i]);
      new;
      assert nonceMask[..] == mask;
    }

    /** One pass of the loop that xors the nonce into octets 4 to 11. */
    method Mask(nonce: bytes)
      requires Valid() && |nonce| == 8
      modifies nonceMask
      ensures nonceMask[..] == XorAt4(old(nonceMask[..]), nonce)
    {
      for i := 0 to |nonce|
        invariant forall k :: 0 <= k < 12 ==>
          nonceMask[k] == if 4 <= k < 4 + i then Xor(old(nonceMask[k]), nonce[k - 4]) else old(nonceMask[k])
      {
        nonceMask[4 + i] := Xor(nonceMask[4 + i], nonce[i]);
      }
    }

    method Seal(nonce: bytes, plaintext: bytes, additional: bytes) returns (sealed: bytes)
      requires Valid() && |nonce| == 8
      modifies nonceMask
      ensures sealed == p.seal(key, XorAt4(old(nonceMask[..]), nonce), additional, plaintext)
      ensures nonceMask[..] == old(nonceMask[..])
    {
      Mask(nonce);
      sealed := p.seal(key, nonceMask[..], additional, plaintext);
      Mask(nonce);
      MaskRestored(old(nonceMask[..]), nonce);
    }

    method Open(nonce: bytes, sealed: bytes, additional: bytes) returns (r: Option<bytes>)
      requires Valid() && |nonce| == 8
      modifies nonceMask
      ensures r == p.open(key, XorAt4(old(nonceMask[..]), nonce), additional, sealed)
      ensures nonceMask[..] == old(nonceMask[..])
    {
      Mask(nonce);
      r := p.open(key, nonceMask[..], additional, sealed);
      Mask(nonce);
      MaskRestored(old(nonceMask[..]), nonce);
    }
  }

  lemma MaskRestored(mask: bytes, nonce: bytes)
    requires |mask| == 12 && |nonce| == 8
    ensures XorAt4(XorAt4(mask, nonce), nonce) == mask
  {
    forall i | 4 <= i < 12 ensures XorAt4(XorAt4(mask, nonce), nonce)[i] == mask[i] {
      XorCancels(mask[i], nonce[i - 4]);
    }
  }

  class HalfConn {
    var version: nat
    var cipher: Cipher
    const seqOctets: array<byte>
    var nextCipher: Option<Cipher>
    const p: Primitives

    ghost predicate Valid()
      reads this, seqOctets
    {
      seqOctets.Length == 8 && WellKeyed(version, cipher)
    }

    /** The value of this object: what the functions of RecordProtection work on. */
    ghost function State(): Half
      reads this, seqOctets
    {
      Half(version, cipher, Value(seqOctets[..]))
    }

    constructor (p: Primitives)
      ensures Valid() && fresh(seqOctets) && State() == Half(0, NoCipher, 0) && nextCipher == None && this.p == p
    {
      this.p := p;
      version, cipher, nextCipher := 0, NoCipher, None;
      seqOctets := new byte[8](_ => 0);
      new;
      ZeroSequence(seqOctets[..]);
    }

    /** The counter as it stands is its own big-endian form. */
    lemma SequenceOctets()
      requires Valid()
      ensures Sequence(State()) == seqOctets[..] && State().seqNo <= MAX_SEQUENCE
    {
      BigEndianOfValue(seqOctets[..]);
      Pow256Of8();
    }

    method ResetSequence()
      requires seqOctets.Length == 8
      modifies seqOctets
      ensures Value(seqOctets[..]) == 0
    {
      for i := 0 to 8
        invariant forall k :: 0 <= k < i ==> seqOctets[k] == 0
      {
        seqOctets[i] := 0;
      }
      ZeroSequence(seqOctets[..]);
    }

    method PrepareCipherSpec(version: nat, cipher: Cipher)
      requires seqOctets.Length == 8 && WellKeyed(version, this.cipher) && WellKeyed(version, cipher)
      modifies this
      ensures Valid() && State() == old(State()).(version := version) && nextCipher == Some(cipher)
    {
      this.version := version;
      nextCipher := Some(cipher);
    }

    /** False is the internal error of a change that was not prepared, or of TLS 1.3; it changes nothing. */
    method ChangeCipherSpec() returns (ok: bool)
      requires Valid() && (nextCipher.Some? ==> WellKeyed(version, nextCipher.value))
      modifies this`cipher, this`nextCipher, seqOctets
      ensures Valid()
      ensures ok <==> old(nextCipher).Some? && version != VERSION_TLS13
      ensures ok ==> State() == Half(version, old(nextCipher).value, 0) && nextCipher == None
      ensures !ok ==> State() == old(State()) && nextCipher == old(nextCipher)
    {
      if nextCipher.None? || version == VERSION_TLS13 {
        return false;
      }
      cipher := nextCipher.value;
      nextCipher := None;
      ResetSequence();
      return true;
    }

    /** Installs the key and IV of a TLS 1.3 traffic secret. */
    method SetTrafficSecret(key: Key, iv: bytes)
      requires Valid() && |iv| == 12
      modifies this`cipher, seqOctets
      ensures Valid() && State() == Half(version, XorAead(key, iv), 0)
    {
      cipher := XorAead(key, iv);
      ResetSequence();
    }

    /** False stands for the panic of a counter that would wrap. */
    method IncSeq() returns (ok: bool)
      requires Valid()
      modifies seqOctets
      ensures Valid()
      ensures match RecordProtection.IncSeq(old(State()))
        case Ok(h) => ok && State() == h
        case Fail(_) => !ok
    {
      ghost var before := seqOctets[..];
      Pow256Of8();
      var i := 7;
      while i >= 0
        invariant -1 <= i <= 7
        invariant seqOctets[..i + 1] == before[..i + 1]
        invariant forall k :: i < k < 8 ==> before[k] == 255 && seqOctets[k] == 0
      {
        seqOctets[i] := if seqOctets[i] == 255 then 0 else seqOctets[i] + 1;
        if seqOctets[i] != 0 {
          CarryStops(before, seqOctets[..], i);
          AllOnes(before);
          return true;
        }
        i := i - 1;
      }
      AllOnes(before);
      return false;
    }

    method ComputeExplicitNonceLen() returns (n: nat)
      ensures n == ExplicitNonceLen(State())
    {
      match cipher {
        case NoCipher => return 0;
        case Stream(_, _, _) => return 0;
        case PrefixAead(_, _) => return 8;
        case XorAead(_, _) => return 0;
        case Cbc(_, blockSize, _, _) =>
          if version >= VERSION_TLS11 { return blockSize; }
          return 0;
      }
    }

    /** The last part of encrypt: the length field is filled in and the counter advanced. */
    method Seal(header: bytes, body: bytes, ghost before: Half) returns (r: Outcome<bytes, Failure>)
      requires Valid() && |header| == RECORD_HEADER_LEN && State() == before
      modifies seqOctets
      ensures Valid()
      ensures match Finish(before, header, body)
        case Ok((h, record)) => r == Ok(record) && State() == h
        case Fail(e) => r == Fail(e)
    {
      var record := header + body;
      var n := |record| - RECORD_HEADER_LEN;
      record := record[3 := ((n / 256) % 256) as byte];
      record := record[4 := (n % 256) as byte];
      assert record == header[..3] + Uint16(|body|) + body;
      var ok := IncSeq();
      r := if ok then Ok(record) else Fail(SequenceWraparound);
    }

    /** payload, MAC and padding, the padding octets filled in one by one. */
    method Pad(payload: bytes, mac: bytes, blockSize: nat) returns (dst: bytes)
      requires 1 <= blockSize <= 256
      ensures dst == PaddedPlaintext(payload, mac, blockSize)
    {
      var plaintextLen := |payload| + |mac|;
      var paddingLen := blockSize - plaintextLen % blockSize;
      dst := payload + mac;
      for i := plaintextLen to plaintextLen + paddingLen
        invariant dst == payload + mac + Repeat((paddingLen - 1) as byte, i - plaintextLen)
      {
        dst := dst + [(paddingLen - 1) as byte];
      }
    }

    method Encrypt(header: bytes, payload: bytes, random: bytes) returns (r: Outcome<bytes, Failure>)
      requires Valid() && |header| == RECORD_HEADER_LEN && Lawful(p)
      modifies this`cipher, seqOctets
      ensures Valid()
      ensures match RecordProtection.Encrypt(p, old(State()), header, payload, random)
        case Ok((h, record)) => r == Ok(record) && State() == h
        case Fail(e) => r == Fail(e)
    {
      ghost var h := State();
      SequenceOctets();
      match cipher {
        case NoCipher =>
          return Ok(header + payload);
        case Stream(key, position, mac) =>
          var body := payload + RecordMac(p, mac, seqOctets[..], header, payload);
          cipher := Stream(key, position + |body|, mac);
          r := Seal(header, XorStream(p, key, position, body), h.(cipher := cipher));
        case PrefixAead(key, prefix) =>
          var explicitNonce := seqOctets[..];
          var additionalData := seqOctets[..] + header;
          r := Seal(header, explicitNonce + p.seal(key, prefix + explicitNonce, additionalData, payload), h);
        case XorAead(key, mask) =>
          var nonce := XorAt4(mask, seqOctets[..]);
          if version == VERSION_TLS13 {
            var n := |payload| + 1 + AEAD_OVERHEAD;
            var record := header[0 := APPLICATION_DATA];
            record := record[3 := ((n / 256) % 256) as byte];
            record := record[4 := (n % 256) as byte];
            assert record == Tls13Header(header, |payload|);
            var sealed := p.seal(key, nonce, record, payload + [header[0]]);
            r := Seal(record, sealed, h);
          } else {
            var sealed := p.seal(key, nonce, seqOctets[..] + header, payload);
            r := Seal(header, sealed, h);
          }
        case Cbc(_, _, _, _) =>
          r := EncryptCbc(header, payload, random);
      }
    }

    method EncryptCbc(header: bytes, payload: bytes, random: bytes) returns (r: Outcome<bytes, Failure>)
      requires Valid() && |header| == RECORD_HEADER_LEN && Lawful(p) && cipher.Cbc?
      modifies this`cipher, seqOctets
      ensures Valid()
      ensures match RecordProtection.Encrypt(p, old(State()), header, payload, random)
        case Ok((h, record)) => r == Ok(record) && State() == h
        case Fail(e) => r == Fail(e)
    {
      ghost var h := State();
      SequenceOctets();
      var Cbc(key, blockSize, iv, mac) := cipher;
      var explicitNonceLen := ComputeExplicitNonceLen();
      if explicitNonceLen > 0 && |random| != explicitNonceLen {
        return Fail(ShortRandom);
      }
      var explicitNonce := if explicitNonceLen > 0 then random else [];
      var tag := RecordMac(p, mac, seqOctets[..], header, payload);
      var dst := Pad(payload, tag, blockSize);
      PadToMultiple(|payload| + |tag|, blockSize);
      PadAtLeastBlock(|dst|, blockSize);
      var blocks := p.cbcEncrypt(key, blockSize, if |explicitNonce| > 0 then explicitNonce else iv, dst);
      cipher := Cbc(key, blockSize, LastBlock(blocks, blockSize), mac);
      r := Seal(header, explicitNonce + blocks, h.(cipher := cipher));
    }

    /** The common end of decrypt: advance the counter and hand out the plaintext. */
    method Release(plaintext: bytes, typ: byte, ghost before: Half) returns (r: Outcome<Opened, Failure>)
      requires Valid() && State() == before
      modifies seqOctets
      ensures Valid()
      ensures Matches(Accept(before, plaintext, typ), r)
    {
      var ok := IncSeq();
      r := if ok then Ok(Opened(plaintext, typ)) else Fail(SequenceWraparound);
    }

    /** The object agrees with an outcome of the specification: same result and, on success, same state. */
    ghost predicate Matches(expected: Decrypted, r: Outcome<Opened, Failure>)
      reads this, seqOctets
    {
      match expected
      case Ok((h, got)) => r == Ok(got) && State() == h
      case Fail(e) => r == Fail(e)
    }

    /** The inner content type of TLS 1.3, scanned for from the end. */
    method ReleaseInner(plaintext: bytes, typ: byte, ghost before: Half) returns (r: Outcome<Opened, Failure>)
      requires Valid() && State() == before
      modifies seqOctets
      ensures Valid() && Matches(AcceptInner(before, plaintext, typ), r)
    {
      if typ != APPLICATION_DATA {
        return Fail(UnexpectedMessage);
      }
      if |plaintext| > MAX_PLAINTEXT + 1 {
        return Fail(RecordOverflow);
      }
      var i := |plaintext| - 1;
      while i >= 0
        invariant -1 <= i < |plaintext|
        invariant forall k :: i < k < |plaintext| ==> plaintext[k] == 0
        invariant i == -1 ==> plaintext == []
      {
        if plaintext[i] != 0 {
          LastNonZero(plaintext, i + 1);
          r := Release(plaintext[..i], plaintext[i], before);
          return;
        }
        if i == 0 {
          LastNonZero(plaintext, 0);
          return Fail(UnexpectedMessage);
        }
        i := i - 1;
      }
      r := Release([], typ, before);
    }

    method OpenInner(key: Key, nonce: bytes, additional: bytes, sealed: bytes, typ: byte, ghost before: Half)
        returns (r: Outcome<Opened, Failure>)
      requires Valid() && State() == before
      modifies seqOctets
      ensures Valid() && Matches(OpenAead(p, before, key, nonce, additional, sealed, typ), r)
    {
      match p.open(key, nonce, additional, sealed)
      case None => return Fail(BadRecordMac);
      case Some(plaintext) =>
        if version == VERSION_TLS13 {
          r := ReleaseInner(plaintext, typ, before);
        } else {
          r := Release(plaintext, typ, before);
        }
    }

    method CheckMac(mac: Mac, record: bytes, payload: bytes, paddingLen: int, paddingGood: bool, ghost before: Half)
        returns (r: Outcome<Opened, Failure>)
      requires Valid() && State() == before && |record| >= RECORD_HEADER_LEN && paddingLen >= 0
      modifies seqOctets
      ensures Valid() && Matches(AcceptMac(p, before, mac, record, payload, paddingLen, paddingGood), r)
    {
      SequenceOctets();
      if |payload| < mac.size {
        return Fail(BadRecordMac);
      }
      var n := |payload| - mac.size - paddingLen;
      n := if n < 0 then 0 else n;
      var header := record[..RECORD_HEADER_LEN];
      header := header[3 := ((n / 256) % 256) as byte];
      header := header[4 := (n % 256) as byte];
      assert header == record[..3] + Uint16(n);
      var remoteMac := payload[n..n + mac.size];
      var localMac := RecordMac(p, mac, seqOctets[..], header, payload[..n]);
      if !(localMac == remoteMac && paddingGood) {
        return Fail(BadRecordMac);
      }
      r := Release(payload[..n], record[0], before);
    }

    method DecryptCbc(record: bytes) returns (r: Outcome<Opened, Failure>)
      requires Valid() && Lawful(p) && cipher.Cbc? && RECORD_HEADER_LEN <= |record| <= RECORD_HEADER_LEN + MAX_CIPHERTEXT
      requires !(version == VERSION_TLS13 && record[0] == CHANGE_CIPHER_SPEC)
      modifies this`cipher, seqOctets
      ensures Valid() && Matches(RecordProtection.Decrypt(p, old(State()), record), r)
    {
      ghost var h := State();
      var payload := record[RECORD_HEADER_LEN..];
      var Cbc(key, blockSize, iv, mac) := cipher;
      var explicitNonceLen := ComputeExplicitNonceLen();
      var minPayload := explicitNonceLen + RoundUp(mac.size + 1, blockSize);
      RoundUpLeast(mac.size + 1, blockSize);
      PadAtLeastBlock(RoundUp(mac.size + 1, blockSize), blockSize);
      if |payload| % blockSize != 0 || |payload| < minPayload {
        return Fail(BadRecordMac);
      }
      var blocks := payload[explicitNonceLen..];
      var plaintext := p.cbcDecrypt(key, blockSize, if explicitNonceLen > 0 then payload[..explicitNonceLen] else iv, blocks);
      cipher := Cbc(key, blockSize, LastBlock(blocks, blockSize), mac);
      var paddingLen, paddingGood := ExtractPadding(plaintext);
      assert PaddingFound(plaintext) == (paddingLen, paddingGood == 255);
      r := CheckMac(mac, record, plaintext, paddingLen, paddingGood == 255, h.(cipher := cipher));
    }

    method Decrypt(record: bytes) returns (r: Outcome<Opened, Failure>)
      requires Valid() && Lawful(p) && RECORD_HEADER_LEN <= |record| <= RECORD_HEADER_LEN + MAX_CIPHERTEXT
      modifies this`cipher, seqOctets
      ensures Valid() && Matches(RecordProtection.Decrypt(p, old(State()), record), r)
    {
      ghost var h := State();
      SequenceOctets();
      var typ := record[0];
      var payload := record[RECORD_HEADER_LEN..];
      if version == VERSION_TLS13 && typ == CHANGE_CIPHER_SPEC {
        return Ok(Opened(payload, typ));
      }
      match cipher {
        case NoCipher =>
          r := Release(payload, typ, h);
        case Stream(key, position, mac) =>
          var plaintext := XorStream(p, key, position, payload);
          cipher := Stream(key, position + |payload|, mac);
          r := CheckMac(mac, record, plaintext, 0, true, h.(cipher := cipher));
        case PrefixAead(key, prefix) =>
          if |payload| < 8 {
            return Fail(BadRecordMac);
          }
          r := OpenInner(key, prefix + payload[..8],
                         seqOctets[..] + record[..3] + Uint16(|payload| - 8 - AEAD_OVERHEAD), payload[8..], typ, h);
        case XorAead(key, mask) =>
          var nonce := XorAt4(mask, seqOctets[..]);
          var additionalData := if version == VERSION_TLS13 then record[..RECORD_HEADER_LEN]
                                else seqOctets[..] + record[..3] + Uint16(|payload| - AEAD_OVERHEAD);
          r := OpenInner(key, nonce, additionalData, payload, typ, h);
        case Cbc(_, _, _, _) =>
          r := DecryptCbc(record);
      }
    }
  }

  /** The scan stops where StripZeros does. */
  lemma {:induction false} LastNonZero(s: bytes, n: nat)
    requires n <= |s| && (n > 0 ==> s[n - 1] != 0) && forall i :: n <= i < |s| ==> s[i] == 0
    ensures StripZeros(s) == n
  {
    if n < |s| {
      LastNonZero(s[..|s| - 1], n);
    }
  }

  lemma {:induction false} ZeroSequence(s: bytes)
    requires forall k :: 0 <= k < |s| ==> s[k] == 0
    ensures Value(s) == 0
  {
    if s != [] {
      ZeroSequence(s[..|s| - 1]);
    }
  }

  /** Octet i was raised by one and everything after it went from 255 to 0: the number was raised by one. */
  lemma {:induction false} CarryStops(before: bytes, after: bytes, i: nat)
    requires |before| == |after| && i < |before|
    requires after[..i] == before[..i] && before[i] < 255 && after[i] == before[i] + 1
    requires forall k :: i < k < |before| ==> before[k] == 255 && after[k] == 0
    ensures Value(after) == Value(before) + 1
  {
    var n := |before| - 1;
    if i == n {
      assert after[..n] == before[..n];
    } else {
      assert after[..n][..i] == after[..i] && before[..n][..i] == before[..i];
      CarryStops(before[..n], after[..n], i);
    }
  }

  lemma {:induction false} AllOnes(s: bytes)
    ensures Value(s) == Pow256(|s|) - 1 <==> forall k :: 0 <= k < |s| ==> s[k] == 255
  {
    if s != [] {
      var n := |s| - 1;
      AllOnes(s[..n]);
      assert Pow256(|s|) == 256 * Pow256(n);
      assert (forall k :: 0 <= k < |s| ==> s[k] == 255) <==> s[n] == 255 && forall k :: 0 <= k < n ==> s[..n][k] == 255;
    }
  }
}
