/** The constant-time removal of CBC padding (section 6.2.3.2 of RFC 2246). */
module Padding {
  import opened Octets

  /**
    byte(int32(^t) >> 31) for the unsigned 64-bit t = x - y: 255 when bit 31 of t is clear,
    else 0. The complement, the truncation to 32 bits and the arithmetic shift are written out.
   */
  function SignMask(x: int, y: int): bv8 {
    var t := (x - y) % 0x1_0000_0000_0000_0000;
    var complement := 0xFFFF_FFFF - t % 0x1_0000_0000;
    if complement >= 0x8000_0000 then 255 else 0
  }

  /** The last n octets, as far as they exist, all equal p. */
  ghost predicate TailIs(payload: bytes, p: byte, n: int) {
    forall k :: 0 <= k < |payload| && |payload| - n <= k ==> payload[k] == p
  }

  /** Valid padding by the plain rule: the last p + 1 octets exist and all equal p. */
  ghost predicate ValidPadding(payload: bytes) {
    payload != [] &&
    var p := payload[|payload| - 1];
    p as int + 1 <= |payload| && TailIs(payload, p, p as int + 1)
  }

  /** What the sign trick accepts as room for n octets of padding. */
  predicate SignTrickFits(length: int, n: int) {
    n <= length && (length - n) % 0x1_0000_0000 < 0x8000_0000
  }

  /** The sign trick is exact up to 2^31 octets, and for one octet more it already rejects valid padding. */
  lemma SignTrickExact(length: int)
    ensures 0 <= length <= 0x8000_0000 ==> forall n :: 1 <= n <= 256 ==> (SignTrickFits(length, n) <==> n <= length)
    ensures length == 0x8000_0001 ==> !SignTrickFits(length, 1)
  {
  }

  /** Between octets the mask compares them. */
  lemma MaskCompares(x: int, y: int)
    requires 0 <= x < 256 && 0 <= y < 256
    ensures SignMask(x, y) == if y <= x then 255 else 0
  {
  }

  /** On the length, it says what the sign trick accepts. */
  lemma MaskFits(length: int, p: int)
    requires length >= 1 && 0 <= p < 256
    ensures SignMask(length - 1, p) == if SignTrickFits(length, p + 1) then 255 else 0
  {
  }

  /** good &^= mask&paddingLen ^ mask&b: one compared octet. */
  method Accumulate(good: bv8, mask: bv8, paddingLen: byte, b: byte) returns (r: bv8)
    requires mask == 0 || mask == 255
    ensures r == 255 <==> good == 255 && (mask == 0 || paddingLen == b)
  {
    BitVectorRoundTrip(paddingLen);
    BitVectorRoundTrip(b);
    r := good & !((mask & (paddingLen as bv8)) ^ (mask & (b as bv8)));
  }

  /** The AND of all bits of good, replicated; the padding length is zeroed unless they are all set. */
  method Collapse(good: bv8, paddingLen: byte) returns (r: bv8, kept: byte)
    ensures r == (if good == 255 then 255 else 0)
    ensures kept == (if good == 255 then paddingLen else 0)
  {
    BitVectorRoundTrip(paddingLen);
    r := good & (good << 4);
    r := r & (r << 2);
    r := r & (r << 1);
    r := if r >= 128 then 255 else 0;      // arithmetic shift of an int8 by 7
    kept := ((paddingLen as bv8) & r) as byte;
  }

  lemma TailStep(payload: bytes, p: byte, i: int)
    requires 0 <= i < |payload|
    ensures TailIs(payload, p, i + 1) <==> TailIs(payload, p, i) && payload[|payload| - 1 - i] == p
  {
  }

  method ExtractPadding(payload: bytes) returns (toRemove: int, good: bv8)
    ensures payload == [] ==> toRemove == 0 && good == 0
    ensures payload != [] ==>
      var n := payload[|payload| - 1] as int + 1;
      if SignTrickFits(|payload|, n) && ValidPadding(payload) then toRemove == n && good == 255
      else toRemove == 1 && good == 0
    ensures 0 < |payload| <= 0x8000_0000 ==>
      if ValidPadding(payload) then toRemove == payload[|payload| - 1] as int + 1 && good == 255
      else toRemove == 1 && good == 0
  {
    if |payload| < 1 {
      return 0, 0;
    }
    var paddingLen := payload[|payload| - 1];
    ghost var p := paddingLen;
    ghost var n := p as int + 1;
    good := SignMask(|payload| - 1, paddingLen as int);
    MaskFits(|payload|, paddingLen as int);
    good := CheckTail(payload, paddingLen, good);
    SignTrickExact(|payload|);
    good, paddingLen := Collapse(good, paddingLen);
    toRemove := paddingLen as int + 1;
  }

  /** The loop over the last octets, at most 256 of them. */
  method CheckTail(payload: bytes, paddingLen: byte, room: bv8) returns (good: bv8)
    requires payload != [] && (room == 0 || room == 255)
    ensures var n := paddingLen as int + 1;
      good == 255 <==> room == 255 && TailIs(payload, paddingLen, if n <= |payload| then n else |payload|)
  {
    ghost var n := paddingLen as int + 1;
    good := room;
    var toCheck := 256;
    if toCheck > |payload| {
      toCheck := |payload|;
    }
    for i := 0 to toCheck
      invariant good == 255 <==> room == 255 && TailIs(payload, paddingLen, if i < n then i else n)
    {
      var mask := SignMask(paddingLen as int, i);
      MaskCompares(paddingLen as int, i);
      var b := payload[|payload| - 1 - i];
      TailStep(payload, paddingLen, i);
      good := Accumulate(good, mask, paddingLen, b);
    }
  }
}
