/** Octets, big-endian numbers and exclusive or. */
module Octets {
  import opened Outcomes

  newtype byte = i: int | 0 <= i < 256
  type bytes = seq<byte>

  function Xor(a: byte, b: byte): byte { ((a as bv8) ^ (b as bv8)) as byte }

  lemma IntegerRoundTrip(i: int)
    requires 0 <= i < 256
    ensures (i as bv8) as int == i
  {
    assert i % 256 == i;
  }

  lemma BitVectorRoundTrip(a: byte)
    ensures (a as bv8) as byte == a
  {
    IntegerRoundTrip(a as int);
  }

  lemma BitVectorRoundTripBack(a: bv8)
    ensures (a as byte) as bv8 == a
  {
  }

  lemma XorCancels(a: byte, b: byte)
    ensures Xor(Xor(a, b), b) == a
  {
    BitVectorRoundTrip(a);
    BitVectorRoundTripBack((a as bv8) ^ (b as bv8));
    assert ((a as bv8) ^ (b as bv8)) ^ (b as bv8) == a as bv8;
  }

  lemma XorInjective(m: byte, a: byte, b: byte)
    requires Xor(m, a) == Xor(m, b)
    ensures a == b
  {
    XorSwaps(m, a);
    XorSwaps(m, b);
    XorCancels(a, m);
    XorCancels(b, m);
  }

  lemma XorSwaps(a: byte, b: byte)
    ensures Xor(a, b) == Xor(b, a)
  {
    assert (a as bv8) ^ (b as bv8) == (b as bv8) ^ (a as bv8);
  }

  function Pow256(n: nat): (r: nat)
    ensures r > 0
  {
    if n == 0 then 1 else 256 * Pow256(n - 1)
  }

  /** n as width octets, most significant first; higher octets are dropped. */
  function BigEndian(n: int, width: nat): (s: bytes)
    ensures |s| == width
    decreases width
  {
    if width == 0 then [] else BigEndian(n / 256, width - 1) + [(n % 256) as byte]
  }

  function Value(s: bytes): (n: nat)
    ensures n < Pow256(|s|)
  {
    if s == [] then 0 else Value(s[..|s| - 1]) * 256 + s[|s| - 1] as int
  }

  lemma {:induction false} ValueOfBigEndian(n: int, width: nat)
    requires 0 <= n < Pow256(width)
    ensures Value(BigEndian(n, width)) == n
  {
    if width > 0 {
      ValueOfBigEndian(n / 256, width - 1);
      var s := BigEndian(n, width);
      assert s[..|s| - 1] == BigEndian(n / 256, width - 1);
    }
  }

  lemma {:induction false} BigEndianOfValue(s: bytes)
    ensures BigEndian(Value(s), |s|) == s
  {
    if s != [] {
      BigEndianOfValue(s[..|s| - 1]);
      assert s == s[..|s| - 1] + [s[|s| - 1]];
    }
  }

  lemma BigEndianInjective(a: int, b: int, width: nat)
    requires 0 <= a < Pow256(width) && 0 <= b < Pow256(width)
    requires BigEndian(a, width) == BigEndian(b, width)
    ensures a == b
  {
    ValueOfBigEndian(a, width);
    ValueOfBigEndian(b, width);
  }

  lemma Pow256Of8()
    ensures Pow256(8) == 0x1_0000_0000_0000_0000
    ensures Pow256(2) == 0x1_0000 && Pow256(3) == 0x100_0000 && Pow256(4) == 0x1_0000_0000 && Pow256(1) == 256
  {
    assert Pow256(4) == 0x1_0000_0000;
  }
}
