/** The hand-written encoders and parsers of the TLS 1.0-1.2 certificate and certificate request messages. */
module CertificateMessages {
  import opened Outcomes
  import opened Octets
  import opened Codec
  import opened Arithmetic

  const TYPE_CERTIFICATE: byte := 11
  const TYPE_CERTIFICATE_REQUEST: byte := 13
  const UINT32: nat := 0x1_0000_0000

  /** uint32(len(s)): lengths are compared after truncation to 32 bits. */
  function Len32(s: bytes): nat { |s| % UINT32 }

  function Uint24(s: bytes): (n: nat)
    requires |s| >= 3
    ensures n < 0x100_0000
  {
    s[0] as nat * 65536 + s[1] as nat * 256 + s[2] as nat
  }

  function Uint16At(s: bytes): (n: nat)
    requires |s| >= 2
    ensures n < 65536
  {
    s[0] as nat * 256 + s[1] as nat
  }

  lemma Uint24Is(n: nat, rest: bytes)
    requires n < 0x100_0000
    ensures Uint24(BigEndian(n, 3) + rest) == n
    ensures BigEndian(n, 3) == [(n / 65536 % 256) as byte, (n / 256 % 256) as byte, (n % 256) as byte]
  {
    assert BigEndian(n / 256, 2) == BigEndian(n / 256 / 256, 1) + [(n / 256 % 256) as byte];
  }

  lemma Uint16Is(n: nat, rest: bytes)
    requires n < 65536
    ensures Uint16At(BigEndian(n, 2) + rest) == n
    ensures BigEndian(n, 2) == [(n / 256 % 256) as byte, (n % 256) as byte]
  {
    assert BigEndian(n / 256, 1) == [(n / 256 % 256) as byte];
  }

  // ---------- certificate ----------

  function Put24(x: bytes): bytes { Prefixed(x, 3) }

  /** The certificates of a list: a remainder of fewer than four octets is refused, so an empty certificate can only stand before another. */
  function Certificates(d: bytes): Option<seq<bytes>>
    decreases |d|
  {
    if Len32(d) == 0 then Some([])
    else if |d| < 4 then None
    else
      var n := Uint24(d);
      if Len32(d) < 3 + n then None
      else
        match Certificates(d[3 + n..])
        case None => None
        case Some(rest) => Some([d[3..3 + n]] + rest)
  }

  function UnmarshalCertificates(data: bytes): Option<seq<bytes>> {
    if |data| < 7 then None
    else if Len32(data) != Uint24(data[4..]) + 7 then None
    else Certificates(data[7..])
  }

  lemma Len32Drops(d: bytes, n: nat)
    requires n <= Len32(d)
    ensures n <= |d| && Len32(d[n..]) == Len32(d) - n
  {
    Decompose(|d|, UINT32);
    DivMod(|d| / UINT32, Len32(d) - n, UINT32);
  }

  /** The two passes of unmarshal: the first counts the certificates, the second slices the same ones. */
  method Unmarshal(data: bytes) returns (certificates: Option<seq<bytes>>)
    ensures certificates == UnmarshalCertificates(data)
  {
    if |data| < 7 {
      return None;
    }
    var certsLen := Uint24(data[4..]);
    if Len32(data) != certsLen + 7 {
      return None;
    }
    Len32Drops(data, 7);
    var numCerts := 0;
    var d := data[7..];
    ghost var all := Certificates(d);
    while certsLen > 0
      invariant certsLen == Len32(d)
      invariant Counted(all, numCerts, Certificates(d))
      decreases |d|
    {
      if |d| < 4 {
        return None;
      }
      var certLen := Uint24(d);
      if Len32(d) < 3 + certLen {
        return None;
      }
      Len32Drops(d, 3 + certLen);
      d := d[3 + certLen..];
      certsLen := certsLen - (3 + certLen);
      numCerts := numCerts + 1;
    }
    var sliced: seq<bytes> := [];
    d := data[7..];
    assert |all.value| == numCerts;
    for i := 0 to numCerts
      invariant all.Some? && |all.value| == numCerts && |sliced| == i
      invariant Certificates(d).Some? && sliced + Certificates(d).value == all.value
    {
      var certLen := Uint24(d);
      assert sliced + ([d[3..3 + certLen]] + Certificates(d[3 + certLen..]).value)
          == sliced + [d[3..3 + certLen]] + Certificates(d[3 + certLen..]).value;
      sliced := sliced + [d[3..3 + certLen]];
      d := d[3 + certLen..];
    }
    assert sliced + [] == sliced;
    return Some(sliced);
  }

  /** n certificates were counted before the rest. */
  ghost predicate Counted(all: Option<seq<bytes>>, n: nat, rest: Option<seq<bytes>>) {
    if rest.None? then all.None? else all.Some? && |all.value| == n + |rest.value|
  }

  function MarshalCertificates(certificates: seq<bytes>): bytes {
    [TYPE_CERTIFICATE] + Prefixed(Prefixed(Encode(Put24, certificates), 3), 3)
  }

  function Total(certificates: seq<bytes>): nat {
    if certificates == [] then 0 else |certificates[0]| + Total(certificates[1..])
  }

  lemma {:induction false} TotalOfAppend(a: seq<bytes>, b: seq<bytes>)
    ensures Total(a + b) == Total(a) + Total(b)
  {
    if a == [] {
      assert a + b == b;
    } else {
      assert (a + b)[1..] == a[1..] + b;
      TotalOfAppend(a[1..], b);
    }
  }

  lemma {:induction false} EncodedLen(put: bytes -> bytes, header: nat, items: seq<bytes>)
    requires forall x: bytes :: |put(x)| == header + |x|
    ensures |Encode(put, items)| == header * |items| + Total(items)
  {
    if items != [] {
      EncodedLen(put, header, items[1..]);
    }
  }

  /** Copies s into x from a position on. */
  method CopyInto(x: array<byte>, at: nat, s: bytes)
    requires at + |s| <= x.Length
    modifies x
    ensures x[..at] == old(x[..at]) && x[at..at + |s|] == s
  {
    for i := 0 to |s|
      invariant x[..at] == old(x[..at]) && x[at..at + i] == s[..i]
    {
      x[at + i] := s[i];
    }
  }

  /** Writes the octets of s behind those already written. */
  method Append(x: array<byte>, at: nat, s: bytes, ghost before: bytes)
    requires at + |s| <= x.Length && x[..at] == before
    modifies x
    ensures x[..at + |s|] == before + s
  {
    CopyInto(x, at, s);
    assert x[..at + |s|] == x[..at] + x[at..at + |s|];
  }

  /** The octets of the certificates alone. */
  method TotalLength(certificates: seq<bytes>) returns (n: nat)
    ensures n == Total(certificates)
  {
    n := 0;
    for k := 0 to |certificates|
      invariant n == Total(certificates[..k])
    {
      assert certificates[..k + 1] == certificates[..k] + [certificates[k]];
      TotalOfAppend(certificates[..k], [certificates[k]]);
      n := n + |certificates[k]|;
    }
    assert certificates[..|certificates|] == certificates;
  }

  /** Writes the items, each behind its length of width octets. */
  method AppendItems(x: array<byte>, at: nat, width: nat, put: bytes -> bytes, items: seq<bytes>, ghost before: bytes)
    requires at + |Encode(put, items)| == x.Length && x[..at] == before
    requires forall s: bytes :: put(s) == Prefixed(s, width)
    modifies x
    ensures x[..] == before + Encode(put, items)
  {
    var y := at;
    for k := 0 to |items|
      invariant y == at + |Encode(put, items[..k])| && y <= x.Length
      invariant x[..y] == before + Encode(put, items[..k])
    {
      ItemFits(put, items, k);
      ghost var done := x[..y];
      AppendPrefixed(x, y, width, items[k], done);
      assert done + put(items[k]) == before + (Encode(put, items[..k]) + put(items[k]));
      y := y + width + |items[k]|;
    }
    assert items[..|items|] == items;
    assert x[..] == x[..y];
  }

  method AppendPrefixed(x: array<byte>, at: nat, width: nat, s: bytes, ghost before: bytes)
    requires at + width + |s| <= x.Length && x[..at] == before
    modifies x
    ensures x[..at + width + |s|] == before + Prefixed(s, width)
  {
    Append(x, at, BigEndian(|s|, width), before);
    Append(x, at + width, s, before + BigEndian(|s|, width));
    assert before + BigEndian(|s|, width) + s == before + Prefixed(s, width);
  }

  method Marshal(certificates: seq<bytes>) returns (x: array<byte>)
    ensures fresh(x) && x[..] == MarshalCertificates(certificates)
  {
    var i := TotalLength(certificates);
    var length := 3 + 3 * |certificates| + i;
    EncodedLen(Put24, 3, certificates);
    x := new byte[4 + length](_ => 0);
    Append(x, 0, [TYPE_CERTIFICATE], []);
    Append(x, 1, BigEndian(length, 3), [TYPE_CERTIFICATE]);
    ghost var head := [TYPE_CERTIFICATE] + BigEndian(length, 3);
    Append(x, 4, BigEndian(length - 3, 3), head);
    AppendItems(x, 7, 3, Put24, certificates, head + BigEndian(length - 3, 3));
    ThreePrefixes(BigEndian(length, 3), BigEndian(length - 3, 3), Encode(Put24, certificates));
  }

  lemma ThreePrefixes(a: bytes, b: bytes, c: bytes)
    ensures [TYPE_CERTIFICATE] + a + b + c == [TYPE_CERTIFICATE] + (a + (b + c))
  {
  }

  /** Item k of a list is written inside the encoding. */
  lemma ItemFits(put: bytes -> bytes, items: seq<bytes>, k: nat)
    requires k < |items|
    ensures Encode(put, items[..k + 1]) == Encode(put, items[..k]) + put(items[k])
    ensures |Encode(put, items[..k])| + |put(items[k])| <= |Encode(put, items)|
  {
    assert items[..k + 1] == items[..k] + [items[k]];
    EncodeOfAppend(put, items[..k], [items[k]]);
    assert Encode(put, [items[k]]) == put(items[k]) + [];
    assert items == items[..k + 1] + items[k + 1..];
    EncodeOfAppend(put, items[..k + 1], items[k + 1..]);
  }

  lemma {:induction false} EncodeOfAppend(put: bytes -> bytes, a: seq<bytes>, b: seq<bytes>)
    ensures Encode(put, a + b) == Encode(put, a) + Encode(put, b)
  {
    if a == [] {
      assert a + b == b;
    } else {
      EncodeOfAppend(put, a[1..], b);
      assert (a + b)[1..] == a[1..] + b;
      assert put(a[0]) + (Encode(put, a[1..]) + Encode(put, b)) == put(a[0]) + Encode(put, a[1..]) + Encode(put, b);
    }
  }

  // ---------- what unmarshal makes of what marshal wrote ----------

  predicate LastNonEmpty(certificates: seq<bytes>) { certificates == [] || certificates[|certificates| - 1] != [] }

  lemma Small(d: bytes)
    requires |d| < 0x1_0000_0000
    ensures Len32(d) == |d|
  {
  }

  /** The front of a list, read back. */
  lemma FrontBack(x: bytes, rest: bytes)
    requires |x| < 0x100_0000
    ensures var d := Put24(x) + rest;
      |d| == 3 + |x| + |rest| && Uint24(d) == |x| && d[3..3 + |x|] == x && d[3 + |x|..] == rest
  {
    assert Put24(x) + rest == BigEndian(|x|, 3) + (x + rest);
    Uint24Is(|x|, x + rest);
  }

  lemma {:induction false} CertificatesBack(certificates: seq<bytes>)
    requires |Encode(Put24, certificates)| < 0x100_0000
    ensures Certificates(Encode(Put24, certificates)) == if LastNonEmpty(certificates) then Some(certificates) else None
  {
    if certificates != [] {
      var x, rest := certificates[0], certificates[1..];
      var d := Encode(Put24, certificates);
      FrontBack(x, Encode(Put24, rest));
      Small(d);
      CertificatesBack(rest);
      assert certificates == [x] + rest;
      if rest != [] {
        assert |Encode(Put24, rest)| >= 3;
      }
    }
  }

  /** For lengths that fit: the list comes back exactly when its last certificate is not empty, and is refused otherwise. */
  lemma CertificatesRoundTrip(certificates: seq<bytes>)
    requires |Encode(Put24, certificates)| + 3 < 0x100_0000
    ensures UnmarshalCertificates(MarshalCertificates(certificates)) == if LastNonEmpty(certificates) then Some(certificates) else None
  {
    var list := Encode(Put24, certificates);
    var data := MarshalCertificates(certificates);
    var head := [TYPE_CERTIFICATE] + BigEndian(|list| + 3, 3);
    assert data == head + Put24(list);
    assert data[4..] == Put24(list) + [];
    FrontBack(list, []);
    assert data[7..] == data[4..][3..];
    Small(data);
    CertificatesBack(certificates);
  }
}
