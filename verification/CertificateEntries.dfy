/** The TLS 1.3 certificate list, as it stands in Certificate messages and in session tickets. */
module CertificateEntries {
  import opened Outcomes
  import opened Octets
  import opened Codec
  import CH = ClientHelloCodec

  const TYPE_CERTIFICATE: byte := 11
  const STATUS_TYPE_OCSP: nat := 1

  /** The chain, and what is stapled to its first certificate; None stands for nil. */
  datatype Certificate = Certificate(chain: seq<bytes>, staple: Option<bytes>, timestamps: Option<seq<bytes>>)

  // ---------- marshalCertificate ----------

  function PutStaple(staple: bytes): bytes { [1 as byte] + Prefixed(staple, 3) }

  function LeafExtensions(c: Certificate): seq<Extension> {
    (match c.staple case None => [] case Some(x) => [Extension(CH.STATUS_REQUEST, PutStaple(x))])
    + (match c.timestamps case None => [] case Some(x) => [Extension(CH.SCT, Prefixed(Encode(Put16, x), 2))])
  }

  function PutEntry(cert: bytes, block: bytes): bytes { Prefixed(cert, 3) + Prefixed(block, 2) }

  function PutBare(cert: bytes): bytes { PutEntry(cert, []) }

  /** Only the leaf, the first certificate, carries extensions. */
  function PutChain(c: Certificate): bytes {
    if c.chain == [] then []
    else PutEntry(c.chain[0], Encode(PutExtension, LeafExtensions(c))) + Encode(PutBare, c.chain[1..])
  }

  function MarshalCertificate(c: Certificate): bytes { Prefixed(PutChain(c), 3) }

  // ---------- unmarshalCertificate ----------

  function ReadStaple(data: bytes): Option<bytes> {
    match ReadUint(data, 1)
    case None => None
    case Some((statusType, rest)) => if statusType != STATUS_TYPE_OCSP then None else CH.ReadOnly(rest, 3, false)
  }

  /** The inner switch; extensions of certificates after the first are skipped. */
  function Apply(c: Certificate, e: Extension, last: bool): Option<Certificate> {
    if |c.chain| > 1 then Some(c)
    else if e.typ == CH.STATUS_REQUEST then
      match ReadStaple(e.data) case None => None case Some(x) => Some(c.(staple := Some(x)))
    else if e.typ == CH.SCT then
      match CH.ReadList(Read16, e.data, 2, false)
      case None => None
      case Some(x) => Some(c.(timestamps := Some(if c.timestamps.None? then x else c.timestamps.value + x)))
    else Some(c)
  }

  function ReadEntries(c: Certificate, s: bytes): Option<Certificate>
    decreases |s|
  {
    if s == [] then Some(c)
    else
      match ReadPrefixed(s, 3)
      case None => None
      case Some((cert, s1)) =>
        match ReadPrefixed(s1, 2)
        case None => None
        case Some((block, rest)) =>
          match ReadBlock(Apply, c.(chain := c.chain + [cert]), block)
          case None => None
          case Some(c1) => ReadEntries(c1, rest)
  }

  const NO_CERTIFICATE: Certificate := Certificate([], None, None)

  function UnmarshalCertificate(s: bytes): Read<Certificate> {
    match ReadPrefixed(s, 3)
    case None => None
    case Some((list, rest)) =>
      match ReadEntries(NO_CERTIFICATE, list)
      case None => None
      case Some(c) => Some((c, rest))
  }

  // ---------- round trip ----------

  ghost predicate Encodable(c: Certificate) {
    && All(Fits24, c.chain) && |PutChain(c)| < 0x100_0000
    && All(FitsExtension, LeafExtensions(c)) && |Encode(PutExtension, LeafExtensions(c))| < 65536
    && (c.timestamps.Some? ==> All(Fits16, c.timestamps.value))
  }

  predicate Fits24(x: bytes) { |x| < 0x100_0000 }

  /** What is stapled must not be empty. */
  predicate Acceptable(c: Certificate) {
    c.chain == [] || (AcceptableStaple(c.staple) && AcceptableTimestamps(c.timestamps))
  }
  predicate AcceptableStaple(x: Option<bytes>) { x.Some? ==> x.value != [] }
  predicate AcceptableTimestamps(x: Option<seq<bytes>>) { x.Some? ==> x.value != [] && All(NonEmpty, x.value) }

  /** Without a leaf there is nothing to staple to. */
  function Normal(c: Certificate): Certificate { if c.chain == [] then NO_CERTIFICATE else c }

  lemma StapleBack(x: bytes)
    requires |PutStaple(x)| < 65536
    ensures ReadStaple(PutStaple(x)) == if x == [] then None else Some(x)
  {
    Pow256Of8();
    assert BigEndian(1, 1) == [1 as byte];
    ReadUintBack(1, 1, Prefixed(x, 3));
    ReadPrefixedWhole(x, 3);
  }

  lemma TimestampsBack(x: seq<bytes>)
    requires All(Fits16, x) && |Prefixed(Encode(Put16, x), 2)| < 65536
    ensures CH.ReadList(Read16, Prefixed(Encode(Put16, x), 2), 2, false) == if x != [] && All(NonEmpty, x) then Some(x) else None
  {
    Pow256Of8();
    if x == [] {
      ReadPrefixedWhole([], 2);
    } else {
      Prefixed16Items();
      CH.ReadListBack(Read16, Put16, Fits16, NonEmpty, x, 2, false);
    }
  }

  lemma TimestampsFolded(start: Certificate, x: seq<bytes>)
    requires |start.chain| == 1 && start.timestamps == None
    requires All(Fits16, x) && |Prefixed(Encode(Put16, x), 2)| < 65536
    ensures Fold(Apply, start, [Extension(CH.SCT, Prefixed(Encode(Put16, x), 2))]) ==
      if AcceptableTimestamps(Some(x)) then Some(start.(timestamps := Some(x))) else None
  {
    TimestampsBack(x);
  }

  /** The leaf's extensions, one after the other. */
  lemma LeafBack(c: Certificate, cert: bytes)
    requires Encodable(c) && c.chain != []
    ensures Fold(Apply, Certificate([cert], None, None), LeafExtensions(c)) ==
      if Acceptable(c) then Some(Certificate([cert], c.staple, c.timestamps)) else None
  {
    var start := Certificate([cert], None, None);
    var es := LeafExtensions(c);
    match c.staple
    case None =>
      if c.timestamps.Some? {
        assert es == [Extension(CH.SCT, Prefixed(Encode(Put16, c.timestamps.value), 2))];
        assert FitsExtension(es[0]);
        TimestampsFolded(start, c.timestamps.value);
      }
    case Some(x) =>
      var first := Extension(CH.STATUS_REQUEST, PutStaple(x));
      assert es[0] == first && FitsExtension(es[0]);
      StapleBack(x);
      if c.timestamps.Some? {
        var second := Extension(CH.SCT, Prefixed(Encode(Put16, c.timestamps.value), 2));
        assert es == [first, second] && es[1..] == [second] && FitsExtension(es[1]);
        TimestampsFolded(start.(staple := Some(x)), c.timestamps.value);
      } else {
        assert es == [first] && es[1..] == [];
      }
  }

  lemma BareStep(c: Certificate, cert: bytes, rest: bytes)
    requires Fits24(cert) && c.chain != []
    ensures ReadEntries(c, PutBare(cert) + rest) == ReadEntries(c.(chain := c.chain + [cert]), rest)
  {
    EntryBack(cert, [], rest);
    assert ReadBlock(Apply, c.(chain := c.chain + [cert]), []) == Some(c.(chain := c.chain + [cert]));
  }

  /** Reading the list from here leads to this outcome. */
  ghost predicate LeadsTo(c: Certificate, s: bytes, r: Certificate) { ReadEntries(c, s) == Some(r) }

  lemma BareLeads(c: Certificate, cert: bytes, rest: bytes, r: Certificate)
    requires Fits24(cert) && c.chain != [] && LeadsTo(c.(chain := c.chain + [cert]), rest, r)
    ensures LeadsTo(c, PutBare(cert) + rest, r)
  {
    BareStep(c, cert, rest);
  }

  lemma Shift(a: seq<bytes>, b: seq<bytes>)
    requires b != []
    ensures a + [b[0]] + b[1..] == a + b
  {
  }

  /** Entries without extensions only lengthen the chain. */
  lemma {:induction false} BareBack(c: Certificate, certs: seq<bytes>)
    requires All(Fits24, certs) && c.chain != []
    ensures LeadsTo(c, Encode(PutBare, certs), c.(chain := c.chain + certs))
    decreases |certs|
  {
    if certs == [] {
      assert c.chain + [] == c.chain;
    } else {
      Shift(c.chain, certs);
      BareBack(c.(chain := c.chain + [certs[0]]), certs[1..]);
      BareLeads(c, certs[0], Encode(PutBare, certs[1..]), c.(chain := c.chain + certs));
    }
  }

  lemma EntryBack(cert: bytes, block: bytes, rest: bytes)
    requires |cert| < 0x100_0000 && |block| < 65536
    ensures PutEntry(cert, block) + rest != []
    ensures ReadPrefixed(PutEntry(cert, block) + rest, 3) == Some((cert, Prefixed(block, 2) + rest))
    ensures ReadPrefixed(Prefixed(block, 2) + rest, 2) == Some((block, rest))
  {
    Pow256Of8();
    assert PutEntry(cert, block) + rest == Prefixed(cert, 3) + (Prefixed(block, 2) + rest);
    ReadPrefixedBack(cert, 3, Prefixed(block, 2) + rest);
    ReadPrefixedBack(block, 2, rest);
  }

  /** The first entry: its extensions are read into a certificate that has nothing but the leaf. */
  lemma FirstEntry(cert: bytes, block: bytes, rest: bytes)
    requires Fits24(cert) && |block| < 65536
    ensures ReadEntries(NO_CERTIFICATE, PutEntry(cert, block) + rest) ==
      match ReadBlock(Apply, Certificate([cert], None, None), block)
      case None => None
      case Some(c1) => ReadEntries(c1, rest)
  {
    EntryBack(cert, block, rest);
    assert NO_CERTIFICATE.(chain := NO_CERTIFICATE.chain + [cert]) == Certificate([cert], None, None);
  }

  lemma LeafBlockBack(c: Certificate)
    requires Encodable(c) && c.chain != []
    ensures ReadBlock(Apply, Certificate([c.chain[0]], None, None), Encode(PutExtension, LeafExtensions(c))) ==
      if Acceptable(c) then Some(Certificate([c.chain[0]], c.staple, c.timestamps)) else None
  {
    ReadBlockBack(Apply, Certificate([c.chain[0]], None, None), LeafExtensions(c));
    LeafBack(c, c.chain[0]);
  }

  lemma ChainBack(c: Certificate)
    requires Encodable(c)
    ensures ReadEntries(NO_CERTIFICATE, PutChain(c)) == if Acceptable(c) then Some(Normal(c)) else None
  {
    if c.chain != [] {
      FirstEntry(c.chain[0], Encode(PutExtension, LeafExtensions(c)), Encode(PutBare, c.chain[1..]));
      LeafBlockBack(c);
      BareBack(Certificate([c.chain[0]], c.staple, c.timestamps), c.chain[1..]);
      assert [c.chain[0]] + c.chain[1..] == c.chain;
    }
  }

  /** The list comes back with all that was stapled to it, exactly when nothing stapled is empty. */
  lemma CertificateBack(c: Certificate, rest: bytes)
    requires Encodable(c)
    ensures UnmarshalCertificate(MarshalCertificate(c) + rest) == if Acceptable(c) then Some((Normal(c), rest)) else None
  {
    Pow256Of8();
    ReadPrefixedBack(PutChain(c), 3, rest);
    ChainBack(c);
  }

  // ---------- the Certificate message ----------

  datatype CertificateMessage = CertificateMessage(certificate: Certificate, ocspStapling: bool, scts: bool)

  /** The flags say what may be sent. */
  function Allowed(m: CertificateMessage): Certificate {
    Certificate(m.certificate.chain, if m.ocspStapling then m.certificate.staple else None,
                if m.scts then m.certificate.timestamps else None)
  }

  function Marshal(m: CertificateMessage): bytes { [TYPE_CERTIFICATE] + Prefixed([0 as byte] + MarshalCertificate(Allowed(m)), 3) }

  function Unmarshal(data: bytes): Option<CertificateMessage> {
    match ReadBytes(data, 4)
    case None => None
    case Some((_, s)) =>
      match ReadPrefixed(s, 1)
      case None => None
      case Some((context, s1)) =>
        if context != [] then None
        else
          match UnmarshalCertificate(s1)
          case None => None
          case Some((c, rest)) => if rest != [] then None else Some(CertificateMessage(c, c.staple.Some?, c.timestamps.Some?))
  }

  /** The peer gets what the flags allowed, with the flags set for what it got. */
  lemma MessageBack(m: CertificateMessage)
    requires Encodable(Allowed(m))
    ensures Unmarshal(Marshal(m)) ==
      if Acceptable(Allowed(m)) then
        var c := Normal(Allowed(m));
        Some(CertificateMessage(c, c.staple.Some?, c.timestamps.Some?))
      else None
  {
    Pow256Of8();
    var body := [0 as byte] + MarshalCertificate(Allowed(m));
    var head := [TYPE_CERTIFICATE] + BigEndian(|body|, 3);
    assert Marshal(m) == head + body;
    ReadBytesBack(head, body);
    assert Prefixed([], 1) == [0 as byte] by { assert BigEndian(0, 1) == [0 as byte]; }
    ReadPrefixedBack([], 1, MarshalCertificate(Allowed(m)));
    assert MarshalCertificate(Allowed(m)) + [] == MarshalCertificate(Allowed(m));
    CertificateBack(Allowed(m), []);
  }
}
