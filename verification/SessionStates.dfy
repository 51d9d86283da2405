/** The contents of session tickets: sessionState and sessionStateTLS13, written and read back. */
module SessionStates {
  import opened Outcomes
  import opened Octets
  import opened Codec
  import CE = CertificateEntries
  import RT = ClientHelloRoundTrip

  const VERSION_TLS13: nat := 0x0304
  const UINT32: nat := 0x1_0000_0000

  datatype SessionState = SessionState(
    vers: nat, cipherSuite: nat, createdAt: nat, masterSecret: bytes, certificates: seq<bytes>, usedOldKey: bool)

  datatype SessionStateTls13 = SessionStateTls13(cipherSuite: nat, createdAt: nat, resumptionSecret: bytes, certificate: CE.Certificate)

  /** A 64-bit number as two 32-bit halves, high half first; v>>32 and the low half. */
  function PutUint64(v: nat): bytes { BigEndian(v / UINT32, 4) + BigEndian(v % UINT32, 4) }

  function ReadUint64(s: bytes): Read<nat> {
    match ReadUint(s, 4)
    case None => None
    case Some((hi, s1)) =>
      match ReadUint(s1, 4)
      case None => None
      case Some((lo, rest)) => Some((hi * UINT32 + lo, rest))
  }

  lemma HalvesBack(hi: nat, lo: nat, rest: bytes)
    requires hi < UINT32 && lo < UINT32
    ensures ReadUint64(BigEndian(hi, 4) + BigEndian(lo, 4) + rest) == Some((hi * UINT32 + lo, rest))
  {
    Pow256Of8();
    RT.Regroup(BigEndian(hi, 4), BigEndian(lo, 4), rest);
    ReadUintBack(hi, 4, BigEndian(lo, 4) + rest);
    ReadUintBack(lo, 4, rest);
  }

  lemma ReadUint64Back(v: nat, rest: bytes)
    requires v < 0x1_0000_0000_0000_0000
    ensures ReadUint64(PutUint64(v) + rest) == Some((v, rest))
  {
    HalvesBack(v / UINT32, v % UINT32, rest);
  }

  // ---------- TLS 1.0-1.2 ----------

  function Put24(x: bytes): bytes { Prefixed(x, 3) }
  function Read24(s: bytes): Read<bytes> { ReadPrefixed(s, 3) }
  predicate AnyBytes(x: bytes) { true }

  lemma Prefixed24Items()
    ensures Undoes(Read24, Put24, CE.Fits24, AnyBytes)
  {
    Pow256Of8();
    forall x: bytes, rest: bytes | CE.Fits24(x) ensures UndoesOne(Read24, Put24, AnyBytes, x, rest) {
      ReadPrefixedBack(x, 3, rest);
      assert |Put24(x)| == 3 + |x|;
    }
  }

  function PutSecret(m: SessionState): bytes { Prefixed(m.masterSecret, 2) + Prefixed(Encode(Put24, m.certificates), 3) }

  function Marshal(m: SessionState): bytes {
    BigEndian(m.vers, 2) + (BigEndian(m.cipherSuite, 2) + (PutUint64(m.createdAt) + PutSecret(m)))
  }

  /** usedOldKey is not part of the ticket; the caller sets it. */
  function Unmarshal(data: bytes, usedOldKey: bool): Option<SessionState> {
    match ReadUint(data, 2)
    case None => None
    case Some((vers, s1)) =>
      match ReadUint(s1, 2)
      case None => None
      case Some((cipherSuite, s2)) =>
        match ReadUint64(s2)
        case None => None
        case Some((createdAt, s3)) => UnmarshalSecret(s3, vers, cipherSuite, createdAt, usedOldKey)
  }

  function UnmarshalSecret(s: bytes, vers: nat, cipherSuite: nat, createdAt: nat, usedOldKey: bool): Option<SessionState> {
    match ReadNonEmpty(s, 2)
    case None => None
    case Some((masterSecret, s1)) =>
      match ReadPrefixed(s1, 3)
      case None => None
      case Some((list, rest)) =>
        match ReadItems(Read24, list)
        case None => None
        case Some(certificates) =>
          if rest != [] then None else Some(SessionState(vers, cipherSuite, createdAt, masterSecret, certificates, usedOldKey))
  }

  ghost predicate Encodable(m: SessionState) {
    && m.vers < 65536 && m.cipherSuite < 65536 && m.createdAt < 0x1_0000_0000_0000_0000 && |m.masterSecret| < 65536
    && All(CE.Fits24, m.certificates) && |Encode(Put24, m.certificates)| < 0x100_0000
  }

  lemma SecretBack(m: SessionState, usedOldKey: bool)
    requires Encodable(m)
    ensures UnmarshalSecret(PutSecret(m), m.vers, m.cipherSuite, m.createdAt, usedOldKey)
      == if m.masterSecret == [] then None else Some(m.(usedOldKey := usedOldKey))
  {
    Pow256Of8();
    ReadNonEmptyBack(m.masterSecret, 2, Prefixed(Encode(Put24, m.certificates), 3));
    ReadPrefixedWhole(Encode(Put24, m.certificates), 3);
    Prefixed24Items();
    ReadItemsBack(Read24, Put24, CE.Fits24, AnyBytes, m.certificates);
    assert All(AnyBytes, m.certificates);
  }

  /** The state comes back, with the flag the reader supplies, exactly when it has a master secret. */
  lemma StateBack(m: SessionState, usedOldKey: bool)
    requires Encodable(m)
    ensures Unmarshal(Marshal(m), usedOldKey) == if m.masterSecret == [] then None else Some(m.(usedOldKey := usedOldKey))
  {
    Pow256Of8();
    ReadUintBack(m.vers, 2, BigEndian(m.cipherSuite, 2) + (PutUint64(m.createdAt) + PutSecret(m)));
    ReadUintBack(m.cipherSuite, 2, PutUint64(m.createdAt) + PutSecret(m));
    ReadUint64Back(m.createdAt, PutSecret(m));
    SecretBack(m, usedOldKey);
  }

  // ---------- TLS 1.3 ----------

  function PutSecretTls13(m: SessionStateTls13): bytes { Prefixed(m.resumptionSecret, 1) + CE.MarshalCertificate(m.certificate) }

  function MarshalTls13(m: SessionStateTls13): bytes {
    BigEndian(VERSION_TLS13, 2) + (BigEndian(0, 1) + (BigEndian(m.cipherSuite, 2) + (PutUint64(m.createdAt) + PutSecretTls13(m))))
  }

  function UnmarshalTls13(data: bytes): Option<SessionStateTls13> {
    match ReadUint(data, 2)
    case None => None
    case Some((version, s1)) =>
      if version != VERSION_TLS13 then None
      else
        match ReadUint(s1, 1)
        case None => None
        case Some((revision, s2)) => if revision != 0 then None else UnmarshalFieldsTls13(s2)
  }

  function UnmarshalFieldsTls13(s: bytes): Option<SessionStateTls13> {
    match ReadUint(s, 2)
    case None => None
    case Some((cipherSuite, s1)) =>
      match ReadUint64(s1)
      case None => None
      case Some((createdAt, s2)) =>
        match ReadNonEmpty(s2, 1)
        case None => None
        case Some((secret, s3)) =>
          match CE.UnmarshalCertificate(s3)
          case None => None
          case Some((c, rest)) => if rest != [] then None else Some(SessionStateTls13(cipherSuite, createdAt, secret, c))
  }

  ghost predicate EncodableTls13(m: SessionStateTls13) {
    && m.cipherSuite < 65536 && m.createdAt < 0x1_0000_0000_0000_0000 && |m.resumptionSecret| < 256
    && CE.Encodable(m.certificate)
  }

  predicate AcceptableTls13(m: SessionStateTls13) { m.resumptionSecret != [] && CE.Acceptable(m.certificate) }

  /** The state comes back exactly when it has a secret and nothing stapled is empty. */
  lemma StateBackTls13(m: SessionStateTls13)
    requires EncodableTls13(m)
    ensures UnmarshalTls13(MarshalTls13(m)) ==
      if AcceptableTls13(m) then Some(m.(certificate := CE.Normal(m.certificate))) else None
  {
    Pow256Of8();
    var s := BigEndian(m.cipherSuite, 2) + (PutUint64(m.createdAt) + PutSecretTls13(m));
    ReadUintBack(VERSION_TLS13, 2, BigEndian(0, 1) + s);
    ReadUintBack(0, 1, s);
    FieldsBackTls13(m);
  }

  lemma FieldsBackTls13(m: SessionStateTls13)
    requires EncodableTls13(m)
    ensures UnmarshalFieldsTls13(BigEndian(m.cipherSuite, 2) + (PutUint64(m.createdAt) + PutSecretTls13(m))) ==
      if AcceptableTls13(m) then Some(m.(certificate := CE.Normal(m.certificate))) else None
  {
    Pow256Of8();
    ReadUintBack(m.cipherSuite, 2, PutUint64(m.createdAt) + PutSecretTls13(m));
    ReadUint64Back(m.createdAt, PutSecretTls13(m));
    ReadNonEmptyBack(m.resumptionSecret, 1, CE.MarshalCertificate(m.certificate));
    CE.CertificateBack(m.certificate, []);
    assert CE.MarshalCertificate(m.certificate) + [] == CE.MarshalCertificate(m.certificate);
  }
}
