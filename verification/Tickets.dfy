/** Sealing and opening session tickets (encryptTicket, decryptTicket). */
module Tickets {
  import opened Outcomes
  import opened Octets
  import SS = SessionStates
  import CE = CertificateEntries

  const KEY_NAME_LEN: nat := 16
  const BLOCK_SIZE: nat := 16
  const MAC_SIZE: nat := 32

  datatype TicketKey = TicketKey(keyName: bytes, aesKey: bytes, hmacKey: bytes, created: int)

  /** The key stream of AES in counter mode, and HMAC-SHA256. */
  datatype Primitives = Primitives(keystream: (bytes, bytes, nat) -> byte, hmac: (bytes, bytes) -> bytes)

  ghost predicate Lawful(p: Primitives) { forall k, m :: |p.hmac(k, m)| == MAC_SIZE }

  function XorStream(p: Primitives, key: bytes, iv: bytes, data: bytes): (r: bytes)
    ensures |r| == |data|
  {
    seq(|data|, i requires 0 <= i < |data| => Xor(data[i], p.keystream(key, iv, i)))
  }

  lemma XorStreamTwice(p: Primitives, key: bytes, iv: bytes, data: bytes)
    ensures XorStream(p, key, iv, XorStream(p, key, iv, data)) == data
  {
    var once := XorStream(p, key, iv, data);
    forall i | 0 <= i < |data| ensures XorStream(p, key, iv, once)[i] == data[i] {
      XorCancels(data[i], p.keystream(key, iv, i));
    }
  }

  /** Everything the MAC covers: name, IV, ciphertext. */
  function Sealed(p: Primitives, key: TicketKey, iv: bytes, state: bytes): bytes {
    key.keyName + iv + XorStream(p, key.aesKey, iv, state)
  }

  function Seal(p: Primitives, key: TicketKey, iv: bytes, state: bytes): bytes {
    Sealed(p, key, iv, state) + p.hmac(key.hmacKey, Sealed(p, key, iv, state))
  }

  /** The first key of that name; |keys| when there is none. */
  function IndexOf(keys: seq<TicketKey>, name: bytes): (i: nat)
    ensures i <= |keys| && (i < |keys| ==> keys[i].keyName == name) && forall j :: 0 <= j < i ==> keys[j].keyName != name
  {
    if keys == [] then 0 else if keys[0].keyName == name then 0 else 1 + IndexOf(keys[1..], name)
  }

  /** The contents of a ticket and whether an older key had to be used. */
  function Open(p: Primitives, keys: seq<TicketKey>, encrypted: bytes): Option<(bytes, bool)> {
    if |encrypted| < KEY_NAME_LEN + BLOCK_SIZE + MAC_SIZE then None
    else
      var i := IndexOf(keys, encrypted[..KEY_NAME_LEN]);
      if i == |keys| then None else OpenWith(p, keys[i], encrypted, i > 0)
  }

  function OpenWith(p: Primitives, key: TicketKey, encrypted: bytes, usedOld: bool): Option<(bytes, bool)>
    requires |encrypted| >= KEY_NAME_LEN + BLOCK_SIZE + MAC_SIZE
  {
    var n := |encrypted| - MAC_SIZE;
    if encrypted[n..] != p.hmac(key.hmacKey, encrypted[..n]) then None
    else
      var iv := encrypted[KEY_NAME_LEN..KEY_NAME_LEN + BLOCK_SIZE];
      Some((XorStream(p, key.aesKey, iv, encrypted[KEY_NAME_LEN + BLOCK_SIZE..n]), usedOld))
  }

  // ---------- the methods ----------

  method EncryptTicket(p: Primitives, keys: seq<TicketKey>, random: bytes, state: bytes) returns (r: Option<array<byte>>)
    requires Lawful(p) && |random| == BLOCK_SIZE && forall i :: 0 <= i < |keys| ==> |keys[i].keyName| == KEY_NAME_LEN
    ensures r.Some? <==> keys != []
    ensures r.Some? ==> fresh(r.value) && r.value[..] == Seal(p, keys[0], random, state)
  {
    if |keys| == 0 {
      return None;
    }
    var encrypted := new byte[KEY_NAME_LEN + BLOCK_SIZE + |state| + MAC_SIZE](_ => 0);
    var key := keys[0];
    Copy(encrypted, 0, random, KEY_NAME_LEN, []);
    Copy(encrypted, 0, key.keyName, 0, random);
    var ciphertext := XorStream(p, key.aesKey, random, state);
    Put(encrypted, KEY_NAME_LEN + BLOCK_SIZE, ciphertext, key.keyName + random);
    var n := encrypted.Length - MAC_SIZE;
    var tag := p.hmac(key.hmacKey, encrypted[..n]);
    Put(encrypted, n, tag, Sealed(p, key, random, state));
    assert encrypted[..] == encrypted[..encrypted.Length];
    return Some(encrypted);
  }

  /** Copies s to a position; what was put behind it stays. */
  method Copy(x: array<byte>, at: nat, s: bytes, shift: nat, ghost behind: bytes)
    requires at + shift + |s| + |behind| <= x.Length && x[at + shift + |s|..at + shift + |s| + |behind|] == behind
    modifies x
    ensures x[at + shift..at + shift + |s| + |behind|] == s + behind
  {
    for i := 0 to |s|
      invariant x[at + shift..at + shift + i] == s[..i]
      invariant x[at + shift + |s|..at + shift + |s| + |behind|] == behind
    {
      x[at + shift + i] := s[i];
    }
  }

  /** Writes s behind what is already there. */
  method Put(x: array<byte>, at: nat, s: bytes, ghost before: bytes)
    requires at + |s| <= x.Length && x[..at] == before
    modifies x
    ensures x[..at + |s|] == before + s
  {
    for i := 0 to |s|
      invariant x[..at + i] == before + s[..i]
    {
      x[at + i] := s[i];
    }
  }

  method DecryptTicket(p: Primitives, keys: seq<TicketKey>, encrypted: bytes) returns (r: Option<(bytes, bool)>)
    ensures r == Open(p, keys, encrypted)
  {
    if |encrypted| < KEY_NAME_LEN + BLOCK_SIZE + MAC_SIZE {
      return None;
    }
    var keyName := encrypted[..KEY_NAME_LEN];
    var iv := encrypted[KEY_NAME_LEN..KEY_NAME_LEN + BLOCK_SIZE];
    var n := |encrypted| - MAC_SIZE;
    var keyIndex := -1;
    for i := 0 to |keys|
      invariant keyIndex == -1 && forall j :: 0 <= j < i ==> keys[j].keyName != keyName
    {
      if keys[i].keyName == keyName {
        keyIndex := i;
        break;
      }
    }
    if keyIndex == -1 {
      return None;
    }
    var key := keys[keyIndex];
    var expected := p.hmac(key.hmacKey, encrypted[..n]);
    if encrypted[n..] != expected {
      return None;
    }
    return Some((XorStream(p, key.aesKey, iv, encrypted[KEY_NAME_LEN + BLOCK_SIZE..n]), keyIndex > 0));
  }

  // ---------- what opening makes of sealing ----------

  lemma OpenWithBack(p: Primitives, key: TicketKey, iv: bytes, state: bytes, usedOld: bool)
    requires Lawful(p) && |iv| == BLOCK_SIZE && |key.keyName| == KEY_NAME_LEN
    ensures |Seal(p, key, iv, state)| == KEY_NAME_LEN + BLOCK_SIZE + |state| + MAC_SIZE
    ensures Seal(p, key, iv, state)[..KEY_NAME_LEN] == key.keyName
    ensures OpenWith(p, key, Seal(p, key, iv, state), usedOld) == Some((state, usedOld))
  {
    var sealed := Sealed(p, key, iv, state);
    var tag := p.hmac(key.hmacKey, sealed);
    var e := Seal(p, key, iv, state);
    assert e[..|e| - MAC_SIZE] == sealed && e[|e| - MAC_SIZE..] == tag;
    assert e[KEY_NAME_LEN..KEY_NAME_LEN + BLOCK_SIZE] == iv;
    assert e[KEY_NAME_LEN + BLOCK_SIZE..|e| - MAC_SIZE] == XorStream(p, key.aesKey, iv, state);
    XorStreamTwice(p, key.aesKey, iv, state);
  }

  predicate DistinctNames(keys: seq<TicketKey>) {
    forall i, j :: 0 <= i < j < |keys| ==> keys[i].keyName != keys[j].keyName
  }

  /** A ticket sealed under a key opens under every list that still has the key, and says whether it was the first. */
  lemma TicketBack(p: Primitives, key: TicketKey, iv: bytes, state: bytes, keys: seq<TicketKey>, i: nat)
    requires Lawful(p) && |iv| == BLOCK_SIZE && |key.keyName| == KEY_NAME_LEN
    requires i < |keys| && keys[i] == key && DistinctNames(keys)
    ensures Open(p, keys, Seal(p, key, iv, state)) == Some((state, i > 0))
  {
    OpenWithBack(p, key, iv, state, i > 0);
    var k := IndexOf(keys, key.keyName);
    assert k == i;
  }

  /** From one session state to the ticket and back: the resumption secret and the certificates survive. */
  lemma SessionBack(p: Primitives, key: TicketKey, iv: bytes, m: SS.SessionStateTls13, keys: seq<TicketKey>, i: nat)
    requires Lawful(p) && |iv| == BLOCK_SIZE && |key.keyName| == KEY_NAME_LEN
    requires i < |keys| && keys[i] == key && DistinctNames(keys)
    requires SS.EncodableTls13(m) && SS.AcceptableTls13(m) && m.certificate == CE.Normal(m.certificate)
    ensures Open(p, keys, Seal(p, key, iv, SS.MarshalTls13(m))).Some?
    ensures SS.UnmarshalTls13(Open(p, keys, Seal(p, key, iv, SS.MarshalTls13(m))).value.0) == Some(m)
  {
    TicketBack(p, key, iv, SS.MarshalTls13(m), keys, i);
    SS.StateBackTls13(m);
  }
}
