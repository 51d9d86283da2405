/** The running hashes of a TLS 1.0-1.2 handshake and the buffer kept for a client certificate. */
module HandshakeHashes {
  import opened Outcomes
  import opened Tls12Terms

  /** A finishedHash: two running hashes, two more before TLS 1.2, and the whole transcript while it may be needed. */
  class FinishedHash {
    const vers: nat
    const prf: PrfKind
    var client: seq<Message>
    var server: seq<Message>
    var clientMd5: seq<Message>
    var serverMd5: seq<Message>
    var buffer: Option<seq<Message>>

    /** All hashes in use have been fed the same messages. */
    ghost predicate Valid()
      reads this
    {
      && (prf.Prf12? <==> vers >= TLS12)
      && server == client
      && (vers < TLS12 ==> clientMd5 == client && serverMd5 == client)
    }

    ghost function Value(): HandshakeHash
      reads this
    {
      HandshakeHash(vers, prf, client, buffer)
    }

    constructor (vers: nat, suite: Suite)
      ensures Valid() && Value() == NewHandshakeHash(vers, suite)
    {
      this.vers, prf := vers, PrfFor(vers, suite);
      client, server, clientMd5, serverMd5 := [], [], [], [];
      buffer := if vers >= TLS12 then Some([]) else None;
    }

    method Write(m: Message)
      requires Valid()
      modifies this
      ensures Valid() && Value() == old(Value()).Write(m)
    {
      client, server := client + [m], server + [m];
      if vers < TLS12 {
        clientMd5, serverMd5 := clientMd5 + [m], serverMd5 + [m];
      }
      if buffer.Some? {
        buffer := Some(buffer.value + [m]);
      }
    }

    /** Before TLS 1.2 the sum is an MD5 digest and a SHA-1 digest, of the same messages. */
    method Sum() returns (sum: Term)
      requires Valid()
      ensures sum == Value().Sum()
    {
      if vers >= TLS12 {
        return Hashed(prf.hash, Messages(client));
      }
      assert clientMd5 == client;
      return Hashed(Md5Sha1, Messages(client));
    }

    method ClientSum(masterSecret: Term) returns (verifyData: Term)
      requires Valid()
      ensures verifyData == Value().ClientSum(masterSecret)
    {
      var sum := Sum();
      return Prf(prf, masterSecret, "client finished", [sum]);
    }

    method ServerSum(masterSecret: Term) returns (verifyData: Term)
      requires Valid()
      ensures verifyData == Value().ServerSum(masterSecret)
    {
      var sum := Sum();
      return Prf(prf, masterSecret, "server finished", [sum]);
    }

    /** None is the panic. */
    method HashForClientCertificate(sigType: SignatureType, hash: HashKind) returns (r: Option<Term>)
      requires Valid()
      ensures r == Value().ForClientCertificate(sigType, hash)
    {
      if (vers >= TLS12 || sigType == Ed25519Signature) && buffer.None? {
        return None;
      }
      if sigType == Ed25519Signature {
        return Some(Hashed(Direct, Messages(buffer.value)));
      }
      if vers >= TLS12 {
        return Some(Hashed(hash, Messages(buffer.value)));
      }
      if sigType == EcdsaSignature {
        return Some(Hashed(Sha1, Messages(server)));
      }
      var sum := Sum();
      return Some(sum);
    }

    method DiscardHandshakeBuffer()
      requires Valid()
      modifies this
      ensures Valid() && Value() == old(Value()).Discard()
    {
      buffer := None;
    }
  }
}
