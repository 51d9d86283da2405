/** The writing side of a connection as the object that owns its counters. */
module RecordWriter {
  import opened Outcomes
  import opened Octets
  import opened RecordProtection
  import opened RecordWriting
  import RecordLayer

  class ConnWriter {
    const half: RecordLayer.HalfConn
    const random: nat -> bytes
    var vers: nat
    var dynamicDisabled: bool
    var packetsSent: nat
    var bytesSent: nat
    var buffering: bool
    var draws: nat
    var sendBuf: bytes      // what waits for flush
    var network: bytes      // what has left

    ghost predicate Valid()
      reads this, half, half.seqOctets
    {
      half.Valid() && Lawful(half.p) && RecordWriting.Valid(State())
    }

    ghost function State(): Writer
      reads this, half, half.seqOctets
    {
      Writer(half.State(), half.nextCipher, vers, dynamicDisabled, packetsSent, bytesSent, buffering, draws)
    }

    /** Everything written so far, sent or buffered. */
    ghost function Output(): bytes
      reads this
    {
      network + sendBuf
    }

    ghost function Sealer(): (e: Encryptor)
      ensures Lawful(half.p) ==> Sound(e)
    {
      if Lawful(half.p) then EncryptorOfSound(half.p); EncryptorOf(half.p) else EncryptorOf(half.p)
    }

    constructor (half: RecordLayer.HalfConn, random: nat -> bytes)
      requires half.Valid() && Lawful(half.p) && half.State().cipher == NoCipher && half.nextCipher == None
      ensures Valid() && this.half == half && this.random == random
      ensures State() == Writer(half.State(), None, 0, false, 0, 0, false, 0) && Output() == []
    {
      this.half, this.random := half, random;
      vers, dynamicDisabled, packetsSent, bytesSent, buffering, draws := 0, false, 0, 0, false, 0;
      sendBuf, network := [], [];
    }

    /** Conn.write: into the buffer while buffering, else straight out and counted. */
    method Emit(data: bytes)
      requires sendBuf != [] ==> buffering
      modifies this`sendBuf, this`network, this`bytesSent
      ensures Output() == old(Output()) + data && (sendBuf != [] ==> buffering)
      ensures bytesSent == if buffering then old(bytesSent) else old(bytesSent) + |data|
    {
      if buffering {
        sendBuf := sendBuf + data;
      } else {
        network := network + data;
        bytesSent := bytesSent + |data|;
      }
    }

    /** Conn.flush: the buffer leaves in one piece and is counted; buffering ends only when there was something. */
    method Flush()
      modifies this`sendBuf, this`network, this`bytesSent, this`buffering
      ensures Output() == old(Output()) && sendBuf == []
      ensures bytesSent == old(bytesSent) + |old(sendBuf)|
      ensures buffering == (old(buffering) && old(sendBuf) == [])
    {
      if |sendBuf| == 0 {
        return;
      }
      network := network + sendBuf;
      bytesSent := bytesSent + |sendBuf|;
      sendBuf := [];
      buffering := false;
    }

    /** maxPayloadSizeForWrite */
    method MaxPayloadSizeForWrite(typ: byte) returns (n: int)
      requires Valid()
      modifies this`packetsSent
      ensures n == MaxPayload(old(State()), typ) && State() == CountPacket(old(State()), typ)
    {
      if dynamicDisabled || typ != APPLICATION_DATA || bytesSent >= RECORD_SIZE_BOOST_THRESHOLD {
        return MAX_PLAINTEXT;
      }
      var explicitNonceLen := half.ComputeExplicitNonceLen();
      var payloadBytes := TCP_MSS_ESTIMATE - RECORD_HEADER_LEN - explicitNonceLen;
      match half.cipher {
        case NoCipher =>
        case Stream(_, _, mac) => payloadBytes := payloadBytes - mac.size;
        case PrefixAead(_, _) => payloadBytes := payloadBytes - AEAD_OVERHEAD;
        case XorAead(_, _) => payloadBytes := payloadBytes - AEAD_OVERHEAD;
        case Cbc(_, blockSize, _, mac) =>
          payloadBytes := AndNot(payloadBytes, blockSize - 1) - 1;
          payloadBytes := payloadBytes - mac.size;
      }
      if vers == VERSION_TLS13 {
        payloadBytes := payloadBytes - 1;
      }
      var pkt := packetsSent;
      packetsSent := packetsSent + 1;
      if pkt > LAST_GROWING_PACKET {
        return MAX_PLAINTEXT;
      }
      n := payloadBytes * (pkt + 1);
      if n > MAX_PLAINTEXT {
        n := MAX_PLAINTEXT;
      }
    }

    /** One pass of the loop: the piece's record is emitted, or the reason why not is returned. */
    method WritePiece(typ: byte, piece: bytes, ghost before: Writer) returns (error: Option<WriteError>)
      requires Valid() && (sendBuf != [] ==> buffering) && State() == CountPacket(before, typ)
      modifies this`sendBuf, this`network, this`bytesSent, this`draws, half`cipher, half.seqOctets
      ensures half.Valid() && (sendBuf != [] ==> buffering)
      ensures match Sealer().encrypt(before.half, HeaderFor(typ, vers, |piece|), piece, random(before.draws))
        case Fail(reason) => error == Some(Unencryptable(reason)) && Output() == old(Output())
        case Ok((h, record)) => error == None && State() == Sent(before, typ, h, record) && Output() == old(Output()) + record
    {
      var header := HeaderFor(typ, vers, |piece|);
      var sealed := half.Encrypt(header, piece, random(draws));
      draws := draws + 1;
      match sealed
      case Fail(reason) =>
        error := Some(Unencryptable(reason));
      case Ok(record) =>
        Emit(record);
        error := None;
    }

    /** One pass of the loop. */
    method DoPass(typ: byte, data: bytes) returns (m: nat, error: Option<WriteError>, ghost record: bytes)
      requires Valid() && (sendBuf != [] ==> buffering) && data != []
      modifies this`sendBuf, this`network, this`bytesSent, this`draws, this`packetsSent, half`cipher, half.seqOctets
      ensures half.Valid() && (sendBuf != [] ==> buffering)
      ensures match WriteOne(Sealer(), random, old(State()), typ, data)
        case Stuck(reason) => error == Some(reason) && Output() == old(Output())
        case Went(size, sent, w1) => error == None && m == size && record == sent && State() == w1 && Output() == old(Output()) + sent
    {
      ghost var w := State();
      MaxPayloadInRange(w, typ);
      var maxPayload := MaxPayloadSizeForWrite(typ);
      m := if |data| > maxPayload then maxPayload else |data|;
      error := WritePiece(typ, data[..m], w);
      record := Output()[|old(Output())|..];
    }

    /** The loop of writeRecordLocked: n octets of the data went out. */
    method WriteLoop(typ: byte, data: bytes) returns (n: nat, error: Option<WriteError>)
      requires Valid() && (sendBuf != [] ==> buffering)
      modifies this`sendBuf, this`network, this`bytesSent, this`draws, this`packetsSent, half`cipher, half.seqOctets
      ensures half.Valid() && (sendBuf != [] ==> buffering)
      ensures Did(Write(Sealer(), random, old(State()), typ, data), old(Output()), n, error)
    {
      ghost var whole := Write(Sealer(), random, State(), typ, data);
      var rest := data;
      n := 0;
      error := None;
      while rest != []
        invariant Valid() && (sendBuf != [] ==> buffering)
        invariant Remains(Write(Sealer(), random, State(), typ, rest), whole, n, Output(), old(Output()))
        decreases |rest|
      {
        Advances(Sealer(), random, State(), typ, rest, whole, n, Output(), old(Output()));
        var m, failure, record := DoPass(typ, rest);
        if failure.Some? {
          error := failure;
          return;
        }
        n := n + m;
        rest := rest[m..];
      }
    }

    /** The object did what the specification says of a write. */
    ghost predicate Did(r: Written, before: bytes, n: nat, error: Option<WriteError>)
      reads this, half, half.seqOctets
    {
      error == r.error && n == |Concat(r.pieces)| && Output() == before + Concat(r.records) && (error == None ==> State() == r.writer)
    }

    /** writeRecordLocked: after a change_cipher_spec record the prepared cipher takes over. */
    method WriteRecordLocked(typ: byte, data: bytes) returns (n: nat, error: Option<WriteError>)
      requires Valid() && (sendBuf != [] ==> buffering)
      modifies this`sendBuf, this`network, this`bytesSent, this`draws, this`packetsSent, half`cipher, half`nextCipher, half.seqOctets
      ensures half.Valid()
      ensures var r := Write(Sealer(), random, old(State()), typ, data);
        && n == |Concat(r.pieces)| && Output() == old(Output()) + Concat(r.records)
        && if r.error.Some? || typ != CHANGE_CIPHER_SPEC || vers == VERSION_TLS13
           then error == r.error && (error == None ==> State() == r.writer)
           else if r.writer.next.None? || r.writer.half.version == VERSION_TLS13 then error == Some(NoCipherSpec)
           else error == None && State() == r.writer.(half := Half(r.writer.half.version, r.writer.next.value, 0), next := None)
    {
      n, error := WriteLoop(typ, data);
      if error == None && typ == CHANGE_CIPHER_SPEC && vers != VERSION_TLS13 {
        var ok := half.ChangeCipherSpec();
        if !ok {
          error := Some(NoCipherSpec);
        }
      }
    }
  }

  /** After n octets, out is on the wire and part is left of the whole write. */
  ghost predicate Remains(part: Written, whole: Written, n: nat, out: bytes, before: bytes) {
    && part.error == whole.error && part.writer == whole.writer
    && n + |Concat(part.pieces)| == |Concat(whole.pieces)|
    && out + Concat(part.records) == before + Concat(whole.records)
  }

  ghost predicate Advanced(e: Encryptor, random: nat -> bytes, typ: byte, rest: bytes, pass: Pass,
                           whole: Written, n: nat, out: bytes, before: bytes)
    requires Sound(e) && (pass.Went? ==> pass.m <= |rest| && RecordWriting.Valid(pass.writer))
  {
    if pass.Stuck? then whole.error == Some(pass.error) && n == |Concat(whole.pieces)| && out == before + Concat(whole.records)
    else Remains(Write(e, random, pass.writer, typ, rest[pass.m..]), whole, n + pass.m, out + pass.record, before)
  }

  /** One pass of the loop moves a piece from what is left to what is done. */
  lemma Advances(e: Encryptor, random: nat -> bytes, w: Writer, typ: byte, rest: bytes,
                 whole: Written, n: nat, out: bytes, before: bytes)
    requires Sound(e) && RecordWriting.Valid(w) && rest != []
    requires Remains(Write(e, random, w, typ, rest), whole, n, out, before)
    ensures Advanced(e, random, typ, rest, WriteOne(e, random, w, typ, rest), whole, n, out, before)
  {
    match WriteOne(e, random, w, typ, rest)
    case Stuck(_) =>
      assert out + [] == out;
    case Went(m, record, w1) =>
      var tail := Write(e, random, w1, typ, rest[m..]);
      ConcatCons(rest[..m], tail.pieces);
      ConcatCons(record, tail.records);
      assert out + (record + Concat(tail.records)) == out + record + Concat(tail.records);
  }
}
