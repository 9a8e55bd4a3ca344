/** V3 streaming encryption: encryptor, decryptor and header (citadel-envelope/src/stream_v3.rs). */
module StreamV3 {
  import opened Wrappers
  import opened Bytes
  import opened Crypto
  import opened Chunks
  import opened Wire

  type StreamId = s: bytes | |s| == 16 witness seq(16, _ => 0)

  const MAGIC: bytes := [0x43, 0x54, 0x44, 0x4C]
  const VERSION: byte := 0x03
  const FLAGS: byte := 0x00
  const V3_HEADER_BYTES: nat := 1162
  const CHUNK_MIN_BYTES: nat := 25
  const ZERO_NONCE: bytes := seq(12, _ => 0)

  // ----- derivations -----

  function DeriveStreamKey(c: Primitives, sharedSecret: bytes, kemCt: bytes, streamId: StreamId,
                           context: bytes): Result<bytes> {
    DeriveKey(c, sharedSecret, c.ctHash(kemCt), Ascii("v3:") + streamId + Ascii("|") + context)
  }

  function DeriveHeaderKey(c: Primitives, streamKey: bytes): Result<bytes> {
    c.expand(streamKey, Ascii("citadel-v3-header-key"), 32)
  }

  function DeriveFinalKey(c: Primitives, streamKey: bytes): Result<bytes> {
    c.expand(streamKey, Ascii("citadel-v3-final-key"), 32)
  }

  function DeriveChunkNonce(c: Primitives, streamKey: bytes, seqNo: u64): Result<bytes> {
    c.expand(streamKey, Ascii("citadel-v3-nonce|") + U64ToBE(seqNo), 12)
  }

  const CHUNK_LABEL: bytes := Ascii("citadel-v3-chunk|")

  function ChunkAad(streamId: StreamId, seqNo: u64, isFinal: bool, userAad: bytes): bytes {
    CHUNK_LABEL + (streamId + (U64ToBE(seqNo) + ([FlagByte(isFinal), 0x7C] + userAad)))
  }

  /** The chunk AAD pins the stream, the position, the final flag and the caller's AAD. */
  lemma ChunkAadInjective(id: StreamId, n: u64, f: bool, aad: bytes, id': StreamId, n': u64, f': bool, aad': bytes)
    requires ChunkAad(id, n, f, aad) == ChunkAad(id', n', f', aad')
    ensures id == id' && n == n' && f == f' && aad == aad'
  {
    var flag, flag' := [FlagByte(f), 0x7C], [FlagByte(f'), 0x7C];
    SplitConcat(CHUNK_LABEL, id + (U64ToBE(n) + (flag + aad)), CHUNK_LABEL, id' + (U64ToBE(n') + (flag' + aad')));
    SplitConcat(id, U64ToBE(n) + (flag + aad), id', U64ToBE(n') + (flag' + aad'));
    SplitConcat(U64ToBE(n), flag + aad, U64ToBE(n'), flag' + aad');
    SplitConcat(flag, aad, flag', aad');
    assert flag[0] == flag'[0];
  }

  function Frame(seqNo: u64, isFinal: bool, ct: bytes): (r: bytes)
    ensures |r| == 9 + |ct|
    ensures r[..8] == U64ToBE(seqNo) && r[8] == FlagByte(isFinal) && r[9..] == ct
  {
    U64ToBE(seqNo) + [FlagByte(isFinal)] + ct
  }

  // ----- encryptor -----

  datatype EncState = EncState(
    streamKey: bytes,
    finalKey: bytes,
    streamId: StreamId,
    header: bytes,
    nextSeq: u64,
    finalized: bool)

  function PreHeader(streamId: StreamId, kemCt: bytes): bytes {
    MAGIC + [VERSION, FLAGS, SUITE_KEM_HYBRID_X25519_MLKEM768, SUITE_AEAD_AES256GCM]
    + streamId + U16ToBE(KEM_CIPHERTEXT_BYTES) + kemCt
  }

  /** A new encryptor from a KEM output and a random stream id. */
  function NewEncryptor(c: Primitives, sharedSecret: bytes, kemCt: bytes, streamId: StreamId,
                        context: bytes): Result<EncState> {
    var streamKey :- DeriveStreamKey(c, sharedSecret, kemCt, streamId, context);
    var headerKey :- DeriveHeaderKey(c, streamKey);
    var finalKey :- DeriveFinalKey(c, streamKey);
    var preHeader := PreHeader(streamId, kemCt);
    var headerTag :- c.seal(headerKey, ZERO_NONCE, [], preHeader);
    Ok(EncState(streamKey, finalKey, streamId, preHeader + headerTag, 0, false))
  }

  /** What one call hands to the AEAD, if it gets that far and the AEAD accepts it. */
  datatype Sealed = Sealed(seqNo: u64, isFinal: bool, userAad: bytes, plaintext: bytes, nonce: bytes, ct: bytes)

  function SealChunk(c: Primitives, s: EncState, plaintext: bytes, isFinal: bool, aad: bytes): Result<Sealed> {
    if s.finalized then Err
    else
      var nonce :- DeriveChunkNonce(c, s.streamKey, s.nextSeq);
      var ct :- c.seal(s.streamKey, nonce, plaintext, ChunkAad(s.streamId, s.nextSeq, isFinal, aad));
      Ok(Sealed(s.nextSeq, isFinal, aad, plaintext, nonce, ct))
  }

  /** One `encrypt_chunk` call: the counter is checked only after the AEAD has sealed. */
  function EncryptStep(c: Primitives, s: EncState, plaintext: bytes, isFinal: bool, aad: bytes)
    : (EncState, Result<bytes>) {
    match SealChunk(c, s, plaintext, isFinal, aad)
    case Err => (s, Err)
    case Ok(t) =>
      if s.nextSeq == U64_MAX then (s, Err)
      else (s.(nextSeq := s.nextSeq + 1, finalized := isFinal), Ok(Frame(t.seqNo, isFinal, t.ct)))
  }

  /** What the final tag covers. */
  function TagMessage(streamId: StreamId, count: u64): bytes {
    streamId + U64ToBE(count)
  }

  function TagOf(c: Primitives, s: EncState): Result<bytes> {
    if !s.finalized then Err else Ok(c.mac(s.finalKey, TagMessage(s.streamId, s.nextSeq)))
  }

  class StreamV3Encryptor {
    const c: Primitives
    const streamKey: bytes
    const finalKey: bytes
    const streamId: StreamId
    const header: bytes
    var nextSeq: u64
    var finalized: bool

    function State(): EncState
      reads this
    {
      EncState(streamKey, finalKey, streamId, header, nextSeq, finalized)
    }

    constructor (c: Primitives, s: EncState)
      ensures this.c == c && State() == s
    {
      this.c := c;
      streamKey, finalKey, streamId, header := s.streamKey, s.finalKey, s.streamId, s.header;
      nextSeq, finalized := s.nextSeq, s.finalized;
    }

    /** `encapsulated` is the outcome of the KEM, `streamId` the random identifier. */
    static method New(c: Primitives, encapsulated: Result<(bytes, bytes)>, streamId: StreamId, context: bytes)
      returns (r: Result<StreamV3Encryptor>)
      ensures match encapsulated
              case Err => r.Err?
              case Ok(kem) =>
                var spec := NewEncryptor(c, kem.0, kem.1, streamId, context);
                && (r.Ok? <==> spec.Ok?)
                && (r.Ok? ==> fresh(r.value) && r.value.c == c && r.value.State() == spec.value)
    {
      if encapsulated.Err? {
        return Err;
      }
      var (sharedSecret, kemCt) := encapsulated.value;
      var streamKey := DeriveStreamKey(c, sharedSecret, kemCt, streamId, context);
      if streamKey.Err? { return Err; }
      var headerKey := DeriveHeaderKey(c, streamKey.value);
      if headerKey.Err? { return Err; }
      var finalKey := DeriveFinalKey(c, streamKey.value);
      if finalKey.Err? { return Err; }
      var preHeader: bytes := [];
      preHeader := preHeader + MAGIC;
      preHeader := preHeader + [VERSION];
      preHeader := preHeader + [FLAGS];
      preHeader := preHeader + [SUITE_KEM_HYBRID_X25519_MLKEM768];
      preHeader := preHeader + [SUITE_AEAD_AES256GCM];
      preHeader := preHeader + streamId;
      preHeader := preHeader + U16ToBE(KEM_CIPHERTEXT_BYTES);
      preHeader := preHeader + kemCt;
      assert preHeader == PreHeader(streamId, kemCt);
      var headerTag := c.seal(headerKey.value, ZERO_NONCE, [], preHeader);
      if headerTag.Err? { return Err; }
      var s := EncState(streamKey.value, finalKey.value, streamId, preHeader + headerTag.value, 0, false);
      var e := new StreamV3Encryptor(c, s);
      return Ok(e);
    }

    method EncryptChunk(plaintext: bytes, isFinal: bool, aad: bytes) returns (r: Result<bytes>)
      modifies this
      ensures (State(), r) == EncryptStep(c, old(State()), plaintext, isFinal, aad)
    {
      if finalized {
        return Err;
      }
      var seqNo := nextSeq;
      var nonce := DeriveChunkNonce(c, streamKey, seqNo);
      if nonce.Err? { return Err; }
      var ct := c.seal(streamKey, nonce.value, plaintext, ChunkAad(streamId, seqNo, isFinal, aad));
      if ct.Err? { return Err; }
      if nextSeq == U64_MAX {
        return Err;
      }
      nextSeq := nextSeq + 1;
      if isFinal {
        finalized := true;
      }
      var out: bytes := [];
      out := out + U64ToBE(seqNo);
      out := out + [FlagByte(isFinal)];
      out := out + ct.value;
      assert out == Frame(seqNo, isFinal, ct.value);
      return Ok(out);
    }

    method FinalTag() returns (r: Result<bytes>)
      ensures r == TagOf(c, State())
    {
      if !finalized {
        return Err;
      }
      return Ok(c.mac(finalKey, streamId + U64ToBE(nextSeq)));
    }
  }

  // ----- decryptor -----

  datatype DecState = DecState(
    streamKey: bytes,
    finalKey: bytes,
    streamId: StreamId,
    expectedSeq: u64,
    done: bool)

  datatype V3Header = V3Header(version: byte, suiteKem: byte, suiteAead: byte, streamId: StreamId)

  /** Parse and authenticate a header; bytes after the first 1162 are ignored. */
  function ParseHeader(c: Primitives, sk: bytes, header: bytes, context: bytes): Result<(DecState, V3Header)> {
    if |header| < V3_HEADER_BYTES then Err
    else if header[..4] != MAGIC then Err
    else if header[4] != VERSION then Err
    else if header[5] != FLAGS then Err
    else if header[6] != SUITE_KEM_HYBRID_X25519_MLKEM768 then Err
    else if header[7] != SUITE_AEAD_AES256GCM then Err
    else
      var streamId: StreamId := header[8..24];
      if U16FromBE(header[24..26]) != KEM_CIPHERTEXT_BYTES then Err
      else
        var kemCt := header[26..1146];
        var preHeader := header[..1146];
        var headerTag := header[1146..1162];
        var sharedSecret :- c.decapsulate(sk, kemCt);
        var streamKey :- DeriveStreamKey(c, sharedSecret, kemCt, streamId, context);
        var headerKey :- DeriveHeaderKey(c, streamKey);
        var expectedTag :- c.seal(headerKey, ZERO_NONCE, [], preHeader);
        if expectedTag != headerTag then Err
        else
          var finalKey :- DeriveFinalKey(c, streamKey);
          Ok((DecState(streamKey, finalKey, streamId, 0, false), V3Header(header[4], header[6], header[7], streamId)))
  }

  /** The AEAD query a call makes; none when it is refused before reaching the AEAD. */
  datatype Query = Query(seqNo: u64, isFinal: bool, nonce: bytes, ct: bytes)

  function QueryOf(c: Primitives, s: DecState, frame: bytes): Result<Query> {
    if s.done then Err
    else if |frame| < CHUNK_MIN_BYTES then Err
    else
      var seqNo := U64FromBE(frame[..8]);
      if frame[8] != 0x00 && frame[8] != 0x01 then Err
      else if seqNo != s.expectedSeq then Err
      else
        var nonce :- DeriveChunkNonce(c, s.streamKey, seqNo);
        Ok(Query(seqNo, frame[8] == 0x01, nonce, frame[9..]))
  }

  /** One `decrypt_chunk` call. */
  function DecryptStep(c: Primitives, s: DecState, frame: bytes, aad: bytes): (DecState, Result<(bytes, bool)>) {
    match QueryOf(c, s, frame)
    case Err => (s, Err)
    case Ok(q) =>
      match c.open(s.streamKey, q.nonce, q.ct, ChunkAad(s.streamId, q.seqNo, q.isFinal, aad))
      case Err => (s, Err)
      case Ok(plaintext) =>
        if s.expectedSeq == U64_MAX then (s, Err)
        else (s.(expectedSeq := s.expectedSeq + 1, done := q.isFinal), Ok((plaintext, q.isFinal)))
  }

  predicate VerifyFinalTag(c: Primitives, s: DecState, finalTag: bytes) {
    s.done && c.mac(s.finalKey, TagMessage(s.streamId, s.expectedSeq)) == finalTag
  }

  class StreamV3Decryptor {
    const c: Primitives
    const streamKey: bytes
    const finalKey: bytes
    const streamId: StreamId
    var expectedSeq: u64
    var done: bool

    function State(): DecState
      reads this
    {
      DecState(streamKey, finalKey, streamId, expectedSeq, done)
    }

    constructor (c: Primitives, s: DecState)
      ensures this.c == c && State() == s
    {
      this.c := c;
      streamKey, finalKey, streamId := s.streamKey, s.finalKey, s.streamId;
      expectedSeq, done := s.expectedSeq, s.done;
    }

    static method FromHeader(c: Primitives, sk: bytes, header: bytes, context: bytes)
      returns (r: Result<(StreamV3Decryptor, V3Header)>)
      ensures var spec := ParseHeader(c, sk, header, context);
              && (r.Ok? <==> spec.Ok?)
              && (r.Ok? ==> fresh(r.value.0) && r.value.0.c == c && (r.value.0.State(), r.value.1) == spec.value)
    {
      if |header| < V3_HEADER_BYTES { return Err; }
      if header[..4] != MAGIC { return Err; }
      var version := header[4];
      if version != VERSION { return Err; }
      if header[5] != FLAGS { return Err; }
      var suiteKem := header[6];
      if suiteKem != SUITE_KEM_HYBRID_X25519_MLKEM768 { return Err; }
      var suiteAead := header[7];
      if suiteAead != SUITE_AEAD_AES256GCM { return Err; }
      var streamId: StreamId := header[8..24];
      if U16FromBE(header[24..26]) != KEM_CIPHERTEXT_BYTES { return Err; }
      var kemCt := header[26..1146];
      var sharedSecret := c.decapsulate(sk, kemCt);
      if sharedSecret.Err? { return Err; }
      var streamKey := DeriveStreamKey(c, sharedSecret.value, kemCt, streamId, context);
      if streamKey.Err? { return Err; }
      var headerKey := DeriveHeaderKey(c, streamKey.value);
      if headerKey.Err? { return Err; }
      var expectedTag := c.seal(headerKey.value, ZERO_NONCE, [], header[..1146]);
      if expectedTag.Err? { return Err; }
      if expectedTag.value != header[1146..1162] { return Err; }
      var finalKey := DeriveFinalKey(c, streamKey.value);
      if finalKey.Err? { return Err; }
      var d := new StreamV3Decryptor(c, DecState(streamKey.value, finalKey.value, streamId, 0, false));
      return Ok((d, V3Header(version, suiteKem, suiteAead, streamId)));
    }

    method DecryptChunk(frame: bytes, aad: bytes) returns (r: Result<(bytes, bool)>)
      modifies this
      ensures (State(), r) == DecryptStep(c, old(State()), frame, aad)
    {
      if done {
        return Err;
      }
      if |frame| < CHUNK_MIN_BYTES {
        return Err;
      }
      var seqNo := U64FromBE(frame[..8]);
      var isFinal: bool;
      if frame[8] == 0x00 {
        isFinal := false;
      } else if frame[8] == 0x01 {
        isFinal := true;
      } else {
        return Err;
      }
      var ct := frame[9..];
      if seqNo != expectedSeq {
        return Err;
      }
      var nonce := DeriveChunkNonce(c, streamKey, seqNo);
      if nonce.Err? { return Err; }
      var plaintext := c.open(streamKey, nonce.value, ct, ChunkAad(streamId, seqNo, isFinal, aad));
      if plaintext.Err? { return Err; }
      if expectedSeq == U64_MAX {
        return Err;
      }
      expectedSeq := expectedSeq + 1;
      if isFinal {
        done := true;
      }
      return Ok((plaintext.value, isFinal));
    }

    method Finish(finalTag: bytes) returns (ok: bool)
      ensures ok == VerifyFinalTag(c, State(), finalTag)
    {
      if !done {
        return false;
      }
      return c.mac(finalKey, streamId + U64ToBE(expectedSeq)) == finalTag;
    }
  }

  // ----- header round trip -----

  /** The recipient of an honest header, with or without trailing bytes, starts on the sender's keys and stream id. */
  lemma HeaderRoundTrip(c: Primitives, sk: bytes, sharedSecret: bytes, kemCt: bytes, streamId: StreamId,
                        context: bytes, tail: bytes)
    requires OpensWhatItSeals(c)
    requires |kemCt| == KEM_CIPHERTEXT_BYTES
    requires c.decapsulate(sk, kemCt) == Ok(sharedSecret)
    requires NewEncryptor(c, sharedSecret, kemCt, streamId, context).Ok?
    ensures var e := NewEncryptor(c, sharedSecret, kemCt, streamId, context).value;
            && |e.header| == V3_HEADER_BYTES
            && ParseHeader(c, sk, e.header + tail, context)
               == Ok((DecState(e.streamKey, e.finalKey, e.streamId, 0, false),
                      V3Header(VERSION, SUITE_KEM_HYBRID_X25519_MLKEM768, SUITE_AEAD_AES256GCM, streamId)))
  {
    var e := NewEncryptor(c, sharedSecret, kemCt, streamId, context).value;
    var pre := PreHeader(streamId, kemCt);
    assert |pre| == 1146;
    assert |e.header| == 1162;
    assert pre[..8] == MAGIC + [VERSION, FLAGS, SUITE_KEM_HYBRID_X25519_MLKEM768, SUITE_AEAD_AES256GCM];
    assert pre[..4] == pre[..8][..4] == MAGIC;
    var h := e.header + tail;
    assert h[..1146] == pre;
    assert h[..4] == pre[..4] == MAGIC;
    assert h[8..24] == pre[8..24] == streamId;
    assert h[24..26] == pre[24..26] == U16ToBE(KEM_CIPHERTEXT_BYTES);
    assert h[26..1146] == pre[26..1146] == kemCt;
    assert h[1146..1162] == e.header[1146..];
  }
}
