/** V2 streaming encryption with 32-bit, one-based chunk indices (citadel-envelope/src/stream.rs). */
module StreamV2 {
  import opened Wrappers
  import opened Bytes
  import opened Crypto
  import opened Chunks
  import opened Wire

  const CHUNK_LABEL: bytes := Ascii("citadel-stream-v2|")

  function DeriveChunkKey(c: Primitives, streamKey: bytes, index: u32, isFinal: bool): Result<bytes> {
    c.expand(streamKey, Ascii("citadel-stream-chunk-v2|") + U32ToBE(index) + [FlagByte(isFinal)], 32)
  }

  function ChunkAad(userAad: bytes, index: u32, isFinal: bool): bytes {
    CHUNK_LABEL + (U32ToBE(index) + ([FlagByte(isFinal), 0x7C] + userAad))
  }

  /** The chunk AAD pins the position, the final flag and the caller's AAD (but, unlike V3, no stream id). */
  lemma ChunkAadInjective(aad: bytes, n: u32, f: bool, aad': bytes, n': u32, f': bool)
    requires ChunkAad(aad, n, f) == ChunkAad(aad', n', f')
    ensures aad == aad' && n == n' && f == f'
  {
    var flag, flag' := [FlagByte(f), 0x7C], [FlagByte(f'), 0x7C];
    SplitConcat(CHUNK_LABEL, U32ToBE(n) + (flag + aad), CHUNK_LABEL, U32ToBE(n') + (flag' + aad'));
    SplitConcat(U32ToBE(n), flag + aad, U32ToBE(n'), flag' + aad');
    SplitConcat(flag, aad, flag', aad');
    assert flag[0] == flag'[0];
  }

  function Frame(index: u32, isFinal: bool, nonce: Nonce, ct: bytes): (r: bytes)
    ensures |r| == 17 + |ct|
    ensures r[..4] == U32ToBE(index) && r[4] == FlagByte(isFinal) && r[5..17] == nonce && r[17..] == ct
  {
    U32ToBE(index) + [FlagByte(isFinal)] + nonce + ct
  }

  // ----- encryptor -----

  datatype EncState = EncState(streamKey: bytes, header: bytes, nextIndex: u32, finalized: bool)

  /** One `encrypt_chunk` call; `nonce` is the outcome of the random generator. */
  function EncryptStep(c: Primitives, s: EncState, nonce: Result<Nonce>, plaintext: bytes, isFinal: bool,
                       aad: bytes): (EncState, Result<bytes>) {
    if s.finalized then (s, Err)
    else
      match DeriveChunkKey(c, s.streamKey, s.nextIndex, isFinal)
      case Err => (s, Err)
      case Ok(key) =>
        if nonce.Err? then (s, Err)
        else
          match c.seal(key, nonce.value, plaintext, ChunkAad(aad, s.nextIndex, isFinal))
          case Err => (s, Err)
          case Ok(ct) =>
            if s.nextIndex == U32_MAX then (s, Err)
            else (s.(nextIndex := s.nextIndex + 1, finalized := isFinal),
                  Ok(Frame(s.nextIndex, isFinal, nonce.value, ct)))
  }

  class StreamEncryptor {
    const c: Primitives
    const streamKey: bytes
    const header: bytes
    var nextIndex: u32
    var finalized: bool

    function State(): EncState
      reads this
    {
      EncState(streamKey, header, nextIndex, finalized)
    }

    constructor (c: Primitives, streamKey: bytes, header: bytes)
      ensures this.c == c && State() == EncState(streamKey, header, 1, false)
    {
      this.c, this.streamKey, this.header := c, streamKey, header;
      nextIndex, finalized := 1, false;
    }

    /** `encapsulated` is the outcome of the KEM. */
    static method New(c: Primitives, encapsulated: Result<(bytes, bytes)>,
                      context: bytes) returns (r: Result<StreamEncryptor>)
      ensures r.Ok? <==>
        && encapsulated.Ok? && |encapsulated.value.1| == KEM_CIPHERTEXT_BYTES
        && DeriveKey(c, encapsulated.value.0, c.ctHash(encapsulated.value.1), context).Ok?
      ensures r.Ok? ==>
        && fresh(r.value) && r.value.c == c
        && r.value.State()
           == EncState(DeriveKey(c, encapsulated.value.0, c.ctHash(encapsulated.value.1), context).value,
                       StreamHeaderBytes(encapsulated.value.1), 1, false)
    {
      if encapsulated.Err? {
        return Err;
      }
      var (sharedSecret, kemCt) := encapsulated.value;
      var key := DeriveKey(c, sharedSecret, c.ctHash(kemCt), context);
      if key.Err? { return Err; }
      var header := EncodeStreamHeader(kemCt);
      if header.Err? { return Err; }
      var e := new StreamEncryptor(c, key.value, header.value);
      return Ok(e);
    }

    method EncryptChunk(nonce: Result<Nonce>, plaintext: bytes, isFinal: bool, aad: bytes) returns (r: Result<bytes>)
      modifies this
      ensures (State(), r) == EncryptStep(c, old(State()), nonce, plaintext, isFinal, aad)
    {
      if finalized {
        return Err;
      }
      var index := nextIndex;
      var key := DeriveChunkKey(c, streamKey, index, isFinal);
      if key.Err? { return Err; }
      if nonce.Err? { return Err; }
      var ct := c.seal(key.value, nonce.value, plaintext, ChunkAad(aad, index, isFinal));
      if ct.Err? { return Err; }
      if nextIndex == U32_MAX {
        return Err;
      }
      nextIndex := nextIndex + 1;
      if isFinal {
        finalized := true;
      }
      var out: bytes := [];
      out := out + U32ToBE(index);
      out := out + [FlagByte(isFinal)];
      out := out + nonce.value;
      out := out + ct.value;
      assert out == Frame(index, isFinal, nonce.value, ct.value);
      return Ok(out);
    }
  }

  // ----- decryptor -----

  datatype DecState = DecState(streamKey: bytes, expectedIndex: u32, done: bool)

  function ParseHeader(c: Primitives, sk: bytes, header: bytes, context: bytes): Result<DecState> {
    var parts :- DecodeStreamHeader(header);
    var sharedSecret :- c.decapsulate(sk, parts.kemCiphertext);
    var key :- DeriveKey(c, sharedSecret, c.ctHash(parts.kemCiphertext), context);
    Ok(DecState(key, 1, false))
  }

  function DecryptStep(c: Primitives, s: DecState, frame: bytes, aad: bytes): (DecState, Result<(bytes, bool)>) {
    if s.done then (s, Err)
    else if |frame| < 33 then (s, Err)
    else
      var index := U32FromBE(frame[..4]);
      if frame[4] != 0x00 && frame[4] != 0x01 then (s, Err)
      else
        var isFinal := frame[4] == 0x01;
        if index != s.expectedIndex then (s, Err)
        else
          match DeriveChunkKey(c, s.streamKey, index, isFinal)
          case Err => (s, Err)
          case Ok(key) =>
            match c.open(key, frame[5..17], frame[17..], ChunkAad(aad, index, isFinal))
            case Err => (s, Err)
            case Ok(plaintext) =>
              if s.expectedIndex == U32_MAX then (s, Err)
              else (s.(expectedIndex := s.expectedIndex + 1, done := isFinal), Ok((plaintext, isFinal)))
  }

  class StreamDecryptor {
    const c: Primitives
    const streamKey: bytes
    var expectedIndex: u32
    var done: bool

    function State(): DecState
      reads this
    {
      DecState(streamKey, expectedIndex, done)
    }

    constructor (c: Primitives, s: DecState)
      ensures this.c == c && State() == s
    {
      this.c, streamKey := c, s.streamKey;
      expectedIndex, done := s.expectedIndex, s.done;
    }

    static method FromHeader(c: Primitives, sk: bytes, header: bytes,
                             context: bytes) returns (r: Result<StreamDecryptor>)
      ensures var spec := ParseHeader(c, sk, header, context);
              && (r.Ok? <==> spec.Ok?)
              && (r.Ok? ==> fresh(r.value) && r.value.c == c && r.value.State() == spec.value)
    {
      var parts := DecodeStreamHeader(header);
      if parts.Err? { return Err; }
      var sharedSecret := c.decapsulate(sk, parts.value.kemCiphertext);
      if sharedSecret.Err? { return Err; }
      var key := DeriveKey(c, sharedSecret.value, c.ctHash(parts.value.kemCiphertext), context);
      if key.Err? { return Err; }
      var d := new StreamDecryptor(c, DecState(key.value, 1, false));
      return Ok(d);
    }

    method DecryptChunk(frame: bytes, aad: bytes) returns (r: Result<(bytes, bool)>)
      modifies this
      ensures (State(), r) == DecryptStep(c, old(State()), frame, aad)
    {
      if done || |frame| < 33 {
        return Err;
      }
      var index := U32FromBE(frame[..4]);
      if frame[4] != 0x00 && frame[4] != 0x01 {
        return Err;
      }
      var isFinal := frame[4] == 0x01;
      if index != expectedIndex {
        return Err;
      }
      var key := DeriveChunkKey(c, streamKey, index, isFinal);
      if key.Err? { return Err; }
      var plaintext := c.open(key.value, frame[5..17], frame[17..], ChunkAad(aad, index, isFinal));
      if plaintext.Err? { return Err; }
      if expectedIndex == U32_MAX {
        return Err;
      }
      expectedIndex := expectedIndex + 1;
      if isFinal {
        done := true;
      }
      return Ok((plaintext.value, isFinal));
    }
  }

  /** The recipient of an honest header, with or without trailing bytes, starts on the sender's key at index 1. */
  lemma HeaderRoundTrip(c: Primitives, sk: bytes, sharedSecret: bytes, kemCt: bytes, context: bytes, tail: bytes)
    requires |kemCt| == KEM_CIPHERTEXT_BYTES && c.decapsulate(sk, kemCt) == Ok(sharedSecret)
    requires DeriveKey(c, sharedSecret, c.ctHash(kemCt), context).Ok?
    ensures ParseHeader(c, sk, StreamHeaderBytes(kemCt) + tail, context)
         == Ok(DecState(DeriveKey(c, sharedSecret, c.ctHash(kemCt), context).value, 1, false))
  {
    DecodeEncodeStreamHeader(kemCt, tail);
    hide DecodeStreamHeader, StreamHeaderBytes;
  }

  // ----- runs -----

  datatype Call = Call(nonce: Result<Nonce>, plaintext: bytes, isFinal: bool, aad: bytes)

  /** The state after a run of calls and the frames it released. */
  function EncryptRun(c: Primitives, s: EncState, calls: seq<Call>): (EncState, seq<bytes>)
    decreases |calls|
  {
    if calls == [] then (s, [])
    else
      var front := calls[..|calls| - 1];
      var last := calls[|calls| - 1];
      var (s', frames) := EncryptRun(c, s, front);
      var (s'', r) := EncryptStep(c, s', last.nonce, last.plaintext, last.isFinal, last.aad);
      (s'', if r.Ok? then frames + [r.value] else frames)
  }

  /**
   Over any mix of successful and failing calls the released frames carry the indices 1, 2, 3, ... in order, and there
   are never more than 2^32-2 of them.
   */
  lemma {:induction false} CounterDiscipline(c: Primitives, s: EncState, calls: seq<Call>)
    requires s.nextIndex == 1 && !s.finalized
    ensures var (s', frames) := EncryptRun(c, s, calls);
            && s'.nextIndex == |frames| + 1 && |frames| <= U32_MAX - 1
            && s'.streamKey == s.streamKey
            && (forall i | 0 <= i < |frames| :: |frames[i]| >= 17 && U32FromBE(frames[i][..4]) == i + 1)
            && (s'.finalized <==> frames != [] && frames[|frames| - 1][4] == 0x01)
    decreases |calls|
  {
    if calls != [] {
      CounterDiscipline(c, s, calls[..|calls| - 1]);
    }
  }

  /** The primitives serve the call at this index. */
  predicate CallSeals(c: Primitives, streamKey: bytes, index: u32, call: Call) {
    var key := DeriveChunkKey(c, streamKey, index, call.isFinal);
    && key.Ok? && call.nonce.Ok?
    && c.seal(key.value, call.nonce.value, call.plaintext, ChunkAad(call.aad, index, call.isFinal)).Ok?
  }

  /** The index the encryptor is at after `n` calls that the primitives served. */
  function IndexAfter(n: nat): u32 {
    if n + 1 < U32_MAX then n + 1 else U32_MAX
  }

  /**
   The limit is reached, and it is 2^32-2: a run of calls that the primitives serve, none final but perhaps the last,
   releases a frame for every call up to that many and none after.
   */
  lemma {:induction false} LimitIsTight(c: Primitives, s: EncState, calls: seq<Call>)
    requires s.nextIndex == 1 && !s.finalized
    requires forall i | 0 <= i < |calls| - 1 :: !calls[i].isFinal
    requires forall i | 0 <= i < |calls| :: CallSeals(c, s.streamKey, IndexAfter(i), calls[i])
    ensures var (s', frames) := EncryptRun(c, s, calls);
            && |frames| == (if |calls| <= U32_MAX - 1 then |calls| else U32_MAX - 1)
            && s'.streamKey == s.streamKey && s'.nextIndex == IndexAfter(|calls|)
            && (s'.finalized <==> 0 < |calls| <= U32_MAX - 1 && calls[|calls| - 1].isFinal)
    decreases |calls|
  {
    if calls != [] {
      var k := |calls| - 1;
      LimitIsTight(c, s, calls[..k]);
      assert !EncryptRun(c, s, calls[..k]).0.finalized;
      assert CallSeals(c, s.streamKey, IndexAfter(k), calls[k]);
    }
  }

  /** A released frame decrypts at its own position, on the same key, with its plaintext and flag. */
  lemma ChunkRoundTrip(c: Primitives, s: EncState, nonce: Result<Nonce>, plaintext: bytes, isFinal: bool, aad: bytes)
    requires OpensWhatItSeals(c)
    requires EncryptStep(c, s, nonce, plaintext, isFinal, aad).1.Ok?
    ensures var (s', r) := EncryptStep(c, s, nonce, plaintext, isFinal, aad);
            DecryptStep(c, DecState(s.streamKey, s.nextIndex, false), r.value, aad)
            == (DecState(s.streamKey, s'.nextIndex, isFinal), Ok((plaintext, isFinal)))
  {
    var frame := EncryptStep(c, s, nonce, plaintext, isFinal, aad).1.value;
    assert |frame| >= 33;
  }
}
