/** Safety of V2 streams over whole runs: per-chunk keys and random nonces instead of a stream id and a final tag. */
module StreamV2Runs {
  import opened Wrappers
  import opened Bytes
  import opened Crypto
  import opened Chunks
  import opened Wire
  import opened StreamV2

  datatype Event =
    | Encrypt(nonce: Result<Nonce>, plaintext: bytes, isFinal: bool, aad: bytes)
    | Decrypt(frame: bytes, aad: bytes)

  /** What a call hands to the AEAD; the key is derived from the index and the flag. */
  datatype Sealed = Sealed(index: u32, isFinal: bool, userAad: bytes, plaintext: bytes, nonce: Nonce, ct: bytes)

  /** `sealed` logs every AEAD sealing, also one whose frame is then withheld. */
  datatype World = World(enc: EncState, dec: DecState, sealed: seq<Sealed>, emitted: seq<Chunk>, accepted: seq<Chunk>)

  predicate Start(w: World) {
    && w.enc.nextIndex == 1 && !w.enc.finalized
    && w.dec == DecState(w.enc.streamKey, 1, false)
    && w.sealed == [] && w.emitted == [] && w.accepted == []
  }

  function SealChunk(c: Primitives, s: EncState, nonce: Result<Nonce>, plaintext: bytes, isFinal: bool,
                     aad: bytes): Result<Sealed> {
    if s.finalized then Err
    else
      var key :- DeriveChunkKey(c, s.streamKey, s.nextIndex, isFinal);
      var n :- nonce;
      var ct :- c.seal(key, n, plaintext, ChunkAad(aad, s.nextIndex, isFinal));
      Ok(Sealed(s.nextIndex, isFinal, aad, plaintext, n, ct))
  }

  function Step(c: Primitives, w: World, e: Event): World {
    match e
    case Encrypt(nonce, plaintext, isFinal, aad) =>
      var t := SealChunk(c, w.enc, nonce, plaintext, isFinal, aad);
      var (enc, r) := EncryptStep(c, w.enc, nonce, plaintext, isFinal, aad);
      w.(enc := enc,
         sealed := if t.Ok? then w.sealed + [t.value] else w.sealed,
         emitted := if r.Ok? then w.emitted + [Chunk(plaintext, isFinal, aad, r.value)] else w.emitted)
    case Decrypt(frame, aad) =>
      var (dec, r) := DecryptStep(c, w.dec, frame, aad);
      w.(dec := dec,
         accepted := if r.Ok? then w.accepted + [Chunk(r.value.0, r.value.1, aad, frame)] else w.accepted)
  }

  function Run(c: Primitives, w: World, es: seq<Event>): World
    decreases |es|
  {
    if es == [] then w else Run(c, Step(c, w, es[0]), es[1..])
  }

  // ----- unforgeability -----

  /** The parts of a frame. */
  datatype Parts = Parts(index: u32, isFinal: bool, nonce: Nonce, ct: bytes)

  function PartsOf(frame: bytes): Parts
    requires |frame| >= 17
  {
    Parts(U32FromBE(frame[..4]), frame[4] == 0x01, frame[5..17], frame[17..])
  }

  /** The sealing is of this very nonce, ciphertext and AAD. */
  predicate Matches(t: Sealed, p: Parts, aad: bytes) {
    t.nonce == p.nonce && t.ct == p.ct && ChunkAad(t.userAad, t.index, t.isFinal) == ChunkAad(aad, p.index, p.isFinal)
  }

  /** The outcome of opening the parts under the key their index and flag select. */
  function Opened(c: Primitives, streamKey: bytes, p: Parts, aad: bytes): Result<bytes> {
    var key :- DeriveChunkKey(c, streamKey, p.index, p.isFinal);
    c.open(key, p.nonce, p.ct, ChunkAad(aad, p.index, p.isFinal))
  }

  /** The AEAD opens this frame only if the encryptor has already sealed its parts. */
  ghost predicate Unforged(c: Primitives, dec: DecState, sealed: seq<Sealed>, frame: bytes, aad: bytes) {
    |frame| >= 17 && Opened(c, dec.streamKey, PartsOf(frame), aad).Ok? ==>
      exists t | t in sealed :: Matches(t, PartsOf(frame), aad)
  }

  ghost predicate UnforgedRun(c: Primitives, w: World, es: seq<Event>)
    decreases |es|
  {
    es != [] ==>
      && (es[0].Decrypt? ==> Unforged(c, w.dec, w.sealed, es[0].frame, es[0].aad))
      && UnforgedRun(c, Step(c, w, es[0]), es[1..])
  }

  // ----- invariants -----

  function ChunkOf(t: Sealed): Chunk {
    Chunk(t.plaintext, t.isFinal, t.userAad, Frame(t.index, t.isFinal, t.nonce, t.ct))
  }

  /** The i-th sealing used index i + 1, except that those past the limit stay on index 2^32-1. */
  predicate SealedAt(c: Primitives, streamKey: bytes, i: nat, t: Sealed) {
    && t.index == (if i + 1 < U32_MAX then i + 1 else U32_MAX)
    && DeriveChunkKey(c, streamKey, t.index, t.isFinal).Ok?
    && c.seal(DeriveChunkKey(c, streamKey, t.index, t.isFinal).value, t.nonce, t.plaintext,
              ChunkAad(t.userAad, t.index, t.isFinal))
       == Ok(t.ct)
  }

  predicate EncInv(c: Primitives, enc: EncState, sealed: seq<Sealed>, emitted: seq<Chunk>) {
    && enc.nextIndex == |emitted| + 1
    && |emitted| == (if |sealed| < U32_MAX then |sealed| else U32_MAX - 1)
    && (forall i | 0 <= i < |sealed| :: SealedAt(c, enc.streamKey, i, sealed[i]))
    && (forall i | 0 <= i < |emitted| :: emitted[i] == ChunkOf(sealed[i]))
    && FinalOnlyLast(emitted, enc.finalized)
  }

  predicate DecInv(enc: EncState, emitted: seq<Chunk>, dec: DecState, accepted: seq<Chunk>) {
    && dec.streamKey == enc.streamKey
    && dec.expectedIndex == |accepted| + 1 && |accepted| <= |emitted|
    && accepted == emitted[..|accepted|]
    && (dec.done <==> accepted != [] && accepted[|accepted| - 1].isFinal)
  }

  lemma SealingKeepsInv(c: Primitives, enc: EncState, sealed: seq<Sealed>, emitted: seq<Chunk>, t: Sealed)
    requires EncInv(c, enc, sealed, emitted) && !enc.finalized
    requires SealedAt(c, enc.streamKey, |sealed|, t)
    ensures enc.nextIndex == U32_MAX ==> EncInv(c, enc, sealed + [t], emitted)
    ensures enc.nextIndex < U32_MAX ==>
              EncInv(c, enc.(nextIndex := enc.nextIndex + 1, finalized := t.isFinal), sealed + [t],
                     emitted + [ChunkOf(t)])
  {
    hide Frame, ChunkAad, DeriveChunkKey;
    FinalStaysLast(emitted, ChunkOf(t));
  }

  lemma EncStepKeepsInv(c: Primitives, w: World, e: Event)
    requires e.Encrypt? && EncInv(c, w.enc, w.sealed, w.emitted)
    ensures var w' := Step(c, w, e);
            EncInv(c, w'.enc, w'.sealed, w'.emitted) && w.emitted <= w'.emitted && w'.enc.streamKey == w.enc.streamKey
  {
    hide Frame, ChunkAad, FinalOnlyLast;
    var r := SealChunk(c, w.enc, e.nonce, e.plaintext, e.isFinal, e.aad);
    if r.Ok? {
      assert SealedAt(c, w.enc.streamKey, |w.sealed|, r.value);
      SealingKeepsInv(c, w.enc, w.sealed, w.emitted, r.value);
    }
  }

  lemma FrameIsCanonical(frame: bytes)
    requires |frame| >= 17 && frame[4] in {0x00, 0x01}
    ensures frame == Frame(U32FromBE(frame[..4]), frame[4] == 0x01, frame[5..17], frame[17..])
  {
    ToFromBE(frame[..4]);
    assert frame == frame[..4] + [frame[4]] + frame[5..17] + frame[17..];
  }

  /** What an accepted call saw. */
  lemma AcceptedFrame(c: Primitives, dec: DecState, frame: bytes, aad: bytes)
    requires DecryptStep(c, dec, frame, aad).1.Ok?
    ensures |frame| >= 33
    ensures var p := PartsOf(frame);
            var (dec', r) := DecryptStep(c, dec, frame, aad);
            && p.index == dec.expectedIndex < U32_MAX
            && frame == Frame(p.index, p.isFinal, p.nonce, p.ct)
            && Opened(c, dec.streamKey, p, aad) == Ok(r.value.0)
            && r.value.1 == p.isFinal
            && dec' == dec.(expectedIndex := dec.expectedIndex + 1, done := p.isFinal)
  {
    FrameIsCanonical(frame);
  }

  lemma SealingOpens(c: Primitives, streamKey: bytes, i: nat, t: Sealed)
    requires OpensWhatItSeals(c) && SealedAt(c, streamKey, i, t)
    ensures Opened(c, streamKey, Parts(t.index, t.isFinal, t.nonce, t.ct), t.userAad) == Ok(t.plaintext)
  {
  }

  /** The sealing behind parts below the limit is the one emitted at their index. */
  lemma SealBehind(c: Primitives, enc: EncState, sealed: seq<Sealed>, emitted: seq<Chunk>, p: Parts, aad: bytes)
    requires OpensWhatItSeals(c) && EncInv(c, enc, sealed, emitted)
    requires 1 <= p.index < U32_MAX
    requires exists t | t in sealed :: Matches(t, p, aad)
    ensures p.index <= |emitted| && p.index <= |sealed|
    ensures var t := sealed[p.index - 1];
            && t == Sealed(p.index, p.isFinal, aad, t.plaintext, p.nonce, p.ct)
            && Opened(c, enc.streamKey, p, aad) == Ok(t.plaintext)
  {
    hide ChunkAad, OpensWhatItSeals, Opened, ChunkOf, FinalOnlyLast;
    var t :| t in sealed && Matches(t, p, aad);
    ChunkAadInjective(t.userAad, t.index, t.isFinal, aad, p.index, p.isFinal);
    var i :| 0 <= i < |sealed| && sealed[i] == t;
    assert SealedAt(c, enc.streamKey, i, t);
    hide DeriveChunkKey;
    SealingOpens(c, enc.streamKey, i, t);
    assert p == Parts(t.index, t.isFinal, t.nonce, t.ct);
  }

  lemma OneMoreAccepted(enc: EncState, emitted: seq<Chunk>, dec: DecState, accepted: seq<Chunk>, isFinal: bool)
    requires DecInv(enc, emitted, dec, accepted)
    requires |accepted| < |emitted| && emitted[|accepted|].isFinal == isFinal && dec.expectedIndex < U32_MAX
    ensures DecInv(enc, emitted, dec.(expectedIndex := dec.expectedIndex + 1, done := isFinal),
                    accepted + [emitted[|accepted|]])
  {
    assert accepted + [emitted[|accepted|]] == emitted[..|accepted| + 1];
  }

  /** An accepted frame is the encryptor's next one, byte for byte, with its own plaintext, flag and AAD. */
  lemma AcceptedIsNext(c: Primitives, enc: EncState, sealed: seq<Sealed>, emitted: seq<Chunk>, dec: DecState,
                       accepted: seq<Chunk>,
                       frame: bytes, aad: bytes)
    requires OpensWhatItSeals(c)
    requires EncInv(c, enc, sealed, emitted) && DecInv(enc, emitted, dec, accepted)
    requires Unforged(c, dec, sealed, frame, aad)
    requires DecryptStep(c, dec, frame, aad).1.Ok?
    ensures var (dec', r) := DecryptStep(c, dec, frame, aad);
            var chunk := Chunk(r.value.0, r.value.1, aad, frame);
            && |accepted| < |emitted| && emitted[|accepted|] == chunk
            && DecInv(enc, emitted, dec', accepted + [chunk])
  {
    AcceptedFrame(c, dec, frame, aad);
    hide DecryptStep, Frame, Matches, Opened, PartsOf;
    var p := PartsOf(frame);
    SealBehind(c, enc, sealed, emitted, p, aad);
    assert emitted[|accepted|] == ChunkOf(sealed[|accepted|]);
    OneMoreAccepted(enc, emitted, dec, accepted, p.isFinal);
  }

  ghost predicate Inv(c: Primitives, w: World) {
    EncInv(c, w.enc, w.sealed, w.emitted) && DecInv(w.enc, w.emitted, w.dec, w.accepted)
  }

  lemma StepKeepsInv(c: Primitives, w: World, e: Event)
    requires OpensWhatItSeals(c) && Inv(c, w)
    requires e.Decrypt? ==> Unforged(c, w.dec, w.sealed, e.frame, e.aad)
    ensures Inv(c, Step(c, w, e))
  {
    hide EncInv, Unforged;
    match e
    case Encrypt(_, _, _, _) =>
      EncStepKeepsInv(c, w, e);
      var w' := Step(c, w, e);
      assert w'.emitted[..|w.accepted|] == w.emitted[..|w.accepted|];
    case Decrypt(frame, aad) =>
      if DecryptStep(c, w.dec, frame, aad).1.Ok? {
        AcceptedIsNext(c, w.enc, w.sealed, w.emitted, w.dec, w.accepted, frame, aad);
      }
  }

  lemma {:induction false} RunKeepsInv(c: Primitives, w: World, es: seq<Event>)
    requires OpensWhatItSeals(c) && Inv(c, w) && UnforgedRun(c, w, es)
    ensures Inv(c, Run(c, w, es))
    decreases |es|
  {
    if es != [] {
      StepKeepsInv(c, w, es[0]);
      RunKeepsInv(c, Step(c, w, es[0]), es[1..]);
    }
  }

  /**
   V2 stream integrity. For any interleaving of encryption calls and adversarial decryption calls, the accepted chunks
   are an in-order prefix of the emitted ones, and `done` means all of them have been accepted and no more will be
   emitted.
   */
  lemma StreamIntegrity(c: Primitives, start: World, es: seq<Event>)
    requires OpensWhatItSeals(c) && Start(start) && UnforgedRun(c, start, es)
    ensures var w := Run(c, start, es);
            && w.accepted <= w.emitted
            && w.dec.expectedIndex == |w.accepted| + 1
            && (w.dec.done ==> w.accepted == w.emitted && w.enc.finalized)
  {
    RunKeepsInv(c, start, es);
    var w := Run(c, start, es);
    if w.dec.done {
      assert w.emitted[|w.accepted| - 1].isFinal;
    }
  }

  /** A recipient that parsed the sender's header is where such a run starts. */
  lemma HeaderStartsRun(c: Primitives, sk: bytes, sharedSecret: bytes, kemCt: bytes, context: bytes, tail: bytes)
    requires |kemCt| == KEM_CIPHERTEXT_BYTES && c.decapsulate(sk, kemCt) == Ok(sharedSecret)
    requires DeriveKey(c, sharedSecret, c.ctHash(kemCt), context).Ok?
    ensures var enc := EncState(DeriveKey(c, sharedSecret, c.ctHash(kemCt), context).value, StreamHeaderBytes(kemCt),
                                1, false);
            var dec := ParseHeader(c, sk, enc.header + tail, context);
            dec.Ok? && Start(World(enc, dec.value, [], [], []))
  {
    HeaderRoundTrip(c, sk, sharedSecret, kemCt, context, tail);
  }

  lemma {:induction false} EncRunKeepsInv(c: Primitives, w: World, es: seq<Event>)
    requires EncInv(c, w.enc, w.sealed, w.emitted)
    ensures var w' := Run(c, w, es);
            EncInv(c, w'.enc, w'.sealed, w'.emitted) && w'.enc.streamKey == w.enc.streamKey
    decreases |es|
  {
    hide EncInv;
    if es != [] {
      if es[0].Encrypt? {
        EncStepKeepsInv(c, w, es[0]);
      }
      EncRunKeepsInv(c, Step(c, w, es[0]), es[1..]);
    }
  }

  /** The index of the i-th sealing: i + 1, except that those past the limit stay on 2^32-1. */
  function IndexOfSealing(i: nat): u32 {
    if i + 1 < U32_MAX then i + 1 else U32_MAX
  }

  lemma SealingWrittenOut(c: Primitives, streamKey: bytes, i: nat, t: Sealed)
    requires SealedAt(c, streamKey, i, t)
    ensures var place := ToBE(4, IndexOfSealing(i)) + [if t.isFinal then 0x01 else 0x00];
            var key := c.expand(streamKey, Ascii("citadel-stream-chunk-v2|") + place, 32);
            && t.index == IndexOfSealing(i) && key.Ok?
            && c.seal(key.value, t.nonce, t.plaintext,
               Ascii("citadel-stream-v2|") + place + [0x7C] + t.userAad) == Ok(t.ct)
  {
    var flag: bytes := [if t.isFinal then 0x01 else 0x00];
    var place := ToBE(4, t.index) + flag;
    assert Ascii("citadel-stream-chunk-v2|") + ToBE(4, t.index) + flag == Ascii("citadel-stream-chunk-v2|") + place;
    assert ChunkAad(t.userAad, t.index, t.isFinal) == Ascii("citadel-stream-v2|") + place + [0x7C] + t.userAad;
  }

  /**
   Every sealing of a run, written out: the key is HKDF of the stream key under label, index in four bytes and final
   flag, and the AAD is the label, the index, the flag, a bar and the caller's AAD.
   */
  lemma SealingsWrittenOut(c: Primitives, start: World, es: seq<Event>, i: nat)
    requires Start(start) && i < |Run(c, start, es).sealed|
    ensures var t := Run(c, start, es).sealed[i];
            var place := ToBE(4, IndexOfSealing(i)) + [if t.isFinal then 0x01 else 0x00];
            var key := c.expand(start.enc.streamKey, Ascii("citadel-stream-chunk-v2|") + place, 32);
            && t.index == IndexOfSealing(i) && key.Ok?
            && c.seal(key.value, t.nonce, t.plaintext,
               Ascii("citadel-stream-v2|") + place + [0x7C] + t.userAad) == Ok(t.ct)
  {
    hide Run, Step;
    EncRunKeepsInv(c, start, es);
    var w := Run(c, start, es);
    SealingWrittenOut(c, start.enc.streamKey, i, w.sealed[i]);
  }
}
