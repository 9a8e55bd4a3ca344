/** The one-call API of citadel-envelope/src/stream_v3.rs: round trip, and which inputs it accepts. */
module StreamV3OneShot {
  import opened Wrappers
  import opened Bytes
  import opened Crypto
  import opened Chunks
  import opened Wire
  import opened StreamV3
  import opened StreamV3Runs

  datatype EncryptedStreamV3 = EncryptedStreamV3(header: bytes, frames: seq<bytes>, finalTag: bytes)

  // ----- specification -----

  /** The first `k` chunks encrypted in order, the last of all chunks marked final. */
  function EncryptPrefix(c: Primitives, s: EncState, chunks: seq<bytes>, k: nat,
                         aad: bytes): (r: Result<(EncState, seq<bytes>)>)
    requires k <= |chunks|
  {
    if k == 0 then Ok((s, []))
    else
      var (s', frames) :- EncryptPrefix(c, s, chunks, k - 1, aad);
      var (s'', r) := EncryptStep(c, s', chunks[k - 1], k == |chunks|, aad);
      var frame :- r;
      Ok((s'', frames + [frame]))
  }

  function EncryptStreamSpec(c: Primitives, s: EncState, chunks: seq<bytes>, aad: bytes): Result<EncryptedStreamV3> {
    var (s', frames) :- EncryptPrefix(c, s, chunks, |chunks|, aad);
    var finalTag :- TagOf(c, s');
    Ok(EncryptedStreamV3(s.header, frames, finalTag))
  }

  /** The first `k` frames decrypted in order, each with the final flag its place demands. */
  function DecryptPrefix(c: Primitives, s: DecState, frames: seq<bytes>, k: nat, aad: bytes): Result<(DecState, bytes)>
    requires k <= |frames|
  {
    if k == 0 then Ok((s, []))
    else
      var (s', out) :- DecryptPrefix(c, s, frames, k - 1, aad);
      var (s'', r) := DecryptStep(c, s', frames[k - 1], aad);
      var (plaintext, isFinal) :- r;
      if isFinal != (k == |frames|) then Err else Ok((s'', out + plaintext))
  }

  /** The loop and the mandatory final check. */
  function DecryptFrames(c: Primitives, s: DecState, frames: seq<bytes>, finalTag: bytes, aad: bytes): Result<bytes> {
    var (s', out) :- DecryptPrefix(c, s, frames, |frames|, aad);
    if VerifyFinalTag(c, s', finalTag) then Ok(out) else Err
  }

  function DecryptStreamSpec(c: Primitives, sk: bytes, header: bytes, frames: seq<bytes>, finalTag: bytes, aad: bytes,
                             context: bytes): Result<bytes> {
    if frames == [] then Err
    else
      var (s, _) :- ParseHeader(c, sk, header, context);
      DecryptFrames(c, s, frames, finalTag, aad)
  }

  lemma {:induction false} EncryptPrefixFails(c: Primitives, s: EncState, chunks: seq<bytes>, k: nat, n: nat,
                                        aad: bytes)
    requires k <= n <= |chunks| && EncryptPrefix(c, s, chunks, k, aad).Err?
    ensures EncryptPrefix(c, s, chunks, n, aad).Err?
  {
    hide EncryptStep;
    if k < n {
      EncryptPrefixFails(c, s, chunks, k, n - 1, aad);
    }
  }

  lemma {:induction false} DecryptPrefixFails(c: Primitives, s: DecState, frames: seq<bytes>, k: nat, n: nat,
                                        aad: bytes)
    requires k <= n <= |frames| && DecryptPrefix(c, s, frames, k, aad).Err?
    ensures DecryptPrefix(c, s, frames, n, aad).Err?
  {
    hide DecryptStep;
    if k < n {
      DecryptPrefixFails(c, s, frames, k, n - 1, aad);
    }
  }

  // ----- the two calls -----

  method EncryptStreamV3(c: Primitives, encapsulated: Result<(bytes, bytes)>, streamId: StreamId, chunks: seq<bytes>,
                         aad: bytes, context: bytes)
    returns (r: Result<EncryptedStreamV3>)
    ensures r == if chunks == [] || encapsulated.Err? then Err
                 else var enc := NewEncryptor(c, encapsulated.value.0, encapsulated.value.1, streamId, context);
                      if enc.Err? then Err else EncryptStreamSpec(c, enc.value, chunks, aad)
  {
    hide EncryptStep, NewEncryptor, TagOf;
    if chunks == [] {
      return Err;
    }
    var created := StreamV3Encryptor.New(c, encapsulated, streamId, context);
    if created.Err? {
      return Err;
    }
    var enc := created.value;
    ghost var start := enc.State();
    var header := enc.header;
    var last := |chunks| - 1;
    var frames: seq<bytes> := [];
    var i := 0;
    while i < |chunks|
      invariant 0 <= i <= |chunks|
      invariant EncryptPrefix(c, start, chunks, i, aad) == Ok((enc.State(), frames))
    {
      var frame := enc.EncryptChunk(chunks[i], i == last, aad);
      if frame.Err? {
        assert EncryptPrefix(c, start, chunks, i + 1, aad).Err?;
        EncryptPrefixFails(c, start, chunks, i + 1, |chunks|, aad);
        return Err;
      }
      frames := frames + [frame.value];
      i := i + 1;
    }
    var finalTag := enc.FinalTag();
    if finalTag.Err? {
      return Err;
    }
    return Ok(EncryptedStreamV3(header, frames, finalTag.value));
  }

  method DecryptStreamV3(c: Primitives, sk: bytes, header: bytes, frames: seq<bytes>, finalTag: bytes, aad: bytes,
                         context: bytes)
    returns (r: Result<bytes>)
    ensures r == DecryptStreamSpec(c, sk, header, frames, finalTag, aad, context)
  {
    hide DecryptStep, ParseHeader;
    if frames == [] {
      return Err;
    }
    var parsed := StreamV3Decryptor.FromHeader(c, sk, header, context);
    if parsed.Err? {
      return Err;
    }
    var dec := parsed.value.0;
    ghost var start := dec.State();
    var last := |frames| - 1;
    var out: bytes := [];
    var i := 0;
    while i < |frames|
      invariant 0 <= i <= |frames|
      invariant DecryptPrefix(c, start, frames, i, aad) == Ok((dec.State(), out))
    {
      var chunk := dec.DecryptChunk(frames[i], aad);
      if chunk.Err? {
        assert DecryptPrefix(c, start, frames, i + 1, aad).Err?;
        DecryptPrefixFails(c, start, frames, i + 1, |frames|, aad);
        return Err;
      }
      var (plaintext, isFinal) := chunk.value;
      out := out + plaintext;
      if isFinal != (i == last) {
        assert DecryptPrefix(c, start, frames, i + 1, aad).Err?;
        DecryptPrefixFails(c, start, frames, i + 1, |frames|, aad);
        return Err;
      }
      i := i + 1;
    }
    var ok := dec.Finish(finalTag);
    if !ok {
      return Err;
    }
    return Ok(out);
  }

  // ----- which streams the recipient accepts -----

  function Frames(emitted: seq<Chunk>): (r: seq<bytes>)
    ensures |r| == |emitted|
  {
    seq(|emitted|, i requires 0 <= i < |emitted| => emitted[i].frame)
  }

  function Plaintext(emitted: seq<Chunk>): bytes {
    if emitted == [] then [] else Plaintext(emitted[..|emitted| - 1]) + emitted[|emitted| - 1].plaintext
  }

  predicate AllUnder(emitted: seq<Chunk>, aad: bytes) {
    forall i | 0 <= i < |emitted| :: emitted[i].aad == aad
  }

  /** The decryptor of this stream after accepting the first `k` chunks. */
  function DecAfter(enc: EncState, emitted: seq<Chunk>, k: nat): DecState
    requires k <= |emitted| <= U64_MAX
  {
    DecState(enc.streamKey, enc.finalKey, enc.streamId, k, k > 0 && emitted[k - 1].isFinal)
  }

  /** No frame the decryption loop gets to is a forgery; nothing is said of byte strings it never hands to the AEAD. */
  ghost predicate UnforgedFrames(c: Primitives, start: DecState, sealed: seq<Sealed>, frames: seq<bytes>, aad: bytes) {
    forall k | 0 <= k < |frames| ::
      var before := DecryptPrefix(c, start, frames, k, aad);
      before.Ok? ==> Unforged(c, before.value.0, sealed, frames[k], aad)
  }

  /** The next emitted frame is accepted, with its own plaintext and flag. */
  lemma NextIsAccepted(c: Primitives, enc: EncState, sealed: seq<Sealed>, emitted: seq<Chunk>, k: nat)
    requires OpensWhatItSeals(c) && EncInv(c, enc, sealed, emitted)
    requires k < |emitted|
    ensures DecryptStep(c, DecAfter(enc, emitted, k), emitted[k].frame, emitted[k].aad)
         == (DecAfter(enc, emitted, k + 1), Ok((emitted[k].plaintext, emitted[k].isFinal)))
  {
    var t := sealed[k];
    assert SealedAt(c, enc.streamKey, enc.streamId, k, t) && emitted[k] == ChunkOf(t);
    var dec := DecAfter(enc, emitted, k);
    assert !dec.done;
    assert QueryOf(c, dec, emitted[k].frame) == Ok(Query(k, t.isFinal, t.nonce, t.ct));
  }

  lemma FinalPosition(c: Primitives, enc: EncState, sealed: seq<Sealed>, emitted: seq<Chunk>, k: nat)
    requires EncInv(c, enc, sealed, emitted) && enc.finalized && k < |emitted|
    ensures emitted[k].isFinal <==> k + 1 == |emitted|
  {
  }

  lemma {:induction false} EmittedPrefixAccepted(c: Primitives, enc: EncState, sealed: seq<Sealed>,
                                        emitted: seq<Chunk>, k: nat, aad: bytes)
    requires OpensWhatItSeals(c) && EncInv(c, enc, sealed, emitted)
    requires k <= |emitted| && enc.finalized && AllUnder(emitted, aad)
    ensures DecryptPrefix(c, DecAfter(enc, emitted, 0), Frames(emitted), k, aad)
         == Ok((DecAfter(enc, emitted, k), Plaintext(emitted[..k])))
  {
    hide DecryptStep, EncInv;
    if k > 0 {
      EmittedPrefixAccepted(c, enc, sealed, emitted, k - 1, aad);
      FinalPosition(c, enc, sealed, emitted, k - 1);
      NextIsAccepted(c, enc, sealed, emitted, k - 1);
      assert emitted[..k][..k - 1] == emitted[..k - 1];
    }
  }

  /** A finished stream under one AAD is accepted whole. */
  lemma EmittedFramesAccepted(c: Primitives, enc: EncState, sealed: seq<Sealed>, emitted: seq<Chunk>, aad: bytes)
    requires OpensWhatItSeals(c) && EncInv(c, enc, sealed, emitted)
    requires enc.finalized && AllUnder(emitted, aad)
    ensures DecryptFrames(c, DecState(enc.streamKey, enc.finalKey, enc.streamId, 0, false), Frames(emitted),
                          TagOf(c, enc).value, aad)
         == Ok(Plaintext(emitted))
  {
    assert |emitted| <= U64_MAX && emitted != [] && emitted[|emitted| - 1].isFinal && enc.nextSeq == |emitted|;
    hide DecryptPrefix, EncInv, AllUnder, OpensWhatItSeals;
    EmittedPrefixAccepted(c, enc, sealed, emitted, |emitted|, aad);
    assert emitted[..|emitted|] == emitted;
  }

  /** Whatever frame the recipient accepts after `k` chunks is the next emitted one. */
  lemma AcceptedIsEmitted(c: Primitives, enc: EncState, sealed: seq<Sealed>, emitted: seq<Chunk>, k: nat, frame: bytes,
                          aad: bytes)
    requires OpensWhatItSeals(c) && EncInv(c, enc, sealed, emitted)
    requires k <= |emitted| && Unforged(c, DecAfter(enc, emitted, k), sealed, frame, aad)
    requires DecryptStep(c, DecAfter(enc, emitted, k), frame, aad).1.Ok?
    ensures var (dec', r) := DecryptStep(c, DecAfter(enc, emitted, k), frame, aad);
            && k < |emitted| && emitted[k] == Chunk(r.value.0, r.value.1, aad, frame)
            && dec' == DecAfter(enc, emitted, k + 1)
  {
    var dec := DecAfter(enc, emitted, k);
    AcceptedQuery(c, dec, frame, aad);
    AcceptedIsNext(c, enc, sealed, emitted, dec, emitted[..k], frame, aad);
  }

  lemma UnforgedAt(c: Primitives, start: DecState, sealed: seq<Sealed>, frames: seq<bytes>, k: nat, aad: bytes)
    requires UnforgedFrames(c, start, sealed, frames, aad)
    requires k < |frames| && DecryptPrefix(c, start, frames, k, aad).Ok?
    ensures Unforged(c, DecryptPrefix(c, start, frames, k, aad).value.0, sealed, frames[k], aad)
  {
  }

  /** One more iteration of the decryption loop got through. */
  lemma PrefixUnfolds(c: Primitives, s: DecState, frames: seq<bytes>, k: nat, aad: bytes)
    requires 0 < k <= |frames| && DecryptPrefix(c, s, frames, k, aad).Ok?
    ensures DecryptPrefix(c, s, frames, k - 1, aad).Ok?
    ensures var (s', r) := DecryptStep(c, DecryptPrefix(c, s, frames, k - 1, aad).value.0, frames[k - 1], aad);
            r.Ok? && (r.value.1 <==> k == |frames|) && DecryptPrefix(c, s, frames, k, aad).value.0 == s'
  {
    var before := DecryptPrefix(c, s, frames, k - 1, aad);
    if before.Ok? {
      var (s', r) := DecryptStep(c, before.value.0, frames[k - 1], aad);
      hide DecryptStep;
      assert DecryptPrefix(c, s, frames, k, aad)
          == if r.Err? || r.value.1 != (k == |frames|) then Err else Ok((s', before.value.1 + r.value.0));
    }
  }

  lemma FramesGrow(emitted: seq<Chunk>, frames: seq<bytes>, k: nat, aad: bytes)
    requires k < |frames| && k < |emitted|
    requires frames[..k] == Frames(emitted[..k]) && AllUnder(emitted[..k], aad)
    requires frames[k] == emitted[k].frame && emitted[k].aad == aad
    ensures frames[..k + 1] == Frames(emitted[..k + 1]) && AllUnder(emitted[..k + 1], aad)
  {
    assert frames[..k + 1] == frames[..k] + [frames[k]];
    assert emitted[..k + 1] == emitted[..k] + [emitted[k]];
  }

  /** The first `k` frames are the emitted ones, under this AAD, and the recipient is where they lead. */
  predicate SameUpTo(enc: EncState, emitted: seq<Chunk>, frames: seq<bytes>, k: nat, aad: bytes, at: DecState) {
    && k <= |frames| && k <= |emitted| <= U64_MAX
    && frames[..k] == Frames(emitted[..k]) && AllUnder(emitted[..k], aad)
    && at == DecAfter(enc, emitted, k)
    && (k > 0 ==> (emitted[k - 1].isFinal <==> k == |frames|))
  }

  lemma SameOneFurther(c: Primitives, enc: EncState, sealed: seq<Sealed>, emitted: seq<Chunk>, frames: seq<bytes>,
                       k: nat, aad: bytes, at: DecState)
    requires OpensWhatItSeals(c) && EncInv(c, enc, sealed, emitted)
    requires k < |frames| && SameUpTo(enc, emitted, frames, k, aad, at) && Unforged(c, at, sealed, frames[k], aad)
    requires var r := DecryptStep(c, at, frames[k], aad).1; r.Ok? && (r.value.1 <==> k + 1 == |frames|)
    ensures SameUpTo(enc, emitted, frames, k + 1, aad, DecryptStep(c, at, frames[k], aad).0)
  {
    hide DecryptStep, EncInv, Unforged, OpensWhatItSeals, Frames, AllUnder, DecAfter;
    AcceptedIsEmitted(c, enc, sealed, emitted, k, frames[k], aad);
    FramesGrow(emitted, frames, k, aad);
  }

  lemma NothingAccepted(enc: EncState, emitted: seq<Chunk>, frames: seq<bytes>, aad: bytes)
    requires |emitted| <= U64_MAX
    ensures SameUpTo(enc, emitted, frames, 0, aad, DecAfter(enc, emitted, 0))
  {
  }

  /** A prefix the recipient accepts is a prefix of what was emitted: same frames, same AAD, in order. */
  lemma {:induction false} AcceptedPrefixEmitted(c: Primitives, enc: EncState, sealed: seq<Sealed>, emitted: seq<Chunk>,
                                                start: DecState, frames: seq<bytes>, k: nat, aad: bytes)
    requires OpensWhatItSeals(c) && EncInv(c, enc, sealed, emitted)
    requires SameUpTo(enc, emitted, frames, 0, aad, start) && UnforgedFrames(c, start, sealed, frames, aad)
    requires k <= |frames| && DecryptPrefix(c, start, frames, k, aad).Ok?
    ensures SameUpTo(enc, emitted, frames, k, aad, DecryptPrefix(c, start, frames, k, aad).value.0)
  {
    hide DecryptStep, EncInv, UnforgedFrames, Unforged, OpensWhatItSeals, SameUpTo;
    if k > 0 {
      PrefixUnfolds(c, start, frames, k, aad);
      AcceptedPrefixEmitted(c, enc, sealed, emitted, start, frames, k - 1, aad);
      UnforgedAt(c, start, sealed, frames, k - 1, aad);
      SameOneFurther(c, enc, sealed, emitted, frames, k - 1, aad, DecryptPrefix(c, start, frames, k - 1, aad).value.0);
    }
  }

  lemma WholeListAccepted(enc: EncState, emitted: seq<Chunk>, frames: seq<bytes>)
    requires FinalOnlyLast(emitted, enc.finalized)
    requires 0 < |frames| <= |emitted| && frames == Frames(emitted[..|frames|]) && emitted[|frames| - 1].isFinal
    ensures |frames| == |emitted| && enc.finalized && frames == Frames(emitted)
    ensures emitted[..|frames|] == emitted
  {
    assert |frames| == |emitted|;
    assert emitted[..|frames|] == emitted;
  }

  /** The loop of `decrypt_stream_v3` gets through exactly the whole emitted list, and ends on the sender's count. */
  lemma PrefixExactness(c: Primitives, enc: EncState, sealed: seq<Sealed>, emitted: seq<Chunk>, frames: seq<bytes>,
                        aad: bytes)
    requires OpensWhatItSeals(c) && EncInv(c, enc, sealed, emitted)
    requires UnforgedFrames(c, DecState(enc.streamKey, enc.finalKey, enc.streamId, 0, false), sealed, frames, aad)
    requires frames != []
    ensures var r := DecryptPrefix(c, DecAfter(enc, emitted, 0), frames, |frames|, aad);
            && (r.Ok? <==> enc.finalized && frames == Frames(emitted) && AllUnder(emitted, aad))
            && (r.Ok? ==> |emitted| > 0 && r.value == (DecAfter(enc, emitted, |emitted|), Plaintext(emitted)))
  {
    hide DecryptPrefix, UnforgedFrames;
    var r := DecryptPrefix(c, DecAfter(enc, emitted, 0), frames, |frames|, aad);
    if r.Ok? {
      NothingAccepted(enc, emitted, frames, aad);
      AcceptedPrefixEmitted(c, enc, sealed, emitted, DecAfter(enc, emitted, 0), frames, |frames|, aad);
      WholeListAccepted(enc, emitted, frames);
    }
    if enc.finalized && frames == Frames(emitted) && AllUnder(emitted, aad) {
      EmittedPrefixAccepted(c, enc, sealed, emitted, |emitted|, aad);
      assert emitted[..|emitted|] == emitted;
    }
  }

  lemma FramesExactness(c: Primitives, enc: EncState, sealed: seq<Sealed>, emitted: seq<Chunk>, frames: seq<bytes>,
                        finalTag: bytes, aad: bytes)
    requires OpensWhatItSeals(c) && EncInv(c, enc, sealed, emitted)
    requires UnforgedFrames(c, DecState(enc.streamKey, enc.finalKey, enc.streamId, 0, false), sealed, frames, aad)
    requires frames != []
    ensures var r := DecryptFrames(c, DecState(enc.streamKey, enc.finalKey, enc.streamId, 0, false), frames,
                                   finalTag, aad);
            && (r.Ok? <==>
                  && enc.finalized && frames == Frames(emitted) && AllUnder(emitted, aad)
                  && TagOf(c, enc) == Ok(finalTag))
            && (r.Ok? ==> r.value == Plaintext(emitted))
  {
    hide DecryptPrefix, UnforgedFrames, AllUnder;
    PrefixExactness(c, enc, sealed, emitted, frames, aad);
  }

  lemma FinalizedIsNonEmpty(c: Primitives, enc: EncState, sealed: seq<Sealed>, emitted: seq<Chunk>)
    requires EncInv(c, enc, sealed, emitted) && enc.finalized
    ensures |emitted| > 0
  {
  }

  /**
   One-shot exactness. Against the header of an honest stream, with any bytes after it, decryption succeeds if and
   only if the stream was finished, every chunk was sealed under this AAD, the frame list is exactly the emitted list
   and the tag is the sender's. Every truncation, permutation, duplication, splice or extension is refused.
   */
  lemma OneShotExactness(c: Primitives, sk: bytes, sharedSecret: bytes, kemCt: bytes, streamId: StreamId,
                         context: bytes,
                         start: World, es: seq<Event>, tail: bytes, frames: seq<bytes>, finalTag: bytes, aad: bytes)
    requires OpensWhatItSeals(c)
    requires |kemCt| == KEM_CIPHERTEXT_BYTES && c.decapsulate(sk, kemCt) == Ok(sharedSecret)
    requires Start(start) && NewEncryptor(c, sharedSecret, kemCt, streamId, context) == Ok(start.enc)
    requires UnforgedFrames(c, start.dec, Run(c, start, es).sealed, frames, aad)
    ensures var w := Run(c, start, es);
            DecryptStreamSpec(c, sk, start.enc.header + tail, frames, finalTag, aad, context).Ok?
            <==> && w.enc.finalized && frames == Frames(w.emitted) && AllUnder(w.emitted, aad)
                 && TagOf(c, w.enc) == Ok(finalTag)
    ensures var w := Run(c, start, es);
            var r := DecryptStreamSpec(c, sk, start.enc.header + tail, frames, finalTag, aad, context);
            r.Ok? ==> r.value == Plaintext(w.emitted)
  {
    hide ParseHeader, DecryptFrames, EncInv, UnforgedFrames, AllUnder, NewEncryptor, TagOf;
    HeaderRoundTrip(c, sk, sharedSecret, kemCt, streamId, context, tail);
    StartHasInv(c, start);
    EncRunKeepsInv(c, start, es);
    var w := Run(c, start, es);
    if frames != [] {
      FramesExactness(c, w.enc, w.sealed, w.emitted, frames, finalTag, aad);
    } else if w.enc.finalized {
      FinalizedIsNonEmpty(c, w.enc, w.sealed, w.emitted);
    }
  }

  // ----- round trip -----

  function Concat(chunks: seq<bytes>): bytes {
    if chunks == [] then [] else Concat(chunks[..|chunks| - 1]) + chunks[|chunks| - 1]
  }

  /** The calls `EncryptStreamV3` makes for its first `k` chunks, as events. */
  function Calls(chunks: seq<bytes>, k: nat, aad: bytes): seq<Event>
    requires k <= |chunks|
  {
    if k == 0 then [] else Calls(chunks, k - 1, aad) + [Encrypt(chunks[k - 1], k == |chunks|, aad)]
  }

  lemma {:induction false} RunAppend(c: Primitives, w: World, es: seq<Event>, e: Event)
    ensures Run(c, w, es + [e]) == Step(c, Run(c, w, es), e)
    decreases |es|
  {
    if es == [] {
      assert (es + [e])[1..] == [];
    } else {
      assert (es + [e])[1..] == es[1..] + [e];
      RunAppend(c, Step(c, w, es[0]), es[1..], e);
    }
  }

  predicate EmittedFrom(emitted: seq<Chunk>, chunks: seq<bytes>, frames: seq<bytes>, k: nat, aad: bytes)
    requires k <= |chunks|
  {
    && |emitted| == k && frames == Frames(emitted) && AllUnder(emitted, aad)
    && Plaintext(emitted) == Concat(chunks[..k])
  }

  lemma RunNothing(c: Primitives, w: World)
    ensures Run(c, w, []) == w
  {
  }

  lemma StepEmits(c: Primitives, w: World, plaintext: bytes, isFinal: bool, aad: bytes)
    requires EncryptStep(c, w.enc, plaintext, isFinal, aad).1.Ok?
    ensures var (enc, r) := EncryptStep(c, w.enc, plaintext, isFinal, aad);
            var w' := Step(c, w, Encrypt(plaintext, isFinal, aad));
            w'.enc == enc && w'.emitted == w.emitted + [Chunk(plaintext, isFinal, aad, r.value)]
  {
  }

  lemma OneMoreEmitted(emitted: seq<Chunk>, chunks: seq<bytes>, frames: seq<bytes>, k: nat, aad: bytes, next: Chunk)
    requires k < |chunks| && EmittedFrom(emitted, chunks, frames, k, aad)
    requires next.plaintext == chunks[k] && next.aad == aad
    ensures EmittedFrom(emitted + [next], chunks, frames + [next.frame], k + 1, aad)
  {
    assert (emitted + [next])[..k] == emitted;
    assert chunks[..k + 1][..k] == chunks[..k];
    assert frames + [next.frame] == Frames(emitted + [next]);
  }

  lemma {:induction false} PrefixIsRun(c: Primitives, start: World, chunks: seq<bytes>, k: nat, aad: bytes)
    requires Start(start) && k <= |chunks| && EncryptPrefix(c, start.enc, chunks, k, aad).Ok?
    ensures var w := Run(c, start, Calls(chunks, k, aad));
            && w.enc == EncryptPrefix(c, start.enc, chunks, k, aad).value.0
            && EmittedFrom(w.emitted, chunks, EncryptPrefix(c, start.enc, chunks, k, aad).value.1, k, aad)
  {
    hide EncryptStep, Step, Run;
    if k == 0 {
      RunNothing(c, start);
    } else {
      PrefixIsRun(c, start, chunks, k - 1, aad);
      var w := Run(c, start, Calls(chunks, k - 1, aad));
      RunAppend(c, start, Calls(chunks, k - 1, aad), Encrypt(chunks[k - 1], k == |chunks|, aad));
      StepEmits(c, w, chunks[k - 1], k == |chunks|, aad);
      var frame := EncryptStep(c, w.enc, chunks[k - 1], k == |chunks|, aad).1.value;
      OneMoreEmitted(w.emitted, chunks, EncryptPrefix(c, start.enc, chunks, k - 1, aad).value.1, k - 1, aad,
                     Chunk(chunks[k - 1], k == |chunks|, aad, frame));
    }
  }

  /**
   Whole-stream round trip. Whatever `EncryptStreamV3` returns, `DecryptStreamV3` turns back into the concatenation of
   the chunks, through header build and parse, both loops and the final tag.
   */
  lemma RoundTrip(c: Primitives, sk: bytes, sharedSecret: bytes, kemCt: bytes, streamId: StreamId, chunks: seq<bytes>,
                  aad: bytes, context: bytes)
    requires OpensWhatItSeals(c)
    requires |kemCt| == KEM_CIPHERTEXT_BYTES && c.decapsulate(sk, kemCt) == Ok(sharedSecret)
    requires chunks != [] && NewEncryptor(c, sharedSecret, kemCt, streamId, context).Ok?
    requires var enc := NewEncryptor(c, sharedSecret, kemCt, streamId, context).value;
             EncryptStreamSpec(c, enc, chunks, aad).Ok?
    ensures var enc := NewEncryptor(c, sharedSecret, kemCt, streamId, context).value;
            var sent := EncryptStreamSpec(c, enc, chunks, aad).value;
            DecryptStreamSpec(c, sk, sent.header, sent.frames, sent.finalTag, aad, context) == Ok(Concat(chunks))
  {
    hide ParseHeader, DecryptFrames, EncryptPrefix, EncInv, Run;
    var enc := NewEncryptor(c, sharedSecret, kemCt, streamId, context).value;
    var start := World(enc, DecState(enc.streamKey, enc.finalKey, enc.streamId, 0, false), [], [], []);
    assert Start(start);
    hide NewEncryptor;
    HeaderRoundTrip(c, sk, sharedSecret, kemCt, streamId, context, []);
    assert enc.header + [] == enc.header;
    PrefixIsRun(c, start, chunks, |chunks|, aad);
    StartHasInv(c, start);
    EncRunKeepsInv(c, start, Calls(chunks, |chunks|, aad));
    var w := Run(c, start, Calls(chunks, |chunks|, aad));
    EmittedFramesAccepted(c, w.enc, w.sealed, w.emitted, aad);
    assert chunks[..|chunks|] == chunks;
  }

  // ----- when encryption succeeds -----

  /** The primitives serve the call for chunk `n`. */
  predicate ChunkSeals(c: Primitives, s: EncState, chunks: seq<bytes>, n: nat, aad: bytes)
    requires n < |chunks| && n <= U64_MAX
  {
    var nonce := DeriveChunkNonce(c, s.streamKey, n);
    nonce.Ok? && c.seal(s.streamKey, nonce.value, chunks[n], ChunkAad(s.streamId, n, n + 1 == |chunks|, aad)).Ok?
  }

  /** After `n` chunks: the keys of `s`, position `n`, and closed only if that was all. */
  predicate Advanced(s: EncState, s': EncState, n: nat, closed: bool) {
    s'.streamKey == s.streamKey && s'.streamId == s.streamId && s'.nextSeq == n && s'.finalized == closed
  }

  lemma StepSucceedsExactly(c: Primitives, s: EncState, s': EncState, chunks: seq<bytes>, n: nat, aad: bytes)
    requires n < |chunks| && n <= U64_MAX && Advanced(s, s', n, false)
    ensures var (s'', r) := EncryptStep(c, s', chunks[n], n + 1 == |chunks|, aad);
            && (r.Ok? <==> n < U64_MAX && ChunkSeals(c, s, chunks, n, aad))
            && (r.Ok? ==> Advanced(s, s'', n + 1, n + 1 == |chunks|))
  {
  }

  /** `k` chunks get through exactly when each of their calls is served and there are at most 2^64-1 of them. */
  lemma {:induction false} PrefixSucceedsExactly(c: Primitives, s: EncState, chunks: seq<bytes>, k: nat, aad: bytes)
    requires s.nextSeq == 0 && !s.finalized && k <= |chunks|
    ensures EncryptPrefix(c, s, chunks, k, aad).Ok? <==>
              k <= U64_MAX && forall n | 0 <= n < k :: ChunkSeals(c, s, chunks, n, aad)
    ensures EncryptPrefix(c, s, chunks, k, aad).Ok? ==>
              Advanced(s, EncryptPrefix(c, s, chunks, k, aad).value.0, k, k > 0 && k == |chunks|)
  {
    hide EncryptStep, ChunkSeals;
    if k > 0 {
      PrefixSucceedsExactly(c, s, chunks, k - 1, aad);
      var before := EncryptPrefix(c, s, chunks, k - 1, aad);
      if before.Ok? {
        StepSucceedsExactly(c, s, before.value.0, chunks, k - 1, aad);
        assert EncryptPrefix(c, s, chunks, k, aad).Ok?
          <==> EncryptStep(c, before.value.0, chunks[k - 1], k == |chunks|, aad).1.Ok?;
      } else {
        EncryptPrefixFails(c, s, chunks, k - 1, k, aad);
      }
    }
  }

  /**
   One-shot encryption fails only for an empty list, for more than 2^64-1 chunks, or where a primitive fails a call.
   */
  lemma EncryptSucceedsExactly(c: Primitives, s: EncState, chunks: seq<bytes>, aad: bytes)
    requires s.nextSeq == 0 && !s.finalized
    ensures EncryptStreamSpec(c, s, chunks, aad).Ok? <==>
              && chunks != [] && |chunks| <= U64_MAX
              && forall n | 0 <= n < |chunks| :: ChunkSeals(c, s, chunks, n, aad)
  {
    hide ChunkSeals, EncryptPrefix;
    PrefixSucceedsExactly(c, s, chunks, |chunks|, aad);
  }
}
