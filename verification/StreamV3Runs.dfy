/** Safety of V3 streams over whole runs of an encryptor and a decryptor that face an active adversary. */
module StreamV3Runs {
  import opened Wrappers
  import opened Bytes
  import opened Crypto
  import opened Chunks
  import opened StreamV3
  import opened Wire

  datatype Event =
    | Encrypt(plaintext: bytes, isFinal: bool, aad: bytes)
    | Decrypt(frame: bytes, aad: bytes)

  /** `sealed` logs every AEAD sealing, also one whose frame is then withheld. */
  datatype World = World(enc: EncState, dec: DecState, sealed: seq<Sealed>, emitted: seq<Chunk>, accepted: seq<Chunk>)

  predicate Start(w: World) {
    && w.enc.nextSeq == 0 && !w.enc.finalized
    && w.dec == DecState(w.enc.streamKey, w.enc.finalKey, w.enc.streamId, 0, false)
    && w.sealed == [] && w.emitted == [] && w.accepted == []
  }

  function Step(c: Primitives, w: World, e: Event): World {
    match e
    case Encrypt(plaintext, isFinal, aad) =>
      var t := SealChunk(c, w.enc, plaintext, isFinal, aad);
      var (enc, r) := EncryptStep(c, w.enc, plaintext, isFinal, aad);
      w.(enc := enc,
         sealed := if t.Ok? then w.sealed + [t.value] else w.sealed,
         emitted := if r.Ok? then w.emitted + [Chunk(plaintext, isFinal, aad, r.value)] else w.emitted)
    case Decrypt(frame, aad) =>
      var (dec, r) := DecryptStep(c, w.dec, frame, aad);
      w.(dec := dec,
         accepted := if r.Ok? then w.accepted + [Chunk(r.value.0, r.value.1, aad, frame)] else w.accepted)
  }

  function Run(c: Primitives, w: World, es: seq<Event>): World
    decreases |es|
  {
    if es == [] then w else Run(c, Step(c, w, es[0]), es[1..])
  }

  // ----- unforgeability -----

  /** The query is about this very nonce, ciphertext and AAD. */
  predicate Matches(streamId: StreamId, t: Sealed, q: Query, aad: bytes) {
    t.nonce == q.nonce && t.ct == q.ct
    && ChunkAad(streamId, t.seqNo, t.isFinal, t.userAad) == ChunkAad(streamId, q.seqNo, q.isFinal, aad)
  }

  /** The AEAD opens this frame only if the encryptor has already sealed that very nonce, ciphertext and AAD. */
  ghost predicate Unforged(c: Primitives, dec: DecState, sealed: seq<Sealed>, frame: bytes, aad: bytes) {
    var q := QueryOf(c, dec, frame);
    q.Ok? ==>
      c.open(dec.streamKey, q.value.nonce, q.value.ct,
             ChunkAad(dec.streamId, q.value.seqNo, q.value.isFinal, aad)).Ok? ==>
        exists t | t in sealed :: Matches(dec.streamId, t, q.value, aad)
  }

  ghost predicate UnforgedRun(c: Primitives, w: World, es: seq<Event>)
    decreases |es|
  {
    es != [] ==>
      && (es[0].Decrypt? ==> Unforged(c, w.dec, w.sealed, es[0].frame, es[0].aad))
      && UnforgedRun(c, Step(c, w, es[0]), es[1..])
  }

  // ----- what the encryptor keeps -----

  function ChunkOf(t: Sealed): Chunk {
    Chunk(t.plaintext, t.isFinal, t.userAad, Frame(t.seqNo, t.isFinal, t.ct))
  }

  /** The i-th sealing used position i, except that every sealing past 2^64-1 stays on that position. */
  predicate SealedAt(c: Primitives, streamKey: bytes, streamId: StreamId, i: nat, t: Sealed) {
    && t.seqNo == (if i < U64_MAX then i else U64_MAX)
    && DeriveChunkNonce(c, streamKey, t.seqNo) == Ok(t.nonce)
    && c.seal(streamKey, t.nonce, t.plaintext, ChunkAad(streamId, t.seqNo, t.isFinal, t.userAad)) == Ok(t.ct)
  }

  predicate EncInv(c: Primitives, enc: EncState, sealed: seq<Sealed>, emitted: seq<Chunk>) {
    && enc.nextSeq == |emitted| == (if |sealed| <= U64_MAX then |sealed| else U64_MAX)
    && (forall i | 0 <= i < |sealed| :: SealedAt(c, enc.streamKey, enc.streamId, i, sealed[i]))
    && (forall i | 0 <= i < |emitted| :: emitted[i] == ChunkOf(sealed[i]))
    && FinalOnlyLast(emitted, enc.finalized)
  }

  /** The decryptor is exactly as far along the encryptor's output as it has accepted. */
  predicate DecInv(enc: EncState, emitted: seq<Chunk>, dec: DecState, accepted: seq<Chunk>) {
    && dec.streamKey == enc.streamKey && dec.streamId == enc.streamId
    && dec.expectedSeq == |accepted| <= |emitted|
    && accepted == emitted[..|accepted|]
    && (dec.done <==> accepted != [] && accepted[|accepted| - 1].isFinal)
  }

  lemma SealingKeepsInv(c: Primitives, enc: EncState, sealed: seq<Sealed>, emitted: seq<Chunk>, t: Sealed)
    requires EncInv(c, enc, sealed, emitted) && !enc.finalized
    requires SealedAt(c, enc.streamKey, enc.streamId, |sealed|, t)
    ensures enc.nextSeq == U64_MAX ==> EncInv(c, enc, sealed + [t], emitted)
    ensures enc.nextSeq < U64_MAX ==>
              EncInv(c, enc.(nextSeq := enc.nextSeq + 1, finalized := t.isFinal), sealed + [t], emitted + [ChunkOf(t)])
  {
    FinalStaysLast(emitted, ChunkOf(t));
  }

  lemma EncStepKeepsInv(c: Primitives, w: World, plaintext: bytes, isFinal: bool, aad: bytes)
    requires EncInv(c, w.enc, w.sealed, w.emitted)
    ensures var w' := Step(c, w, Encrypt(plaintext, isFinal, aad));
            && EncInv(c, w'.enc, w'.sealed, w'.emitted)
            && w.emitted <= w'.emitted
            && (w.enc.finalized ==> w'.emitted == w.emitted)
  {
    var r := SealChunk(c, w.enc, plaintext, isFinal, aad);
    if r.Ok? {
      SealingKeepsInv(c, w.enc, w.sealed, w.emitted, r.value);
    }
  }

  /** The sealing that matches a query below the last position is the one emitted at that position. */
  lemma SealBehind(c: Primitives, enc: EncState, sealed: seq<Sealed>, emitted: seq<Chunk>, q: Query, aad: bytes)
    requires OpensWhatItSeals(c) && EncInv(c, enc, sealed, emitted)
    requires q.seqNo < U64_MAX
    requires exists t | t in sealed :: Matches(enc.streamId, t, q, aad)
    ensures q.seqNo < |emitted| && q.seqNo < |sealed|
    ensures var t := sealed[q.seqNo];
            && t.seqNo == q.seqNo && t.isFinal == q.isFinal && t.userAad == aad && t.ct == q.ct
            && c.open(enc.streamKey, q.nonce, q.ct, ChunkAad(enc.streamId, q.seqNo, q.isFinal, aad)) == Ok(t.plaintext)
  {
    var t :| t in sealed && Matches(enc.streamId, t, q, aad);
    ChunkAadInjective(enc.streamId, t.seqNo, t.isFinal, t.userAad, enc.streamId, q.seqNo, q.isFinal, aad);
    var i :| 0 <= i < |sealed| && sealed[i] == t;
    assert SealedAt(c, enc.streamKey, enc.streamId, i, t);
  }

  /** A frame has one spelling: it is determined by its parsed parts. */
  lemma FrameIsCanonical(frame: bytes)
    requires |frame| >= 9 && frame[8] in {0x00, 0x01}
    ensures frame == Frame(U64FromBE(frame[..8]), frame[8] == 0x01, frame[9..])
  {
    ToFromBE(frame[..8]);
    assert frame == frame[..8] + [frame[8]] + frame[9..];
  }

  /** What an accepted call saw: the expected position, a canonical frame, and a plaintext the AEAD vouched for. */
  lemma AcceptedQuery(c: Primitives, dec: DecState, frame: bytes, aad: bytes)
    requires DecryptStep(c, dec, frame, aad).1.Ok?
    ensures var q := QueryOf(c, dec, frame);
            && q.Ok? && !dec.done && q.value.seqNo == dec.expectedSeq < U64_MAX
            && frame == Frame(q.value.seqNo, q.value.isFinal, q.value.ct)
            && c.open(dec.streamKey, q.value.nonce, q.value.ct,
                      ChunkAad(dec.streamId, q.value.seqNo, q.value.isFinal, aad))
               == Ok(DecryptStep(c, dec, frame, aad).1.value.0)
            && DecryptStep(c, dec, frame, aad).1.value.1 == q.value.isFinal
            && DecryptStep(c, dec, frame, aad).0 == dec.(expectedSeq := dec.expectedSeq + 1, done := q.value.isFinal)
  {
    FrameIsCanonical(frame);
  }

  lemma OneMoreAccepted(enc: EncState, emitted: seq<Chunk>, dec: DecState, accepted: seq<Chunk>, isFinal: bool)
    requires DecInv(enc, emitted, dec, accepted)
    requires |accepted| < |emitted| && emitted[|accepted|].isFinal == isFinal
    requires dec.expectedSeq < U64_MAX
    ensures DecInv(enc, emitted, dec.(expectedSeq := dec.expectedSeq + 1, done := isFinal),
                    accepted + [emitted[|accepted|]])
  {
    assert accepted + [emitted[|accepted|]] == emitted[..|accepted| + 1];
  }

  /**
   The heart of integrity: whatever bytes the adversary submits, an accepted frame is the encryptor's next one,
   byte for byte, with its own plaintext, flag and AAD. A sealing at position 2^64-1 was never emitted, and the
   decryptor's own counter check refuses it.
   */
  lemma AcceptedIsNext(c: Primitives, enc: EncState, sealed: seq<Sealed>, emitted: seq<Chunk>, dec: DecState,
                       accepted: seq<Chunk>,
                       frame: bytes, aad: bytes)
    requires OpensWhatItSeals(c)
    requires EncInv(c, enc, sealed, emitted) && DecInv(enc, emitted, dec, accepted)
    requires Unforged(c, dec, sealed, frame, aad)
    requires DecryptStep(c, dec, frame, aad).1.Ok?
    ensures var (dec', r) := DecryptStep(c, dec, frame, aad);
            var chunk := Chunk(r.value.0, r.value.1, aad, frame);
            && |accepted| < |emitted| && emitted[|accepted|] == chunk
            && DecInv(enc, emitted, dec', accepted + [chunk])
  {
    AcceptedQuery(c, dec, frame, aad);
    var q := QueryOf(c, dec, frame).value;
    SealBehind(c, enc, sealed, emitted, q, aad);
    assert emitted[q.seqNo] == ChunkOf(sealed[q.seqNo]);
    OneMoreAccepted(enc, emitted, dec, accepted, q.isFinal);
  }

  ghost predicate Inv(c: Primitives, w: World) {
    EncInv(c, w.enc, w.sealed, w.emitted) && DecInv(w.enc, w.emitted, w.dec, w.accepted)
  }

  lemma DecInvGrows(enc: EncState, emitted: seq<Chunk>, enc': EncState, emitted': seq<Chunk>, dec: DecState,
                    accepted: seq<Chunk>)
    requires DecInv(enc, emitted, dec, accepted) && emitted <= emitted'
    requires enc'.streamKey == enc.streamKey && enc'.streamId == enc.streamId
    ensures DecInv(enc', emitted', dec, accepted)
  {
    assert emitted'[..|accepted|] == emitted[..|accepted|];
  }

  lemma StepKeepsInv(c: Primitives, w: World, e: Event)
    requires OpensWhatItSeals(c) && Inv(c, w)
    requires e.Decrypt? ==> Unforged(c, w.dec, w.sealed, e.frame, e.aad)
    ensures Inv(c, Step(c, w, e))
  {
    match e
    case Encrypt(plaintext, isFinal, aad) =>
      EncStepKeepsInv(c, w, plaintext, isFinal, aad);
      DecInvGrows(w.enc, w.emitted, Step(c, w, e).enc, Step(c, w, e).emitted, w.dec, w.accepted);
    case Decrypt(frame, aad) =>
      if DecryptStep(c, w.dec, frame, aad).1.Ok? {
        AcceptedIsNext(c, w.enc, w.sealed, w.emitted, w.dec, w.accepted, frame, aad);
      }
  }

  lemma {:induction false} RunKeepsInv(c: Primitives, w: World, es: seq<Event>)
    requires OpensWhatItSeals(c) && Inv(c, w) && UnforgedRun(c, w, es)
    ensures Inv(c, Run(c, w, es))
    decreases |es|
  {
    if es != [] {
      StepKeepsInv(c, w, es[0]);
      RunKeepsInv(c, Step(c, w, es[0]), es[1..]);
    }
  }

  /** The invariant places the recipient on the sender's output. */
  lemma InvMeans(c: Primitives, w: World)
    requires Inv(c, w)
    ensures w.accepted <= w.emitted && w.dec.expectedSeq == |w.accepted|
    ensures w.dec.done ==> w.accepted == w.emitted && w.enc.finalized
  {
    if w.dec.done {
      assert w.emitted[|w.accepted| - 1].isFinal;
    }
  }

  lemma StartHasInv(c: Primitives, w: World)
    requires Start(w)
    ensures Inv(c, w) && EncInv(c, w.enc, w.sealed, w.emitted)
  {
  }

  /**
   V3 stream integrity. For any interleaving of encryption calls and adversarial decryption calls, the accepted chunks
   are an in-order prefix of the emitted ones, and `done` means all of them have been accepted and no more will be
   emitted.
   */
  lemma StreamIntegrity(c: Primitives, start: World, es: seq<Event>)
    requires OpensWhatItSeals(c) && Start(start) && UnforgedRun(c, start, es)
    ensures var w := Run(c, start, es);
            && w.accepted <= w.emitted
            && w.dec.expectedSeq == |w.accepted|
            && (w.dec.done ==> w.accepted == w.emitted && w.enc.finalized)
  {
    StartHasInv(c, start);
    hide Start, Run, Step, UnforgedRun, EncInv, DecInv, OpensWhatItSeals;
    RunKeepsInv(c, start, es);
    InvMeans(c, Run(c, start, es));
  }

  // ----- rejected calls leave no trace -----

  datatype Input = Input(frame: bytes, aad: bytes)

  function DecryptAll(c: Primitives, s: DecState, inputs: seq<Input>): (DecState, seq<Result<(bytes, bool)>>)
    decreases |inputs|
  {
    if inputs == [] then (s, [])
    else
      var (s', r) := DecryptStep(c, s, inputs[0].frame, inputs[0].aad);
      var (end, rs) := DecryptAll(c, s', inputs[1..]);
      (end, [r] + rs)
  }

  /** The inputs of the run that were accepted. */
  function Kept(c: Primitives, s: DecState, inputs: seq<Input>): seq<Input>
    decreases |inputs|
  {
    if inputs == [] then []
    else
      var (s', r) := DecryptStep(c, s, inputs[0].frame, inputs[0].aad);
      (if r.Ok? then [inputs[0]] else []) + Kept(c, s', inputs[1..])
  }

  function Successes<T>(rs: seq<Result<T>>): seq<Result<T>> {
    if rs == [] then [] else (if rs[0].Ok? then [rs[0]] else []) + Successes(rs[1..])
  }

  /** Dropping every rejected call from a run changes neither the final state nor any accepted result. */
  lemma {:induction false} RejectedCallsErasable(c: Primitives, s: DecState, inputs: seq<Input>)
    ensures DecryptAll(c, s, Kept(c, s, inputs))
         == (DecryptAll(c, s, inputs).0, Successes(DecryptAll(c, s, inputs).1))
    decreases |inputs|
  {
    if inputs != [] {
      var (s', r) := DecryptStep(c, s, inputs[0].frame, inputs[0].aad);
      RejectedCallsErasable(c, s', inputs[1..]);
      var (end, rs) := DecryptAll(c, s', inputs[1..]);
      assert ([r] + rs)[1..] == rs;
      if r.Ok? {
        var kept := Kept(c, s, inputs);
        assert kept[0] == inputs[0] && kept[1..] == Kept(c, s', inputs[1..]);
      } else {
        assert s' == s;
        assert Kept(c, s, inputs) == Kept(c, s', inputs[1..]);
        assert Successes([r] + rs) == Successes(rs);
      }
    }
  }

  // ----- counters and nonces -----

  lemma {:induction false} EncRunKeepsInv(c: Primitives, w: World, es: seq<Event>)
    requires EncInv(c, w.enc, w.sealed, w.emitted)
    ensures var w' := Run(c, w, es);
            EncInv(c, w'.enc, w'.sealed, w'.emitted) && w'.enc.streamKey == w.enc.streamKey
            && w'.enc.finalKey == w.enc.finalKey && w'.enc.streamId == w.enc.streamId
    decreases |es|
  {
    if es != [] {
      match es[0] {
        case Encrypt(plaintext, isFinal, aad) => EncStepKeepsInv(c, w, plaintext, isFinal, aad);
        case Decrypt(_, _) =>
      }
      EncRunKeepsInv(c, Step(c, w, es[0]), es[1..]);
    }
  }

  lemma FrameCarriesPosition(c: Primitives, w: World, i: nat)
    requires EncInv(c, w.enc, w.sealed, w.emitted) && i < |w.emitted|
    ensures |w.emitted[i].frame| >= 9 && U64FromBE(w.emitted[i].frame[..8]) == i
  {
    assert w.emitted[i] == ChunkOf(w.sealed[i]);
    assert SealedAt(c, w.enc.streamKey, w.enc.streamId, i, w.sealed[i]);
  }

  /**
   Over any mix of successful and failing calls the emitted frames carry the positions 0, 1, 2, ... in order, at most
   2^64-1 of them, and the final tag is available exactly when the last one was final; it covers that count.
   */
  lemma CounterDiscipline(c: Primitives, start: World, es: seq<Event>)
    requires Start(start)
    ensures var w := Run(c, start, es);
            && w.enc.nextSeq == |w.emitted| <= U64_MAX
            && (forall i | 0 <= i < |w.emitted| ::
                  |w.emitted[i].frame| >= 9 && U64FromBE(w.emitted[i].frame[..8]) == i)
            && (TagOf(c, w.enc).Ok? <==> w.emitted != [] && w.emitted[|w.emitted| - 1].isFinal)
            && (TagOf(c, w.enc).Ok? ==>
                  TagOf(c, w.enc).value == c.mac(w.enc.finalKey, TagMessage(w.enc.streamId, |w.emitted|)))
  {
    StartHasInv(c, start);
    hide Start, Run, Step, SealedAt;
    EncRunKeepsInv(c, start, es);
    var w := Run(c, start, es);
    forall i | 0 <= i < |w.emitted|
      ensures |w.emitted[i].frame| >= 9 && U64FromBE(w.emitted[i].frame[..8]) == i
    {
      FrameCarriesPosition(c, w, i);
    }
  }

  /** The HKDF info of a position: the label, then the position in eight bytes, most significant first. */
  function NonceInfo(position: nat): bytes {
    Ascii("citadel-v3-nonce|") + ToBE(8, position)
  }

  lemma NonceInfoInjective(i: nat, j: nat)
    requires i <= U64_MAX && j <= U64_MAX && NonceInfo(i) == NonceInfo(j)
    ensures i == j
  {
    SplitConcat(Ascii("citadel-v3-nonce|"), ToBE(8, i), Ascii("citadel-v3-nonce|"), ToBE(8, j));
    BEWidths();
    FromToBE(8, i);
    FromToBE(8, j);
  }

  /** HKDF gives the first `n` positions different nonces. */
  predicate NoncesDistinct(c: Primitives, key: bytes, n: nat)
    requires n <= U64_MAX + 1
  {
    forall i: nat, j: nat | 0 <= i < j < n :: c.expand(key, NonceInfo(i), 12) != c.expand(key, NonceInfo(j), 12)
  }

  /** HKDF does not collide on the infos of the first `n` positions. */
  predicate NoInfoCollision(c: Primitives, key: bytes, n: nat) {
    forall i: nat, j: nat | 0 <= i < j < n ::
      c.expand(key, NonceInfo(i), 12) == c.expand(key, NonceInfo(j), 12) ==> NonceInfo(i) == NonceInfo(j)
  }

  ghost predicate NoNonceReuse(sealed: seq<Sealed>) {
    forall i, j | 0 <= i < j < |sealed| :: sealed[i].nonce != sealed[j].nonce
  }

  lemma NonceReuseExactly(c: Primitives, enc: EncState, sealed: seq<Sealed>, emitted: seq<Chunk>)
    requires EncInv(c, enc, sealed, emitted)
    ensures NoNonceReuse(sealed) <==> |sealed| <= U64_MAX + 1 && NoncesDistinct(c, enc.streamKey, |sealed|)
  {
    var key, id := enc.streamKey, enc.streamId;
    if |sealed| <= U64_MAX + 1 {
      forall i: nat, j: nat | i < j < |sealed|
        ensures c.expand(key, NonceInfo(i), 12) != c.expand(key, NonceInfo(j), 12)
                <==> sealed[i].nonce != sealed[j].nonce
      {
        assert SealedAt(c, key, id, i, sealed[i]) && SealedAt(c, key, id, j, sealed[j]);
      }
    } else {
      var i, j := U64_MAX, U64_MAX + 1;
      assert SealedAt(c, key, id, i, sealed[i]) && SealedAt(c, key, id, j, sealed[j]);
    }
  }

  /**
   The IV uniqueness of section 8 of NIST SP 800-38D, for everything the AEAD sealed. It holds exactly
   when the nonces of the positions used differ and there were at most 2^64 sealings: the counter is checked after
   sealing, so a second call at position 2^64-1 seals under the first one's nonce, although neither ciphertext is
   released.
   */
  lemma NonceDiscipline(c: Primitives, start: World, es: seq<Event>)
    requires Start(start)
    ensures var sealed := Run(c, start, es).sealed;
            NoNonceReuse(sealed) <==> |sealed| <= U64_MAX + 1 && NoncesDistinct(c, start.enc.streamKey, |sealed|)
  {
    StartHasInv(c, start);
    hide Start, Run, Step, EncInv;
    EncRunKeepsInv(c, start, es);
    var w := Run(c, start, es);
    NonceReuseExactly(c, w.enc, w.sealed, w.emitted);
  }

  lemma ChunkAadFlat(id: StreamId, n: u64, f: bool, aad: bytes)
    ensures ChunkAad(id, n, f, aad)
         == Ascii("citadel-v3-chunk|") + id + ToBE(8, n) + [if f then 0x01 else 0x00, 0x7C] + aad
  {
  }

  /**
   Every sealing of a run, written out: sealing i below 2^64 is under the nonce that HKDF gives for the label and
   position i in eight bytes, and its AAD is the label, the stream id, position i, the final flag, a bar and the
   caller's AAD.
   */
  lemma SealingsWrittenOut(c: Primitives, start: World, es: seq<Event>, i: nat)
    requires Start(start) && i < |Run(c, start, es).sealed| && i <= U64_MAX
    ensures var t := Run(c, start, es).sealed[i];
            && t.seqNo == i
            && c.expand(start.enc.streamKey, Ascii("citadel-v3-nonce|") + ToBE(8, i), 12) == Ok(t.nonce)
            && c.seal(start.enc.streamKey, t.nonce, t.plaintext,
                      Ascii("citadel-v3-chunk|") + start.enc.streamId + ToBE(8, i)
                      + [if t.isFinal then 0x01 else 0x00, 0x7C] + t.userAad) == Ok(t.ct)
  {
    StartHasInv(c, start);
    hide Start, Run, Step;
    EncRunKeepsInv(c, start, es);
    var w := Run(c, start, es);
    assert SealedAt(c, w.enc.streamKey, w.enc.streamId, i, w.sealed[i]);
    hide EncInv;
    ChunkAadFlat(w.enc.streamId, i, w.sealed[i].isFinal, w.sealed[i].userAad);
  }

  /** If HKDF does not collide on the infos used, no nonce is used twice in any run of at most 2^64 sealings. */
  lemma NoncesNeverRepeat(c: Primitives, start: World, es: seq<Event>)
    requires Start(start) && |Run(c, start, es).sealed| <= U64_MAX + 1
    requires NoInfoCollision(c, start.enc.streamKey, |Run(c, start, es).sealed|)
    ensures NoNonceReuse(Run(c, start, es).sealed)
  {
    hide Run, Start;
    var n := |Run(c, start, es).sealed|;
    forall i: nat, j: nat | 0 <= i < j < n
      ensures c.expand(start.enc.streamKey, NonceInfo(i), 12) != c.expand(start.enc.streamKey, NonceInfo(j), 12)
    {
      if NonceInfo(i) == NonceInfo(j) {
        NonceInfoInjective(i, j);
      }
    }
    NonceDiscipline(c, start, es);
  }

  /** At the last position a call seals, releases nothing and stays there, so the next call repeats its nonce. */
  lemma ExhaustedCounterSealsAgain(c: Primitives, s: EncState, p: bytes, fin: bool, aad: bytes, p': bytes, fin': bool,
                                   aad': bytes)
    requires s.nextSeq == U64_MAX
    requires SealChunk(c, s, p, fin, aad).Ok? && SealChunk(c, s, p', fin', aad').Ok?
    ensures EncryptStep(c, s, p, fin, aad) == (s, Err) && EncryptStep(c, s, p', fin', aad') == (s, Err)
    ensures SealChunk(c, s, p, fin, aad).value.nonce
         == SealChunk(c, EncryptStep(c, s, p, fin, aad).0, p', fin', aad').value.nonce
  {
  }

  /**
   A recipient with the sender's MAC key accepts the sender's final tag exactly when it is done, has the sender's
   count and is on the sender's stream, unless the MAC collides on the two messages that state stream and count.
   */
  lemma FinalTagBindsCount(c: Primitives, enc: EncState, dec: DecState)
    requires enc.finalKey == dec.finalKey && TagOf(c, enc).Ok?
    requires var m, m' := enc.streamId + ToBE(8, enc.nextSeq), dec.streamId + ToBE(8, dec.expectedSeq);
             c.mac(enc.finalKey, m) == c.mac(enc.finalKey, m') ==> m == m'
    ensures VerifyFinalTag(c, dec, TagOf(c, enc).value) <==>
              dec.done && dec.expectedSeq == enc.nextSeq && dec.streamId == enc.streamId
    ensures TagOf(c, enc).value == c.mac(enc.finalKey, enc.streamId + ToBE(8, enc.nextSeq))
  {
    if VerifyFinalTag(c, dec, TagOf(c, enc).value) {
      SplitConcat(enc.streamId, U64ToBE(enc.nextSeq), dec.streamId, U64ToBE(dec.expectedSeq));
    }
  }

  /** A recipient that parsed the sender's header is where such a run starts. */
  lemma HeaderStartsRun(c: Primitives, sk: bytes, sharedSecret: bytes, kemCt: bytes, streamId: StreamId,
                        context: bytes, tail: bytes)
    requires OpensWhatItSeals(c)
    requires |kemCt| == KEM_CIPHERTEXT_BYTES && c.decapsulate(sk, kemCt) == Ok(sharedSecret)
    requires NewEncryptor(c, sharedSecret, kemCt, streamId, context).Ok?
    ensures var enc := NewEncryptor(c, sharedSecret, kemCt, streamId, context).value;
            var dec := ParseHeader(c, sk, enc.header + tail, context);
            dec.Ok? && Start(World(enc, dec.value.0, [], [], []))
  {
    HeaderRoundTrip(c, sk, sharedSecret, kemCt, streamId, context, tail);
    hide ParseHeader;
  }
}
