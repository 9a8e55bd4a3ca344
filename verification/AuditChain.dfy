/** The tamper-evident audit chain of citadel-keystore/src/audit.rs: stamping, forwarding, anchoring and verifying. */
module AuditChain {
  import opened Wrappers

  /** `body` stands for every field of the event that the chain does not set. */
  datatype AuditEvent = AuditEvent(body: string, sequence: Option<nat>, prevHash: Option<string>)

  /** `digest` is the SHA-256 hex digest of an event's JSON, `genesis` that of the fixed genesis label. */
  datatype Hashing = Hashing(digest: AuditEvent -> string, genesis: string)

  /** No two of these events have the same digest, and none has the genesis digest. */
  predicate CollisionFree(h: Hashing, pool: set<AuditEvent>) {
    && (forall e, e' | e in pool && e' in pool :: h.digest(e) == h.digest(e') ==> e == e')
    && (forall e | e in pool :: h.digest(e) != h.genesis)
  }

  predicate Among(log: seq<AuditEvent>, pool: set<AuditEvent>) {
    forall i | 0 <= i < |log| :: log[i] in pool
  }

  // ----- logs -----

  function Head(h: Hashing, log: seq<AuditEvent>): string {
    if log == [] then h.genesis else h.digest(log[|log| - 1])
  }

  /** Every event carries the hash of the one before it, the first one the genesis hash. */
  predicate Links(h: Hashing, log: seq<AuditEvent>) {
    forall i | 0 <= i < |log| :: log[i].prevHash == Some(Head(h, log[..i]))
  }

  /** The verifier replays the log and compares each link. */
  method VerifyChain(h: Hashing, log: seq<AuditEvent>) returns (ok: bool)
    ensures ok <==> Links(h, log)
  {
    var expectedPrev := h.genesis;
    var i := 0;
    while i < |log|
      invariant 0 <= i <= |log|
      invariant expectedPrev == Head(h, log[..i])
      invariant forall j | 0 <= j < i :: log[j].prevHash == Some(Head(h, log[..j]))
    {
      if log[i].prevHash != Some(expectedPrev) {
        return false;
      }
      expectedPrev := h.digest(log[i]);
      i := i + 1;
    }
    return true;
  }

  lemma LinksPrefix(h: Hashing, log: seq<AuditEvent>, k: nat)
    requires k <= |log| && Links(h, log)
    ensures Links(h, log[..k])
  {
    forall i | 0 <= i < k ensures log[..k][i].prevHash == Some(Head(h, log[..k][..i])) {
      assert log[..k][..i] == log[..i];
    }
  }

  /** The head pins the log: two verifying logs with one head are the same log, event by event and in length. */
  lemma {:induction false} HeadPinsLog(h: Hashing, pool: set<AuditEvent>, a: seq<AuditEvent>, b: seq<AuditEvent>)
    requires CollisionFree(h, pool) && Among(a, pool) && Among(b, pool)
    requires Links(h, a) && Links(h, b)
    requires Head(h, a) == Head(h, b)
    ensures a == b
  {
    if a != [] && b != [] {
      var m, n := |a| - 1, |b| - 1;
      assert a[m] == b[n];
      LinksPrefix(h, a, m);
      LinksPrefix(h, b, n);
      HeadPinsLog(h, pool, a[..m], b[..n]);
      assert a == a[..m] + [a[m]] && b == b[..n] + [b[n]];
    }
  }

  /**
   Tampering shows: two verifying logs that share an event, at whatever positions, have it at the same position and
   agree on everything before it. So changing, inserting, deleting or swapping events anywhere leaves no later event
   in place.
   */
  lemma SharedEventPinsPast(h: Hashing, pool: set<AuditEvent>, a: seq<AuditEvent>, j: nat, b: seq<AuditEvent>, k: nat)
    requires CollisionFree(h, pool) && Among(a, pool) && Among(b, pool)
    requires Links(h, a) && Links(h, b)
    requires j < |a| && k < |b| && a[j] == b[k]
    ensures j == k && a[..j + 1] == b[..k + 1]
  {
    hide CollisionFree, Links;
    LinksPrefix(h, a, j + 1);
    LinksPrefix(h, b, k + 1);
    HeadPinsLog(h, pool, a[..j + 1], b[..k + 1]);
    assert |a[..j + 1]| == |b[..k + 1]|;
  }

  /**
   Changing one event of a verifying log goes unnoticed exactly when it is the last one and its link is kept; the head
   then differs, which is what anchoring it outside is for.
   */
  lemma TamperUnnoticedExactly(h: Hashing, pool: set<AuditEvent>, log: seq<AuditEvent>, i: nat, e: AuditEvent)
    requires CollisionFree(h, pool) && Among(log, pool) && e in pool
    requires Links(h, log) && i < |log| && e != log[i]
    ensures Links(h, log[i := e]) <==> i == |log| - 1 && e.prevHash == log[i].prevHash
    ensures i == |log| - 1 ==> Head(h, log[i := e]) != Head(h, log)
  {
    var tampered := log[i := e];
    assert tampered[..i] == log[..i];
    if i == |log| - 1 {
      assert forall j | 0 <= j < i :: tampered[..j] == log[..j];
    } else {
      assert log[..i + 1][i] == log[i] && tampered[..i + 1][i] == e;
      assert tampered[i + 1].prevHash == Some(Head(h, log[..i + 1]));
    }
  }

  // ----- the sink -----

  /** `poisoned` records that a panic under the lock has made it unusable. */
  datatype Sink = Sink(sequence: nat, prevHash: string, poisoned: bool, hasWitness: bool, anchorInterval: nat)

  datatype Anchor = Anchor(sequence: nat, hash: string)

  datatype Stamped = Stamped(sink: Sink, event: Option<AuditEvent>, anchor: Option<Anchor>)

  /** The critical section of `record`. With interval 0 the remainder panics from the second event on. */
  function Stamp(h: Hashing, s: Sink, e: AuditEvent): Stamped {
    if s.poisoned then Stamped(s, None, None)
    else
      var stamped := e.(sequence := Some(s.sequence), prevHash := Some(s.prevHash));
      var hash := h.digest(stamped);
      if s.sequence > 0 && s.anchorInterval == 0 then Stamped(s.(prevHash := hash, poisoned := true), None, None)
      else
        var anchor := if s.sequence > 0 && s.sequence % s.anchorInterval == 0 && s.hasWitness
                      then Some(Anchor(s.sequence, hash)) else None;
        Stamped(s.(sequence := s.sequence + 1, prevHash := hash), Some(stamped), anchor)
  }

  /** Where the inner sink stores what it is given, in arrival order. */
  class EventLog {
    var events: seq<AuditEvent>

    constructor ()
      ensures events == []
    {
      events := [];
    }
  }

  class IntegrityChainSink {
    const h: Hashing
    const hasWitness: bool
    const anchorInterval: nat
    var sequence: nat
    var prevHash: string
    var poisoned: bool
    var published: seq<Anchor>

    function State(): Sink
      reads this
    {
      Sink(sequence, prevHash, poisoned, hasWitness, anchorInterval)
    }

    constructor WithWitness(h: Hashing, hasWitness: bool, anchorInterval: nat)
      ensures this.h == h && published == []
      ensures State() == Sink(0, h.genesis, false, hasWitness, anchorInterval)
    {
      this.h, this.hasWitness, this.anchorInterval := h, hasWitness, anchorInterval;
      sequence, prevHash, poisoned, published := 0, h.genesis, false, [];
    }

    /** The part of `record` under the lock; no event comes back when it panics. */
    method StampLocked(event: AuditEvent) returns (stamped: Option<AuditEvent>)
      modifies this
      ensures var spec := Stamp(h, old(State()), event);
              && State() == spec.sink && stamped == spec.event
              && published == if spec.anchor.Some? then old(published) + [spec.anchor.value] else old(published)
    {
      if poisoned {
        return None;
      }
      var e := event.(sequence := Some(sequence));
      e := e.(prevHash := Some(prevHash));
      prevHash := h.digest(e);
      if sequence > 0 {
        if anchorInterval == 0 {
          poisoned := true;
          return None;
        }
        if sequence % anchorInterval == 0 {
          if hasWitness {
            published := published + [Anchor(sequence, prevHash)];
          }
        }
      }
      sequence := sequence + 1;
      return Some(e);
    }

    /** One uninterrupted `record`: stamp under the lock, then forward after releasing it. */
    method Record(event: AuditEvent, inner: EventLog) returns (ok: bool)
      requires inner as object != this
      modifies this, inner
      ensures var spec := Stamp(h, old(State()), event);
              && State() == spec.sink
              && (ok <==> spec.event.Some?)
              && inner.events == if spec.event.Some? then old(inner.events) + [spec.event.value] else old(inner.events)
    {
      var stamped := StampLocked(event);
      if stamped.None? {
        return false;
      }
      inner.events := inner.events + [stamped.value];
      return true;
    }
  }

  // ----- concurrent runs -----

  /** A thread stamps an event under the lock, or later hands a stamped event to the inner sink. */
  datatype Action = StampEvent(event: AuditEvent) | Forward(event: AuditEvent)

  /** `chain` is the history of stamped events; nothing reads it. */
  datatype World = World(sink: Sink, chain: seq<AuditEvent>, inFlight: multiset<AuditEvent>,
                         forwarded: seq<AuditEvent>, anchors: seq<Anchor>)

  function Start(h: Hashing, hasWitness: bool, anchorInterval: nat): World {
    World(Sink(0, h.genesis, false, hasWitness, anchorInterval), [], multiset{}, [], [])
  }

  function Step(h: Hashing, w: World, a: Action): World {
    match a
    case StampEvent(e) =>
      var r := Stamp(h, w.sink, e);
      if r.event.None? then w.(sink := r.sink)
      else
        World(r.sink, w.chain + [r.event.value], w.inFlight + multiset{r.event.value}, w.forwarded,
              if r.anchor.Some? then w.anchors + [r.anchor.value] else w.anchors)
    case Forward(e) =>
      if e !in w.inFlight then w
      else w.(inFlight := w.inFlight - multiset{e}, forwarded := w.forwarded + [e])
  }

  function Run(h: Hashing, w: World, actions: seq<Action>): World {
    if actions == [] then w else Step(h, Run(h, w, actions[..|actions| - 1]), actions[|actions| - 1])
  }

  predicate Numbered(chain: seq<AuditEvent>) {
    forall i | 0 <= i < |chain| :: chain[i].sequence == Some(i)
  }

  function AfterAction(recorded: seq<AuditEvent>, a: Action): seq<AuditEvent> {
    if a.StampEvent? then recorded + [a.event] else recorded
  }

  /** The events passed to `record`, in the order their calls took the lock. */
  function Recorded(actions: seq<Action>): seq<AuditEvent> {
    if actions == [] then []
    else AfterAction(Recorded(actions[..|actions| - 1]), actions[|actions| - 1])
  }

  /** How many of `n` recorded events are stamped: all of them, except that interval 0 stops after the first. */
  function StampedCount(interval: nat, n: nat): nat {
    if interval == 0 && n >= 1 then 1 else n
  }

  /**
   The chain holds what was recorded, in that order, and the sink is poisoned exactly by a second event at interval 0.
   */
  predicate HoldsRecorded(w: World, recorded: seq<AuditEvent>) {
    && (w.sink.poisoned <==> w.sink.anchorInterval == 0 && |recorded| >= 2)
    && |w.chain| == StampedCount(w.sink.anchorInterval, |recorded|) <= |recorded|
    && forall i | 0 <= i < |w.chain| :: w.chain[i].body == recorded[i].body
  }

  predicate IsAnchorPoint(i: nat, interval: nat) {
    i > 0 && interval > 0 && i % interval == 0
  }

  /** The anchors a run must have published: one per positive multiple of the interval, with that event's own hash. */
  function AnchorsOf(h: Hashing, chain: seq<AuditEvent>, s: Sink): seq<Anchor> {
    if chain == [] || !s.hasWitness then []
    else
      var i := |chain| - 1;
      AnchorsOf(h, chain[..i], s) + if IsAnchorPoint(i, s.anchorInterval) then [Anchor(i, h.digest(chain[i]))] else []
  }

  ghost predicate Inv(h: Hashing, w: World) {
    && w.sink.sequence == |w.chain|
    && (!w.sink.poisoned ==> w.sink.prevHash == Head(h, w.chain))
    && Numbered(w.chain) && Links(h, w.chain)
    && multiset(w.forwarded) + w.inFlight == multiset(w.chain)
    && w.anchors == AnchorsOf(h, w.chain, w.sink)
    && (w.sink.anchorInterval == 0 ==> |w.chain| <= 1)
  }

  lemma AnchorsSettings(h: Hashing, chain: seq<AuditEvent>, s: Sink, s': Sink)
    requires s.hasWitness == s'.hasWitness && s.anchorInterval == s'.anchorInterval
    ensures AnchorsOf(h, chain, s) == AnchorsOf(h, chain, s')
  {
  }

  lemma LinksAppend(h: Hashing, chain: seq<AuditEvent>, e: AuditEvent)
    requires Links(h, chain) && e.prevHash == Some(Head(h, chain))
    ensures Links(h, chain + [e])
  {
    var longer := chain + [e];
    forall i | 0 <= i < |longer| ensures longer[i].prevHash == Some(Head(h, longer[..i])) {
      assert longer[..i] == chain[..i];
      assert chain[..|chain|] == chain;
    }
  }

  lemma StampHoldsRecorded(h: Hashing, w: World, recorded: seq<AuditEvent>, e: AuditEvent)
    requires Inv(h, w) && HoldsRecorded(w, recorded)
    ensures HoldsRecorded(Step(h, w, StampEvent(e)), recorded + [e])
  {
    hide Links, Head, AnchorsOf, Numbered;
  }

  lemma StampExtendsAnchors(h: Hashing, chain: seq<AuditEvent>, s: Sink, e: AuditEvent)
    requires s.sequence == |chain| && Stamp(h, s, e).event.Some?
    ensures var r := Stamp(h, s, e);
            AnchorsOf(h, chain + [r.event.value], r.sink)
            == AnchorsOf(h, chain, s) + if r.anchor.Some? then [r.anchor.value] else []
  {
    var r := Stamp(h, s, e);
    var longer := chain + [r.event.value];
    AnchorsSettings(h, chain, s, r.sink);
    assert longer[..|longer| - 1] == chain;
  }

  lemma StampExtendsChain(h: Hashing, chain: seq<AuditEvent>, s: Sink, e: AuditEvent)
    requires s.sequence == |chain| && s.prevHash == Head(h, chain) && Numbered(chain) && Links(h, chain)
    requires Stamp(h, s, e).event.Some?
    ensures var r := Stamp(h, s, e);
            var longer := chain + [r.event.value];
            && r.sink.prevHash == Head(h, longer) && Numbered(longer) && Links(h, longer)
            && AnchorsOf(h, longer, r.sink) == AnchorsOf(h, chain, s) + if r.anchor.Some? then [r.anchor.value] else []
  {
    var r := Stamp(h, s, e);
    LinksAppend(h, chain, r.event.value);
    StampExtendsAnchors(h, chain, s, e);
    hide Links, AnchorsOf;
  }

  lemma StampKeepsInv(h: Hashing, w: World, e: AuditEvent)
    requires Inv(h, w)
    ensures Inv(h, Step(h, w, StampEvent(e)))
  {
    hide Links, Head, AnchorsOf, Numbered;
    var r := Stamp(h, w.sink, e);
    if r.event.None? {
      AnchorsSettings(h, w.chain, w.sink, r.sink);
    } else {
      StampExtendsChain(h, w.chain, w.sink, e);
      var longer := w.chain + [r.event.value];
      assert multiset(longer) == multiset(w.chain) + multiset{r.event.value};
    }
  }

  lemma ForwardKeepsInv(h: Hashing, w: World, e: AuditEvent)
    requires Inv(h, w)
    ensures Inv(h, Step(h, w, Forward(e)))
  {
    if e in w.inFlight {
      assert multiset(w.forwarded + [e]) == multiset(w.forwarded) + multiset{e};
    }
  }

  lemma StartHasInv(h: Hashing, hasWitness: bool, interval: nat)
    ensures var w := Start(h, hasWitness, interval);
            Inv(h, w) && HoldsRecorded(w, []) && w.sink.hasWitness == hasWitness && w.sink.anchorInterval == interval
  {
  }

  lemma StepKeepsSettings(h: Hashing, w: World, a: Action)
    ensures var s := Step(h, w, a).sink; s.hasWitness == w.sink.hasWitness && s.anchorInterval == w.sink.anchorInterval
  {
  }

  lemma ForwardHoldsRecorded(h: Hashing, w: World, recorded: seq<AuditEvent>, e: AuditEvent)
    requires HoldsRecorded(w, recorded)
    ensures HoldsRecorded(Step(h, w, Forward(e)), recorded)
  {
  }

  lemma StepKeepsInv(h: Hashing, w: World, recorded: seq<AuditEvent>, a: Action)
    requires Inv(h, w) && HoldsRecorded(w, recorded)
    ensures var w' := Step(h, w, a);
            && Inv(h, w') && HoldsRecorded(w', AfterAction(recorded, a))
            && w'.sink.hasWitness == w.sink.hasWitness && w'.sink.anchorInterval == w.sink.anchorInterval
  {
    StepKeepsSettings(h, w, a);
    hide Inv, HoldsRecorded, Step;
    match a
    case StampEvent(e) =>
      StampKeepsInv(h, w, e);
      StampHoldsRecorded(h, w, recorded, e);
    case Forward(e) =>
      ForwardKeepsInv(h, w, e);
      ForwardHoldsRecorded(h, w, recorded, e);
  }

  lemma {:induction false} RunKeepsInv(h: Hashing, hasWitness: bool, interval: nat, actions: seq<Action>)
    ensures var w := Run(h, Start(h, hasWitness, interval), actions);
            && Inv(h, w) && w.sink.hasWitness == hasWitness && w.sink.anchorInterval == interval
            && HoldsRecorded(w, Recorded(actions))
  {
    StartHasInv(h, hasWitness, interval);
    hide Inv, HoldsRecorded, Start, Step, AfterAction;
    if actions != [] {
      var k := |actions| - 1;
      RunKeepsInv(h, hasWitness, interval, actions[..k]);
      StepKeepsInv(h, Run(h, Start(h, hasWitness, interval), actions[..k]), Recorded(actions[..k]), actions[k]);
    }
  }

  /** What `AnchorsOf` lists, position by position. */
  lemma {:induction false} AnchorsExactly(h: Hashing, chain: seq<AuditEvent>, s: Sink, a: Anchor)
    ensures a in AnchorsOf(h, chain, s)
       <==> && s.hasWitness && a.sequence < |chain| && IsAnchorPoint(a.sequence, s.anchorInterval)
            && a.hash == h.digest(chain[a.sequence])
  {
    if chain != [] && s.hasWitness {
      AnchorsExactly(h, chain[..|chain| - 1], s, a);
    }
  }

  /**
   The chain under every interleaving. However stamping and forwarding interleave, the forwarded and in-flight events
   together are exactly the stamped chain; the chain holds the recorded events in the order their calls took the lock,
   numbered 0..n-1 and unbroken from genesis; the sink holds its count and, unless poisoned, its head; and an anchor
   was published exactly for each positive multiple of the interval, with that event's own hash. With a positive
   interval every recorded event is stamped and nothing panics; with interval 0 exactly one is, and the second call
   poisons the sink.
   */
  lemma ChainUnderInterleavings(h: Hashing, hasWitness: bool, interval: nat, actions: seq<Action>)
    ensures var w := Run(h, Start(h, hasWitness, interval), actions);
            var recorded := Recorded(actions);
            && multiset(w.forwarded) + w.inFlight == multiset(w.chain)
            && |w.chain| == (if interval == 0 && |recorded| >= 1 then 1 else |recorded|)
            && (forall i | 0 <= i < |w.chain| :: w.chain[i].body == recorded[i].body)
            && Numbered(w.chain) && Links(h, w.chain)
            && w.sink.sequence == |w.chain| && (!w.sink.poisoned ==> w.sink.prevHash == Head(h, w.chain))
            && (w.sink.poisoned <==> interval == 0 && |recorded| >= 2)
            && (forall a :: a in w.anchors <==>
                  hasWitness && a.sequence < |w.chain| && IsAnchorPoint(a.sequence, interval)
                  && a.hash == h.digest(w.chain[a.sequence]))
  {
    RunKeepsInv(h, hasWitness, interval, actions);
    var w := Run(h, Start(h, hasWitness, interval), actions);
    forall a ensures a in w.anchors <==>
      && hasWitness && a.sequence < |w.chain| && IsAnchorPoint(a.sequence, interval)
      && a.hash == h.digest(w.chain[a.sequence])
    {
      AnchorsExactly(h, w.chain, w.sink, a);
    }
  }

  /**
   Two events at interval 0: the first is stamped, the second panics under the lock and is lost with all later ones.
   */
  lemma IntervalZeroPanics(h: Hashing, hasWitness: bool, first: AuditEvent, second: AuditEvent, later: AuditEvent)
    ensures var w := Run(h, Start(h, hasWitness, 0), [StampEvent(first), StampEvent(second)]);
            && w.sink.poisoned && w.chain == [first.(sequence := Some(0), prevHash := Some(h.genesis))]
            && Step(h, w, StampEvent(later)) == w
  {
    var actions := [StampEvent(first), StampEvent(second)];
    assert actions[..1] == [StampEvent(first)] && actions[..1][..0] == [];
    assert Run(h, Start(h, hasWitness, 0), []) == Start(h, hasWitness, 0);
    assert Run(h, Start(h, hasWitness, 0), actions[..1]) == Step(h, Start(h, hasWitness, 0), StampEvent(first));
  }

  // ----- reading the log -----

  predicate SortedBySequence(log: seq<AuditEvent>) {
    && (forall i | 0 <= i < |log| :: log[i].sequence.Some?)
    && (forall i, j | 0 <= i < j < |log| :: log[i].sequence.value <= log[j].sequence.value)
  }

  lemma {:induction false} MultisetPosition(log: seq<AuditEvent>, i: nat, j: nat)
    requires i < j < |log| && log[i] == log[j]
    ensures multiset(log)[log[i]] >= 2
  {
    assert log == log[..j] + [log[j]] + log[j + 1..];
    assert log[i] in log[..j];
    assert multiset(log) == multiset(log[..j]) + multiset{log[j]} + multiset(log[j + 1..]);
  }

  lemma {:induction false} NumberedOnce(chain: seq<AuditEvent>, e: AuditEvent)
    requires Numbered(chain)
    ensures multiset(chain)[e] <= 1
  {
    if chain != [] {
      var k := |chain| - 1;
      NumberedOnce(chain[..k], e);
      assert chain == chain[..k] + [chain[k]];
      assert multiset(chain) == multiset(chain[..k]) + multiset{chain[k]};
      assert chain[k] !in chain[..k];
    }
  }

  lemma {:induction false} AtLeast(log: seq<AuditEvent>, i: nat)
    requires forall k | 0 <= k < |log| :: log[k].sequence.Some?
    requires forall j, k | 0 <= j < k < |log| :: log[j].sequence.value < log[k].sequence.value
    requires i < |log|
    ensures log[i].sequence.value >= i
  {
    if i > 0 {
      AtLeast(log, i - 1);
    }
  }

  lemma {:induction false} AtMost(log: seq<AuditEvent>, i: nat)
    requires forall k | 0 <= k < |log| :: log[k].sequence.Some? && log[k].sequence.value < |log|
    requires forall j, k | 0 <= j < k < |log| :: log[j].sequence.value < log[k].sequence.value
    requires i < |log|
    ensures log[i].sequence.value <= i
    decreases |log| - i
  {
    if i < |log| - 1 {
      AtMost(log, i + 1);
    }
  }

  /** Strictly increasing numbers below their count are 0, 1, 2, ... */
  lemma {:induction false} IncreasingIsIdentity(log: seq<AuditEvent>, i: nat)
    requires forall k | 0 <= k < |log| :: log[k].sequence.Some? && log[k].sequence.value < |log|
    requires forall j, k | 0 <= j < k < |log| :: log[j].sequence.value < log[k].sequence.value
    requires i < |log|
    ensures log[i].sequence.value >= i
    ensures log[i].sequence.value <= i
  {
    AtLeast(log, i);
    AtMost(log, i);
  }

  lemma SortedIsChain(h: Hashing, w: World, log: seq<AuditEvent>)
    requires Inv(h, w) && w.inFlight == multiset{}
    requires multiset(log) == multiset(w.forwarded) && SortedBySequence(log)
    ensures log == w.chain && Links(h, log)
  {
    assert multiset(log) == multiset(w.chain);
    assert |log| == |multiset(log)| == |multiset(w.chain)| == |w.chain|;
    forall k | 0 <= k < |log| ensures log[k].sequence.value < |log| && w.chain[log[k].sequence.value] == log[k] {
      assert log[k] in multiset(log);
    }
    forall j, k | 0 <= j < k < |log| ensures log[j].sequence.value < log[k].sequence.value {
      if log[j] == log[k] {
        MultisetPosition(log, j, k);
        NumberedOnce(w.chain, log[j]);
      }
    }
    forall k | 0 <= k < |log| ensures log[k] == w.chain[k] {
      IncreasingIsIdentity(log, k);
    }
  }

  /**
   After any run with nothing left in flight, sorting the log by sequence number recovers the chain itself, so it
   verifies, whatever the arrival order.
   */
  lemma SortedLogIsChain(h: Hashing, hasWitness: bool, interval: nat, actions: seq<Action>, log: seq<AuditEvent>)
    requires Run(h, Start(h, hasWitness, interval), actions).inFlight == multiset{}
    requires multiset(log) == multiset(Run(h, Start(h, hasWitness, interval), actions).forwarded)
             && SortedBySequence(log)
    ensures log == Run(h, Start(h, hasWitness, interval), actions).chain && Links(h, log)
  {
    RunKeepsInv(h, hasWitness, interval, actions);
    SortedIsChain(h, Run(h, Start(h, hasWitness, interval), actions), log);
  }

  lemma LinkAt(h: Hashing, log: seq<AuditEvent>, k: nat)
    requires Links(h, log) && k < |log|
    ensures log[k].prevHash == Some(Head(h, log[..k]))
  {
  }

  lemma OneLonger(log: seq<AuditEvent>, k: nat)
    requires k < |log|
    ensures log[..k + 1] == log[..k] + [log[k]]
  {
  }

  /** In a verifying chain the link of an event determines its position. */
  lemma LinkGivesPosition(h: Hashing, pool: set<AuditEvent>, chain: seq<AuditEvent>, k: nat, e: AuditEvent)
    requires CollisionFree(h, pool) && Among(chain, pool) && Links(h, chain)
    requires k <= |chain| && e in chain && e.prevHash == Some(Head(h, chain[..k]))
    ensures k < |chain| && chain[k] == e
  {
    var j :| 0 <= j < |chain| && chain[j] == e;
    assert e.prevHash == Some(Head(h, chain[..j]));
    hide CollisionFree, Links, Head;
    LinksPrefix(h, chain, j);
    LinksPrefix(h, chain, k);
    HeadPinsLog(h, pool, chain[..j], chain[..k]);
    assert |chain[..j]| == |chain[..k]|;
  }

  lemma NextInOrder(h: Hashing, pool: set<AuditEvent>, log: seq<AuditEvent>, chain: seq<AuditEvent>, k: nat)
    requires CollisionFree(h, pool) && Among(chain, pool) && Links(h, log) && Links(h, chain)
    requires k < |log| && log[k] in chain
    requires k <= |chain| && log[..k] == chain[..k]
    ensures k < |chain| && log[..k + 1] == chain[..k + 1]
  {
    LinkAt(h, log, k);
    hide CollisionFree, Links, Head, Among;
    LinkGivesPosition(h, pool, chain, k, log[k]);
    OneLonger(log, k);
    OneLonger(chain, k);
  }

  lemma {:induction false} InOrder(h: Hashing, pool: set<AuditEvent>, log: seq<AuditEvent>, chain: seq<AuditEvent>,
                                   k: nat)
    requires CollisionFree(h, pool) && Among(chain, pool) && Links(h, log) && Links(h, chain)
    requires forall i | 0 <= i < |log| :: log[i] in chain
    requires k <= |log|
    ensures k <= |chain| && log[..k] == chain[..k]
  {
    hide CollisionFree, Links;
    if k > 0 {
      InOrder(h, pool, log, chain, k - 1);
      NextInOrder(h, pool, log, chain, k - 1);
    }
  }

  lemma ForwardedInOrder(h: Hashing, pool: set<AuditEvent>, w: World)
    requires CollisionFree(h, pool) && Among(w.chain, pool) && Inv(h, w)
    ensures Links(h, w.forwarded) <==> w.forwarded <= w.chain
  {
    if w.forwarded <= w.chain {
      LinksPrefix(h, w.chain, |w.forwarded|);
      assert w.chain[..|w.forwarded|] == w.forwarded;
    }
    if Links(h, w.forwarded) {
      forall i | 0 <= i < |w.forwarded| ensures w.forwarded[i] in w.chain {
        assert w.forwarded[i] in multiset(w.chain);
      }
      InOrder(h, pool, w.forwarded, w.chain, |w.forwarded|);
      assert w.forwarded[..|w.forwarded|] == w.forwarded;
    }
  }

  /** After any run, the log as it arrived verifies exactly when events arrived in the order they were stamped. */
  lemma ArrivalOrderMatters(h: Hashing, pool: set<AuditEvent>, hasWitness: bool, interval: nat, actions: seq<Action>)
    requires CollisionFree(h, pool) && Among(Run(h, Start(h, hasWitness, interval), actions).chain, pool)
    ensures var w := Run(h, Start(h, hasWitness, interval), actions);
            Links(h, w.forwarded) <==> w.forwarded <= w.chain
  {
    RunKeepsInv(h, hasWitness, interval, actions);
    ForwardedInOrder(h, pool, Run(h, Start(h, hasWitness, interval), actions));
  }

  /**
   Any verifying log whose head is a published anchor agrees with the stamped chain on everything up to the anchored
   event.
   */
  lemma AnchorPinsPrefix(h: Hashing, pool: set<AuditEvent>, hasWitness: bool, interval: nat, actions: seq<Action>,
                         a: Anchor, log: seq<AuditEvent>)
    requires CollisionFree(h, pool) && Among(log, pool)
             && Among(Run(h, Start(h, hasWitness, interval), actions).chain, pool)
    requires a in Run(h, Start(h, hasWitness, interval), actions).anchors && Links(h, log) && Head(h, log) == a.hash
    ensures var chain := Run(h, Start(h, hasWitness, interval), actions).chain;
            a.sequence < |chain| && log == chain[..a.sequence + 1]
  {
    RunKeepsInv(h, hasWitness, interval, actions);
    var w := Run(h, Start(h, hasWitness, interval), actions);
    hide CollisionFree, Links;
    AnchorsExactly(h, w.chain, w.sink, a);
    LinksPrefix(h, w.chain, a.sequence + 1);
    HeadPinsLog(h, pool, log, w.chain[..a.sequence + 1]);
  }
}
