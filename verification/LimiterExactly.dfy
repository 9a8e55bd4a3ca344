/** Exact conditions for the limiter of citadel-api/src/main.rs, and the runs that break its promises otherwise. */
module LimiterExactly {
  import opened Wrappers
  import opened TokenBucket
  import opened RateLimiter

  // ----- runs in parts -----

  lemma {:induction false} RunInParts(ls: Limits, evicting: bool, w: World, xs: seq<Event>, ys: seq<Event>, slack: real)
    ensures Run(ls, evicting, w, xs + ys) == Run(ls, evicting, Run(ls, evicting, w, xs), ys)
    ensures TimelyRun(ls, evicting, w, xs + ys, slack)
       <==> TimelyRun(ls, evicting, w, xs, slack) && TimelyRun(ls, evicting, Run(ls, evicting, w, xs), ys, slack)
  {
    hide Step, Timely;
    if ys == [] {
      assert xs + ys == xs;
    } else {
      var k := |ys| - 1;
      assert (xs + ys)[..|xs + ys| - 1] == xs + ys[..k];
      RunInParts(ls, evicting, w, xs, ys[..k], slack);
    }
  }

  lemma OneStep(ls: Limits, evicting: bool, w: World, e: Event, slack: real)
    ensures Run(ls, evicting, w, [e]) == Step(ls, evicting, w, e)
    ensures TimelyRun(ls, evicting, w, [e], slack) <==> Timely(w, e, slack)
  {
    assert [e][..0] == [];
    assert Run(ls, evicting, w, []) == w;
  }

  lemma ThreeSteps(ls: Limits, evicting: bool, w: World, e0: Event, e1: Event, e2: Event, slack: real)
    ensures var w1 := Step(ls, evicting, w, e0);
            var w2 := Step(ls, evicting, w1, e1);
            && Run(ls, evicting, w, [e0, e1, e2]) == Step(ls, evicting, w2, e2)
            && (TimelyRun(ls, evicting, w, [e0, e1, e2], slack) <==>
                  Timely(w, e0, slack) && Timely(w1, e1, slack) && Timely(w2, e2, slack))
  {
    hide Step, Timely, Run, TimelyRun;
    OneStep(ls, evicting, w, e0, slack);
    OneStep(ls, evicting, Step(ls, evicting, w, e0), e1, slack);
    OneStep(ls, evicting, Step(ls, evicting, Step(ls, evicting, w, e0), e1), e2, slack);
    RunInParts(ls, evicting, w, [e0], [e1], slack);
    RunInParts(ls, evicting, w, [e0] + [e1], [e2], slack);
    assert [e0] + [e1] + [e2] == [e0, e1, e2];
  }

  // ----- one unauthenticated check -----

  function Id(r: nat): CheckId {
    CheckId(r, false)
  }

  /** Request `r` is checked without interruption; the second step does nothing when the first refused. */
  function OneCheck(r: nat, ip: string, now: real): seq<Event> {
    [Begin(Id(r), ip, None, now), Advance(Id(r)), Advance(Id(r))]
  }

  /** Nothing is under way and no request from `r` on was seen. */
  ghost predicate Quiet(ls: Limits, w: World, r: nat) {
    && w.pending == map[]
    && (forall r' | r' >= r :: Id(r') !in w.answers)
    && Consistent(ls.global, w.global)
  }

  /** A check that reads the clock at `now` is timely. */
  predicate Ready(w: World, now: real, slack: real) {
    slack >= 0.0 && w.ip.peak - slack <= now && w.global.peak - slack <= now
  }

  function GlobalTokens(ls: Limits, w: World, now: real): real {
    Available(ls.global, w.global.buckets, GLOBAL, now)
  }

  /** The address tier and the shared tier after one check, and its answer. */
  predicate Checked(ls: Limits, w: World, w': World, r: nat, ip: string, now: real) {
    && w'.ip == ChargeTier(ls.ip, w.ip, Id(r), ip, now).0
    && GlobalTokens(ls, w', now) >= GlobalTokens(ls, w, now) - 1.0
    && w'.global.peak <= Later(w.global.peak, now)
    && Id(r) in w'.answers && w'.answers == w.answers[Id(r) := w'.answers[Id(r)]]
    && (w'.answers[Id(r)] ==> Charge(ls.ip, w.ip.buckets, ip, now).1)
    && (Charge(ls.ip, w.ip.buckets, ip, now).1 && GlobalTokens(ls, w, now) >= 1.0 ==> w'.answers[Id(r)])
  }

  lemma AnswerWith(w: World, id: CheckId, ok: bool)
    requires w.pending.Keys == {id}
    ensures Answer(w, id, ok).pending == map[] && Answer(w, id, ok).answers == w.answers[id := ok]
  {
  }

  lemma GlobalCharge(ls: Limits, w: World, now: real)
    ensures Charge(ls.global, w.global.buckets, GLOBAL, now).1 <==> GlobalTokens(ls, w, now) >= 1.0
  {
  }

  lemma OneCheckRuns(ls: Limits, evicting: bool, w: World, r: nat, ip: string, now: real, slack: real)
    requires Quiet(ls, w, r)
    ensures var w' := Run(ls, evicting, w, OneCheck(r, ip, now));
            && Checked(ls, w, w', r, ip, now) && Quiet(ls, w', r + 1)
            && (Ready(w, now, slack) ==> TimelyRun(ls, evicting, w, OneCheck(r, ip, now), slack))
  {
    ThreeSteps(ls, evicting, w, Begin(Id(r), ip, None, now), Advance(Id(r)), Advance(Id(r)), slack);
    TierOfCharge(ls.ip, w.ip, Id(r), ip, now);
    TierOfCharge(ls.global, w.global, Id(r), GLOBAL, now);
    ChargeSpends(ls.global, w.global, Id(r), GLOBAL, now, GLOBAL);
    ChargeKeepsConsistent(ls.global, w.global, Id(r), GLOBAL, now);
    GlobalCharge(ls, w, now);
    var w1 := Step(ls, evicting, w, Begin(Id(r), ip, None, now));
    assert w1 == w.(pending := map[Id(r) := Pending(ip, None, now, AtIp)]);
    var w2 := Step(ls, evicting, w1, Advance(Id(r)));
    var (g, okGlobal) := ChargeTier(ls.global, w.global, Id(r), GLOBAL, now);
    assert g.peak == Later(w.global.peak, now);
    hide Run, TimelyRun, Charge, Available, Consistent;
    var (t, ok) := ChargeTier(ls.ip, w.ip, Id(r), ip, now);
    hide ChargeTier;
    if ok {
      assert w2.pending.Keys == {Id(r)};
      assert w2.pending == map[Id(r) := Pending(ip, None, now, AtGlobal)];
      AnswerWith(w2.(global := g), Id(r), okGlobal);
    } else {
      AnswerWith(w1.(ip := t), Id(r), false);
    }
  }

  // ----- a batch -----

  /** Requests `first`, `first` + 1, ... from one address at one instant. */
  function Batch(first: nat, n: nat, ip: string, now: real): seq<Event> {
    if n == 0 then [] else Batch(first, n - 1, ip, now) + OneCheck(first + n - 1, ip, now)
  }

  predicate AllPassed(w: World, first: nat, n: nat) {
    forall r | first <= r < first + n :: Id(r) in w.answers && w.answers[Id(r)]
  }

  /** The decisions of a batch in the address tier: one entry each, and if all passed, as many passes. */
  predicate BatchLogged(w: World, w': World, n: nat, ip: string, now: real, all: bool) {
    && w.ip.log <= w'.ip.log && |w'.ip.log| == |w.ip.log| + n
    && (all ==> Passes(w'.ip.log, ip) == Passes(w.ip.log, ip) + n)
    && (n > 0 ==> w'.ip.log[|w.ip.log|].at == now && w'.ip.log[|w'.ip.log| - 1].at == now)
    && w'.ip.clock == (if n > 0 then now else w.ip.clock)
    && w'.ip.back == (if n > 0 then BackAt(w.ip, now) else w.ip.back)
    && (n > 0 ==> w'.ip.log[|w.ip.log|].back == w'.ip.back && w'.ip.log[|w'.ip.log| - 1].back == w'.ip.back)
  }

  /** What a batch leaves behind, when the shared tier can afford it: its address's bucket alone decides. */
  predicate BatchDone(ls: Limits, w: World, w': World, first: nat, n: nat, ip: string, now: real) {
    var many := ChargeMany(ls.ip, w.ip.buckets, ip, now, n);
    && w'.ip.buckets == many.0 && (AllPassed(w', first, n) <==> many.1)
    && GlobalTokens(ls, w', now) >= GlobalTokens(ls, w, now) - n as real
    && w'.ip.peak <= Later(w.ip.peak, now) && w'.global.peak <= Later(w.global.peak, now)
    && BatchLogged(w, w', n, ip, now, many.1)
  }

  lemma LogGrows(l: Limit, w: World, w': World, w'': World, n: nat, ip: string, now: real, id: CheckId, all: bool)
    requires BatchLogged(w, w', n, ip, now, all) && w''.ip == ChargeTier(l, w'.ip, id, ip, now).0
    ensures BatchLogged(w, w'', n + 1, ip, now, all && ChargeTier(l, w'.ip, id, ip, now).1)
  {
    var ok := ChargeTier(l, w'.ip, id, ip, now).1;
    var e := Entry(id, ip, now, ok, BackAt(w'.ip, now));
    assert w''.ip.log == w'.ip.log + [e];
    PassesAppend(w'.ip.log, e, ip);
    assert Elapsed(now, now) == 0.0;
    if n > 0 {
      assert w''.ip.log[|w.ip.log|] == w'.ip.log[|w.ip.log|];
    }
  }

  lemma BatchGrows(ls: Limits, w: World, w': World, w'': World, first: nat, n: nat, ip: string, now: real)
    requires BatchDone(ls, w, w', first, n, ip, now) && GlobalTokens(ls, w, now) >= (n + 1) as real
    requires Checked(ls, w', w'', first + n, ip, now) && Id(first + n) !in w'.answers
    ensures BatchDone(ls, w, w'', first, n + 1, ip, now)
  {
    LogGrows(ls.ip, w, w', w'', n, ip, now, Id(first + n), ChargeMany(ls.ip, w.ip.buckets, ip, now, n).1);
    TierOfCharge(ls.ip, w'.ip, Id(first + n), ip, now);
    assert ChargeTier(ls.ip, w'.ip, Id(first + n), ip, now).0.peak == Later(w'.ip.peak, now);
    hide Charge, ChargeTier, GlobalTokens, BatchLogged;
    assert ChargeMany(ls.ip, w.ip.buckets, ip, now, n + 1).0 == Charge(ls.ip, w'.ip.buckets, ip, now).0;
    assert forall r | first <= r < first + n :: Id(r) in w''.answers <==> Id(r) in w'.answers;
    assert forall r | first <= r < first + n && Id(r) in w'.answers :: w''.answers[Id(r)] == w'.answers[Id(r)];
    assert AllPassed(w'', first, n + 1) <==> AllPassed(w', first, n) && w''.answers[Id(first + n)];
  }

  lemma NothingDone(ls: Limits, evicting: bool, w: World, first: nat, ip: string, now: real, slack: real)
    ensures Run(ls, evicting, w, []) == w && TimelyRun(ls, evicting, w, [], slack)
    ensures BatchDone(ls, w, w, first, 0, ip, now)
  {
    hide GlobalTokens;
  }

  lemma QuietIsUnseen(ls: Limits, w: World, r: nat)
    requires Quiet(ls, w, r)
    ensures Id(r) !in w.answers
  {
  }

  lemma StillReady(ls: Limits, w: World, w': World, first: nat, n: nat, ip: string, now: real, slack: real)
    requires Ready(w, now, slack) && BatchDone(ls, w, w', first, n, ip, now)
    ensures Ready(w', now, slack)
  {
    hide GlobalTokens, ChargeMany, AllPassed, BatchLogged;
  }

  lemma {:induction false} BatchRuns(ls: Limits, evicting: bool, w: World, first: nat, n: nat, ip: string, now: real,
                                     slack: real)
    requires Quiet(ls, w, first) && GlobalTokens(ls, w, now) >= n as real && Ready(w, now, slack)
    ensures var w' := Run(ls, evicting, w, Batch(first, n, ip, now));
            && TimelyRun(ls, evicting, w, Batch(first, n, ip, now), slack)
            && Quiet(ls, w', first + n) && Ready(w', now, slack) && BatchDone(ls, w, w', first, n, ip, now)
  {
    hide Run, TimelyRun, BatchDone, Checked, Quiet, Ready, GlobalTokens, OneCheck;
    if n == 0 {
      NothingDone(ls, evicting, w, first, ip, now, slack);
    } else {
      var r := first + n - 1;
      var front, last := Batch(first, n - 1, ip, now), OneCheck(r, ip, now);
      BatchRuns(ls, evicting, w, first, n - 1, ip, now, slack);
      var before := Run(ls, evicting, w, front);
      QuietIsUnseen(ls, before, r);
      OneCheckRuns(ls, evicting, before, r, ip, now, slack);
      RunInParts(ls, evicting, w, front, last, slack);
      BatchGrows(ls, w, before, Run(ls, evicting, before, last), first, n - 1, ip, now);
      StillReady(ls, w, Run(ls, evicting, before, last), first, n, ip, now, slack);
    }
  }

  // ----- the run that tells the difference -----

  /** An address drains its burst at 0, the cleanup runs at 300, and it asks for its burst again at 300 - `age`. */
  function Probe(burst: nat, ip: string, age: real): seq<Event> {
    Batch(0, burst, ip, 0.0) + ([EvictIps(300.0)] + Batch(burst, burst, ip, 300.0 - age))
  }

  lemma RefillsMore(l: Limit, b: Bucket, now: real, later: real)
    requires l.rate >= 0.0 && now <= later
    ensures Refilled(l, b, now) <= Refilled(l, b, later)
  {
    MulMonotone(l.rate, Elapsed(now, b.lastRefill), Elapsed(later, b.lastRefill));
  }

  lemma GlobalRefills(ls: Limits, w: World, now: real, later: real)
    requires Consistent(ls.global, w.global) && now <= later
    ensures GlobalTokens(ls, w, now) <= GlobalTokens(ls, w, later)
  {
    if GLOBAL in w.global.buckets {
      RefillsMore(ls.global, w.global.buckets[GLOBAL], now, later);
      hide Refilled;
    } else {
      assert Elapsed(now, now) == 0.0 && Elapsed(later, later) == 0.0;
    }
  }

  /** Time passed and nothing was decided. */
  predicate SameLog(t: Tier, t': Tier, now: real) {
    t'.log == t.log && t'.clock == Later(t.clock, now) && t'.back == t.back
  }

  /** The probe, step by step: after draining, after the cleanup, and at the end. */
  predicate Probed(rps: real, burst: nat, evicting: bool, ip: string, age: real, w1: World, w2: World, w3: World) {
    var ls := NewLimits(rps, burst);
    && w2.ip.buckets == (if evicting then Evict(w1.ip.buckets, 300.0) else w1.ip.buckets)
    && SameLog(w1.ip, w2.ip, 300.0)
    && BatchDone(ls, Start(ls, 0.0), w1, 0, burst, ip, 0.0)
    && BatchDone(ls, w2, w3, burst, burst, ip, 300.0 - age)
  }

  lemma InThreeParts(ls: Limits, evicting: bool, w: World, xs: seq<Event>, ys: seq<Event>, zs: seq<Event>, slack: real)
    ensures var w1 := Run(ls, evicting, w, xs);
            var w2 := Run(ls, evicting, w1, ys);
            && Run(ls, evicting, w, xs + (ys + zs)) == Run(ls, evicting, w2, zs)
            && (TimelyRun(ls, evicting, w, xs + (ys + zs), slack) <==>
                  && TimelyRun(ls, evicting, w, xs, slack) && TimelyRun(ls, evicting, w1, ys, slack)
                  && TimelyRun(ls, evicting, w2, zs, slack))
  {
    RunInParts(ls, evicting, Run(ls, evicting, w, xs), ys, zs, slack);
    RunInParts(ls, evicting, w, xs, ys + zs, slack);
    hide Run, TimelyRun;
  }

  lemma DrainedTokens(ls: Limits, w: World, w': World, burst: nat, ip: string)
    requires BatchDone(ls, w, w', 0, burst, ip, 0.0) && GlobalTokens(ls, w, 0.0) == (burst * 10) as real
    ensures GlobalTokens(ls, w', 0.0) >= burst as real
  {
    hide GlobalTokens, ChargeMany, BatchLogged;
  }

  lemma PeaksAfterDrain(ls: Limits, w: World, w': World, burst: nat, ip: string)
    requires BatchDone(ls, w, w', 0, burst, ip, 0.0) && w.ip.peak == 0.0 && w.global.peak == 0.0
    ensures w'.ip.peak <= 0.0 && w'.global.peak <= 0.0
  {
    hide GlobalTokens, ChargeMany, BatchLogged;
  }

  lemma WaitRuns(ls: Limits, evicting: bool, w: World, r: nat, age: real)
    requires Quiet(ls, w, r) && w.ip.peak <= 0.0 && w.global.peak <= 0.0 && 0.0 <= age <= 300.0
    ensures var w' := Run(ls, evicting, w, [EvictIps(300.0)]);
            && w'.ip.buckets == (if evicting then Evict(w.ip.buckets, 300.0) else w.ip.buckets)
            && SameLog(w.ip, w'.ip, 300.0)
            && Quiet(ls, w', r) && Ready(w', 300.0 - age, age)
            && GlobalTokens(ls, w', 300.0 - age) >= GlobalTokens(ls, w, 0.0)
            && TimelyRun(ls, evicting, w, [EvictIps(300.0)], age)
  {
    OneStep(ls, evicting, w, EvictIps(300.0), age);
    GlobalRefills(ls, w, 0.0, 300.0 - age);
  }

  lemma Drained(ls: Limits, evicting: bool, w0: World, burst: nat, ip: string, age: real)
    returns (w1: World, w2: World, w3: World)
    requires Quiet(ls, w0, 0) && Ready(w0, 0.0, age) && GlobalTokens(ls, w0, 0.0) == (burst * 10) as real
    requires w0.ip.peak == 0.0 && w0.global.peak == 0.0 && 0.0 <= age <= 300.0
    ensures w1 == Run(ls, evicting, w0, Batch(0, burst, ip, 0.0))
    ensures w2 == Run(ls, evicting, w1, [EvictIps(300.0)])
    ensures w3 == Run(ls, evicting, w2, Batch(burst, burst, ip, 300.0 - age))
    ensures TimelyRun(ls, evicting, w0, Batch(0, burst, ip, 0.0), age)
    ensures TimelyRun(ls, evicting, w1, [EvictIps(300.0)], age)
    ensures TimelyRun(ls, evicting, w2, Batch(burst, burst, ip, 300.0 - age), age)
    ensures w2.ip.buckets == if evicting then Evict(w1.ip.buckets, 300.0) else w1.ip.buckets
    ensures SameLog(w1.ip, w2.ip, 300.0)
    ensures BatchDone(ls, w0, w1, 0, burst, ip, 0.0) && BatchDone(ls, w2, w3, burst, burst, ip, 300.0 - age)
  {
    hide Run, TimelyRun, Quiet, Ready, GlobalTokens, Batch, Evict, BatchDone, SameLog;
    BatchRuns(ls, evicting, w0, 0, burst, ip, 0.0, age);
    w1 := Run(ls, evicting, w0, Batch(0, burst, ip, 0.0));
    DrainedTokens(ls, w0, w1, burst, ip);
    PeaksAfterDrain(ls, w0, w1, burst, ip);
    WaitRuns(ls, evicting, w1, burst, age);
    w2 := Run(ls, evicting, w1, [EvictIps(300.0)]);
    BatchRuns(ls, evicting, w2, burst, burst, ip, 300.0 - age, age);
    w3 := Run(ls, evicting, w2, Batch(burst, burst, ip, 300.0 - age));
  }

  lemma StartIsQuiet(rps: real, burst: nat, slack: real)
    requires rps >= 0.0 && slack >= 0.0
    ensures var ls := NewLimits(rps, burst);
            && Quiet(ls, Start(ls, 0.0), 0) && Ready(Start(ls, 0.0), 0.0, slack)
            && GlobalTokens(ls, Start(ls, 0.0), 0.0) == (burst * 10) as real
            && Start(ls, 0.0).ip == NewTier(map[], 0.0) && Start(ls, 0.0).ip.peak == Start(ls, 0.0).global.peak == 0.0
  {
    assert Elapsed(0.0, 0.0) == 0.0;
  }

  lemma ProbeRuns(rps: real, burst: nat, evicting: bool, ip: string, age: real)
    returns (w1: World, w2: World, w3: World)
    requires rps >= 0.0 && burst >= 1 && 0.0 <= age <= 300.0
    ensures TimelyRun(NewLimits(rps, burst), evicting, Start(NewLimits(rps, burst), 0.0), Probe(burst, ip, age), age)
    ensures Probed(rps, burst, evicting, ip, age, w1, w2, w3)
    ensures w3 == Run(NewLimits(rps, burst), evicting, Start(NewLimits(rps, burst), 0.0), Probe(burst, ip, age))
  {
    var ls := NewLimits(rps, burst);
    var w0 := Start(ls, 0.0);
    StartIsQuiet(rps, burst, age);
    var drain, wait, again := Batch(0, burst, ip, 0.0), [EvictIps(300.0)], Batch(burst, burst, ip, 300.0 - age);
    assert Probe(burst, ip, age) == drain + (wait + again);
    hide NewLimits, Start, Run, TimelyRun, Quiet, Ready, GlobalTokens, Batch, BatchDone, NewTier, Probe;
    w1, w2, w3 := Drained(ls, evicting, w0, burst, ip, age);
    hide Evict;
    InThreeParts(ls, evicting, w0, drain, wait, again, age);
  }

  // ----- eviction is invisible, exactly -----

  /** In this run, if it is timely, the cleanup changes no answer. */
  ghost predicate Unnoticed(rps: real, burst: nat, slack: real, now: real, es: seq<Event>) {
    var ls := NewLimits(rps, burst);
    TimelyRun(ls, true, Start(ls, now), es, slack) ==>
      Run(ls, true, Start(ls, now), es).answers == Run(ls, false, Start(ls, now), es).answers
  }

  /** Whether the second batch of the probe passes is decided by what the cleanup kept. */
  lemma ProbeAnswers(rps: real, burst: nat, evicting: bool, ip: string, age: real)
    requires rps >= 0.0 && burst >= 1 && 0.0 <= age <= 300.0
    ensures var ls := NewLimits(rps, burst);
            var drained := ChargeMany(ls.ip, map[], ip, 0.0, burst).0;
            var kept := if evicting then Evict(drained, 300.0) else drained;
            && TimelyRun(ls, evicting, Start(ls, 0.0), Probe(burst, ip, age), age)
            && (AllPassed(Run(ls, evicting, Start(ls, 0.0), Probe(burst, ip, age)), burst, burst)
                <==> ChargeMany(ls.ip, kept, ip, 300.0 - age, burst).1)
  {
    var w1, w2, w3 := ProbeRuns(rps, burst, evicting, ip, age);
    hide NewLimits, Run, TimelyRun, Probe, ChargeMany, GlobalTokens, AllPassed, BatchLogged;
  }

  lemma TimelyWithin(ls: Limits, evicting: bool, w: World, es: seq<Event>, slack: real, slack': real)
    requires slack <= slack' && TimelyRun(ls, evicting, w, es, slack)
    ensures TimelyRun(ls, evicting, w, es, slack')
  {
    if es != [] {
      TimelyWithin(ls, evicting, w, es[..|es| - 1], slack, slack');
      hide Run;
    }
  }

  /**
   The exact condition. The cleanup goes unnoticed in every run, under every interleaving in which no clock reading is
   used more than `slack` late, if and only if a drained address bucket is full again 300 - `slack` seconds later.
   */
  lemma EvictionInvisibleExactly(rps: real, burst: nat, slack: real)
    requires rps >= 0.0 && slack >= 0.0
    ensures BurstRefills(rps, burst, slack) <==> forall now, es :: Unnoticed(rps, burst, slack, now, es)
  {
    if BurstRefills(rps, burst, slack) {
      forall now, es ensures Unnoticed(rps, burst, slack, now, es) {
        if TimelyRun(NewLimits(rps, burst), true, Start(NewLimits(rps, burst), now), es, slack) {
          EvictionInvisible(rps, burst, slack, now, es);
        }
      }
    } else {
      var age := if slack <= 300.0 then slack else 300.0;
      var ls, ip, es := NewLimits(rps, burst), "", Probe(burst, "", age);
      EvictionVisible(rps, burst, ip, age);
      ProbeAnswers(rps, burst, true, ip, age);
      ProbeAnswers(rps, burst, false, ip, age);
      TimelyWithin(ls, true, Start(ls, 0.0), es, age, slack);
      assert ls.ip == Limit(rps, burst as real);
      hide Run, TimelyRun, Start, NewLimits, ChargeMany, Probe;
      assert !Unnoticed(rps, burst, slack, 0.0, es);
    }
  }

  // ----- the window bound with cleanup, exactly -----

  ghost predicate AddressBounded(rps: real, burst: nat, now: real, es: seq<Event>, i: nat, j: nat, ip: string) {
    var log := Run(NewLimits(rps, burst), true, Start(NewLimits(rps, burst), now), es).ip.log;
    WithinWindow(log, i, j, ip, burst as real, rps, WentBack(log, i, j))
  }

  /** Both batches of the probe pass whole: twice the burst in 300 s, without any time going back. */
  lemma TwoBursts(w0: World, w1: World, w2: World, w3: World, burst: nat, ip: string)
    requires burst >= 1 && w0.ip.log == [] && w0.ip.clock == 0.0 && w0.ip.back == 0.0
    requires SameLog(w1.ip, w2.ip, 300.0)
    requires BatchLogged(w0, w1, burst, ip, 0.0, true) && BatchLogged(w2, w3, burst, ip, 300.0, true)
    ensures var log := w3.ip.log;
            && |log| == 2 * burst && Passes(log, ip) == 2 * burst
            && log[0].at == 0.0 && log[|log| - 1].at == 300.0 && log[0].back == log[|log| - 1].back == 0.0
  {
    assert w3.ip.log[0] == w1.ip.log[0];
  }

  /** If the burst does not refill in 300 s, the probe passes both batches whole. */
  lemma BothPass(rps: real, burst: nat, ip: string, w1: World, w2: World, w3: World)
    requires rps >= 0.0 && burst >= 1 && 300.0 * rps < burst as real
    requires Probed(rps, burst, true, ip, 0.0, w1, w2, w3)
    ensures BatchLogged(Start(NewLimits(rps, burst), 0.0), w1, burst, ip, 0.0, true)
    ensures BatchLogged(w2, w3, burst, ip, 300.0, true)
  {
    EvictionVisible(rps, burst, ip, 0.0);
    hide BatchLogged, ChargeMany, GlobalTokens, AllPassed, Evict, Run;
  }

  lemma StartLog(ls: Limits)
    ensures var t := Start(ls, 0.0).ip; t.log == [] && t.clock == 0.0 && t.back == 0.0
  {
  }

  /** The address log at the end of the probe. */
  function ProbeLog(rps: real, burst: nat, ip: string): seq<Entry> {
    Run(NewLimits(rps, burst), true, Start(NewLimits(rps, burst), 0.0), Probe(burst, ip, 0.0)).ip.log
  }

  /** Twice the burst passed between times 0 and 300, without going back. */
  predicate TwiceTheBurst(log: seq<Entry>, burst: nat, ip: string) {
    && |log| == 2 * burst >= 1 && Passes(log, ip) == 2 * burst
    && log[0].at == 0.0 && log[|log| - 1].at == 300.0 && log[0].back == log[|log| - 1].back == 0.0
  }

  lemma ProbedLog(rps: real, burst: nat, ip: string, w1: World, w2: World, w3: World)
    requires rps >= 0.0 && burst >= 1 && 300.0 * rps < burst as real
    requires Probed(rps, burst, true, ip, 0.0, w1, w2, w3)
    ensures TwiceTheBurst(w3.ip.log, burst, ip)
  {
    BothPass(rps, burst, ip, w1, w2, w3);
    StartLog(NewLimits(rps, burst));
    assert SameLog(w1.ip, w2.ip, 300.0);
    hide NewLimits, Start, Run, TimelyRun, Probe, ProbeLog, Probed, BatchLogged, Passes, SameLog;
    TwoBursts(Start(NewLimits(rps, burst), 0.0), w1, w2, w3, burst, ip);
  }

  lemma ProbeLogFacts(rps: real, burst: nat, ip: string)
    requires rps >= 0.0 && burst >= 1 && 300.0 * rps < burst as real
    ensures TwiceTheBurst(ProbeLog(rps, burst, ip), burst, ip)
  {
    hide TwiceTheBurst, Probed;
    var w1, w2, w3 := ProbeRuns(rps, burst, true, ip, 0.0);
    assert ProbeLog(rps, burst, ip) == w3.ip.log;
    ProbedLog(rps, burst, ip, w1, w2, w3);
  }

  lemma ProbePassesTooMany(rps: real, burst: nat, ip: string)
    requires rps >= 0.0 && burst >= 1 && 300.0 * rps < burst as real
    ensures !AddressBounded(rps, burst, 0.0, Probe(burst, ip, 0.0), 0, 2 * burst, ip)
  {
    ProbeLogFacts(rps, burst, ip);
    hide Run, Start, NewLimits, Probe, Passes;
    var log := ProbeLog(rps, burst, ip);
    assert log[0..2 * burst] == log;
    assert WentBack(log, 0, 2 * burst) == 0.0;
    hide WentBack;
    assert rps * (300.0 - 0.0 + 0.0) == 300.0 * rps;
  }

  /**
   With cleanup running, the window bound of an address holds in every run if and only if its burst refills in 300 s.
   */
  lemma WindowBoundExactly(rps: real, burst: nat)
    requires rps >= 0.0
    ensures BurstRefills(rps, burst, 0.0) <==> forall now, es, i, j, ip :: AddressBounded(rps, burst, now, es, i, j, ip)
  {
    if BurstRefills(rps, burst, 0.0) {
      forall now, es, i, j, ip ensures AddressBounded(rps, burst, now, es, i, j, ip) {
        WindowBounds(rps, burst, true, now, es, i, j, ip);
      }
    } else {
      ProbePassesTooMany(rps, burst, "");
    }
  }

  // ----- clock readings that go back -----

  /** A check with a reading `s` old, then one with a current reading. */
  function Round(r: nat, ip: string, s: real): seq<Event> {
    OneCheck(r, ip, -s) + OneCheck(r + 1, ip, 0.0)
  }

  function Rounds(r: nat, m: nat, ip: string, s: real): seq<Event> {
    if m == 0 then [] else Rounds(r, m - 1, ip, s) + Round(r + 2 * (m - 1), ip, s)
  }

  /** An address drains its burst at 0 and then alternates old and current readings, `n` times. */
  function BackAndForth(burst: nat, n: nat, ip: string, s: real): seq<Event> {
    Batch(0, burst, ip, 0.0) + Rounds(burst, n, ip, s)
  }

  /** `m` times `x`. */
  function Times(m: nat, x: real): real {
    if m == 0 then 0.0 else Times(m - 1, x) + x
  }

  lemma {:induction false} TimesIsProduct(m: nat, x: real)
    ensures Times(m, x) == m as real * x
  {
    if m > 0 {
      TimesIsProduct(m - 1, x);
      assert m as real * x == (m - 1) as real * x + x;
    }
  }

  lemma {:induction false} TimesGrows(m: nat, n: nat, x: real)
    requires m < n && x > 0.0
    ensures Times(m, x) + x <= Times(n, x)
  {
    if m + 1 < n {
      TimesGrows(m, n - 1, x);
    }
  }

  /** The bucket of `ip` holds `tokens` since the last reading used. */
  predicate HasTokens(t: Tier, ip: string, tokens: real) {
    ip in t.buckets && t.buckets[ip].tokens == tokens && t.buckets[ip].lastRefill == t.clock
  }

  /** The tier moved on by one decision. */
  predicate Took(t: Tier, t': Tier, id: CheckId, ip: string, now: real, ok: bool) {
    && t'.clock == now && t'.back == BackAt(t, now)
    && t'.log == t.log + [Entry(id, ip, now, ok, BackAt(t, now))]
  }

  /** No reading later than 0 has been used. */
  predicate UpToZero(w: World) {
    w.ip.peak <= 0.0 && w.global.peak <= 0.0
  }

  lemma TakenCheck(ls: Limits, evicting: bool, w: World, r: nat, ip: string, now: real, tokens: real, x: real,
                   slack: real)
    returns (w': World)
    requires Quiet(ls, w, r) && UpToZero(w) && -slack <= now <= 0.0 <= slack
    requires HasTokens(w.ip, ip, tokens) && x == Refilled(ls.ip, Bucket(tokens, w.ip.clock), now)
    ensures w' == Run(ls, evicting, w, OneCheck(r, ip, now)) && Quiet(ls, w', r + 1) && UpToZero(w')
    ensures TimelyRun(ls, evicting, w, OneCheck(r, ip, now), slack)
    ensures HasTokens(w'.ip, ip, if x < 1.0 then x else x - 1.0) && Took(w.ip, w'.ip, Id(r), ip, now, x >= 1.0)
  {
    OneCheckRuns(ls, evicting, w, r, ip, now, slack);
    w' := Run(ls, evicting, w, OneCheck(r, ip, now));
    hide Run, OneCheck, Quiet, TimelyRun, GlobalTokens, Refilled;
  }

  /** What one round does to a bucket of `tokens` < 1: refused on the old reading, `delta` richer on the current one. */
  predicate RoundDone(w: World, w': World, ip: string, s: real, tokens: real) {
    && HasTokens(w'.ip, ip, if tokens < 1.0 then tokens else tokens - 1.0) && w'.ip.clock == 0.0
    && |w'.ip.log| == |w.ip.log| + 2 && w.ip.log <= w'.ip.log
    && Passes(w'.ip.log, ip) == Passes(w.ip.log, ip) + (if tokens >= 1.0 then 1 else 0)
    && w'.ip.back == w.ip.back + s
    && w'.ip.log[|w.ip.log| + 1].at == 0.0 && w'.ip.log[|w.ip.log| + 1].back == w'.ip.back
  }

  lemma RefillAfter(l: Limit, tokens: real, s: real, delta: real)
    requires l.cap >= 1.0 && 0.0 <= tokens < 1.0 && s > 0.0 && delta == s * l.rate && tokens + delta <= 1.0
    ensures Refilled(l, Bucket(tokens, 0.0), -s) == tokens
    ensures Refilled(l, Bucket(tokens, -s), 0.0) == tokens + delta
  {
    assert Elapsed(-s, 0.0) == 0.0 && Elapsed(0.0, -s) == s;
  }

  lemma TookClock(t: Tier, t': Tier, id: CheckId, ip: string, now: real, ok: bool)
    requires Took(t, t', id, ip, now, ok)
    ensures t'.clock == now
  {
  }

  lemma TookTwice(w: World, v: World, w': World, r: nat, ip: string, s: real, tokens: real)
    requires w.ip.clock == 0.0 && s > 0.0
    requires Took(w.ip, v.ip, Id(r), ip, -s, false) && Took(v.ip, w'.ip, Id(r + 1), ip, 0.0, tokens >= 1.0)
    requires HasTokens(w'.ip, ip, if tokens < 1.0 then tokens else tokens - 1.0)
    ensures RoundDone(w, w', ip, s, tokens)
  {
    var e, f := v.ip.log[|w.ip.log|], w'.ip.log[|w.ip.log| + 1];
    PassesAppend(w.ip.log, e, ip);
    PassesAppend(w.ip.log + [e], f, ip);
    hide HasTokens, Passes;
  }

  lemma NextRound(ls: Limits, evicting: bool, w: World, r: nat, ip: string, s: real, tokens: real, delta: real,
                  slack: real)
    returns (w': World)
    requires Quiet(ls, w, r) && UpToZero(w) && 0.0 < s <= slack && w.ip.clock == 0.0 && HasTokens(w.ip, ip, tokens)
    requires 0.0 <= tokens < 1.0 && Refilled(ls.ip, Bucket(tokens, 0.0), -s) == tokens
    requires Refilled(ls.ip, Bucket(tokens, -s), 0.0) == tokens + delta
    ensures w' == Run(ls, evicting, w, Round(r, ip, s)) && Quiet(ls, w', r + 2) && UpToZero(w')
    ensures TimelyRun(ls, evicting, w, Round(r, ip, s), slack)
    ensures RoundDone(w, w', ip, s, tokens + delta)
  {
    hide Run, TimelyRun, OneCheck, Quiet, Refilled, HasTokens, Took, RoundDone, UpToZero, BackAt, Passes;
    var v := TakenCheck(ls, evicting, w, r, ip, -s, tokens, tokens, slack);
    TookClock(w.ip, v.ip, Id(r), ip, -s, false);
    w' := TakenCheck(ls, evicting, v, r + 1, ip, 0.0, tokens, tokens + delta, slack);
    TookTwice(w, v, w', r, ip, s, tokens + delta);
    RunInParts(ls, evicting, w, OneCheck(r, ip, -s), OneCheck(r + 1, ip, 0.0), slack);
  }

  /** After `m` of `n` rounds from `w0`: `m` shares of a token gained, or at the end one check passed. */
  predicate RoundsDone(w0: World, w: World, ip: string, m: nat, n: nat, s: real, delta: real) {
    && w.ip.clock == 0.0 && (m < n ==> HasTokens(w.ip, ip, Times(m, delta)))
    && |w.ip.log| == |w0.ip.log| + 2 * m && w0.ip.log <= w.ip.log
    && Passes(w.ip.log, ip) == Passes(w0.ip.log, ip) + (if m < n then 0 else 1)
    && w.ip.back == w0.ip.back + Times(m, s)
    && (m > 0 ==> w.ip.log[|w.ip.log| - 1].at == 0.0 && w.ip.log[|w.ip.log| - 1].back == w.ip.back)
  }

  lemma OneMoreRound(w0: World, w: World, w': World, ip: string, m: nat, n: nat, s: real, delta: real)
    requires m < n && RoundsDone(w0, w, ip, m, n, s, delta) && RoundDone(w, w', ip, s, Times(m, delta) + delta)
    requires Times(m + 1, delta) < 1.0 <==> m + 1 < n
    ensures RoundsDone(w0, w', ip, m + 1, n, s, delta)
  {
    hide HasTokens, Passes;
    assert Times(m + 1, delta) == Times(m, delta) + delta && Times(m + 1, s) == Times(m, s) + s;
    hide Times;
  }

  lemma NoRounds(ls: Limits, evicting: bool, w: World, ip: string, n: nat, s: real, delta: real, slack: real)
    requires w.ip.clock == 0.0 && HasTokens(w.ip, ip, 0.0) && n >= 1
    ensures Run(ls, evicting, w, []) == w && TimelyRun(ls, evicting, w, [], slack)
    ensures RoundsDone(w, w, ip, 0, n, s, delta)
  {
    hide HasTokens, Passes;
  }

  lemma RoundsHold(w0: World, w: World, ip: string, m: nat, n: nat, s: real, delta: real)
    requires m < n && RoundsDone(w0, w, ip, m, n, s, delta)
    ensures w.ip.clock == 0.0 && HasTokens(w.ip, ip, Times(m, delta))
  {
  }

  lemma SharesBelowOne(m: nat, n: nat, delta: real)
    requires 0 < m <= n && delta > 0.0 && Times(n, delta) == 1.0
    ensures 0.0 <= Times(m - 1, delta) < 1.0 && Times(m - 1, delta) + delta <= 1.0
    ensures Times(m, delta) == Times(m - 1, delta) + delta
    ensures Times(m, delta) < 1.0 <==> m < n
  {
    TimesIsProduct(m - 1, delta);
    TimesGrows(m - 1, n, delta);
    if m < n {
      TimesGrows(m, n, delta);
    }
  }

  lemma {:induction false} RoundsRun(ls: Limits, evicting: bool, w0: World, r: nat, m: nat, n: nat, ip: string, s: real,
                                     delta: real, slack: real) returns (w: World)
    requires Quiet(ls, w0, r) && UpToZero(w0) && 0.0 < s <= slack && w0.ip.clock == 0.0 && HasTokens(w0.ip, ip, 0.0)
    requires m <= n && n >= 1 && ls.ip.cap >= 1.0 && delta == s * ls.ip.rate && delta > 0.0 && Times(n, delta) == 1.0
    ensures w == Run(ls, evicting, w0, Rounds(r, m, ip, s)) && Quiet(ls, w, r + 2 * m) && UpToZero(w)
    ensures TimelyRun(ls, evicting, w0, Rounds(r, m, ip, s), slack)
    ensures RoundsDone(w0, w, ip, m, n, s, delta)
  {
    hide Run, TimelyRun, Quiet, HasTokens, UpToZero, RoundsDone, RoundDone, Round, Times, Refilled;
    if m == 0 {
      w := w0;
      NoRounds(ls, evicting, w0, ip, n, s, delta, slack);
    } else {
      SharesBelowOne(m, n, delta);
      var k := m - 1;
      var v := RoundsRun(ls, evicting, w0, r, k, n, ip, s, delta, slack);
      RoundsHold(w0, v, ip, k, n, s, delta);
      RefillAfter(ls.ip, Times(k, delta), s, delta);
      w := NextRound(ls, evicting, v, r + 2 * k, ip, s, Times(k, delta), delta, slack);
      RunInParts(ls, evicting, w0, Rounds(r, k, ip, s), Round(r + 2 * k, ip, s), slack);
      OneMoreRound(w0, v, w, ip, k, n, s, delta);
    }
  }

  /** How many equal shares make a token, if each is what at most `slack` seconds refill; and the seconds they take. */
  function ShareCount(rps: real, slack: real): (n: nat)
    requires rps > 0.0 && slack > 0.0
    ensures n >= 1
  {
    (1.0 / (slack * rps)).Floor + 1
  }

  function ShareTime(rps: real, slack: real): real
    requires rps > 0.0 && slack > 0.0
  {
    1.0 / (ShareCount(rps, slack) as real * rps)
  }

  lemma Regroup(a: real, b: real, c: real)
    ensures a * (b * c) == b * (a * c) && c * (a * b) == b * (a * c)
  {
  }

  lemma Shares(rps: real, slack: real) returns (n: nat, s: real, delta: real)
    requires rps > 0.0 && slack > 0.0
    ensures n == ShareCount(rps, slack) && s == ShareTime(rps, slack) && delta == s * rps
    ensures 0.0 < s <= slack && delta > 0.0
    ensures Times(n, delta) == 1.0 && rps * Times(n, s) == 1.0 && Times(n, s) > 0.0
  {
    n, s := ShareCount(rps, slack), ShareTime(rps, slack);
    delta := s * rps;
    var q := 1.0 / (slack * rps);
    var d := n as real * rps;
    assert n as real >= q && q * (slack * rps) == 1.0;
    MulMonotone(slack * rps, q, n as real);
    assert d > 0.0 && s * d == 1.0 && s > 0.0;
    Regroup(n as real, slack, rps);
    assert slack * d >= 1.0;
    assert (slack - s) * d >= 0.0;
    TimesIsProduct(n, delta);
    TimesIsProduct(n, s);
    Regroup(n as real, s, rps);
  }

  /** The run that passes more than the plain bound, with readings at most `slack` old. */
  function BackwardRun(rps: real, burst: nat, ip: string, slack: real): seq<Event>
    requires rps > 0.0 && slack > 0.0
  {
    BackAndForth(burst, ShareCount(rps, slack), ip, ShareTime(rps, slack))
  }

  /** The burst has passed at time 0 and nothing went back. */
  predicate BurstPassed(w: World, burst: nat, ip: string) {
    && w.ip.back == 0.0 && |w.ip.log| == burst >= 1 && Passes(w.ip.log, ip) == burst
    && w.ip.log[0].at == 0.0 && w.ip.log[0].back == 0.0
  }

  lemma DrainRuns(rps: real, burst: nat, evicting: bool, ip: string, slack: real) returns (w: World)
    requires rps > 0.0 && burst >= 1 && slack > 0.0
    ensures var ls := NewLimits(rps, burst);
            var drain := Batch(0, burst, ip, 0.0);
            && w == Run(ls, evicting, Start(ls, 0.0), drain) && TimelyRun(ls, evicting, Start(ls, 0.0), drain, slack)
            && Quiet(ls, w, burst) && UpToZero(w) && HasTokens(w.ip, ip, 0.0)
            && w.ip.clock == 0.0 && BurstPassed(w, burst, ip)
  {
    var ls := NewLimits(rps, burst);
    StartIsQuiet(rps, burst, slack);
    StartLog(ls);
    BatchPassesExactly(ls.ip, map[], ip, 0.0, burst);
    assert Refilled(ls.ip, Bucket(ls.ip.cap, 0.0), 0.0) == ls.ip.cap by { assert Elapsed(0.0, 0.0) == 0.0; }
    assert ls.ip.cap == burst as real;
    var w0 := Start(ls, 0.0);
    assert w0.ip.buckets == map[] && w0.ip.log == [];
    BatchRuns(ls, evicting, w0, 0, burst, ip, 0.0, slack);
    w := Run(ls, evicting, w0, Batch(0, burst, ip, 0.0));
    PeaksAfterDrain(ls, w0, w, burst, ip);
    hide NewLimits, Start, Run, TimelyRun, Batch, Quiet, Ready, ChargeMany, GlobalTokens, AllPassed, Refilled;
  }

  /** The address log at the end of that run. */
  function BackwardLog(rps: real, burst: nat, evicting: bool, ip: string, slack: real): seq<Entry>
    requires rps > 0.0 && slack > 0.0
  {
    Run(NewLimits(rps, burst), evicting, Start(NewLimits(rps, burst), 0.0), BackwardRun(rps, burst, ip, slack)).ip.log
  }

  /** Without any time between the first and the last decision, one more pass than the burst. */
  predicate OneMoreThanBurst(log: seq<Entry>, rps: real, burst: nat, n: nat, ip: string) {
    && |log| == burst + 2 * n >= 1 && log[0].at == log[|log| - 1].at
    && WentBack(log, 0, |log|) > 0.0 && rps * WentBack(log, 0, |log|) == 1.0
    && Passes(log, ip) == burst + 1
  }

  lemma DrainedThenRounds(w: World, w': World, ip: string, burst: nat, n: nat, s: real, delta: real)
    requires burst >= 1 && n >= 1 && RoundsDone(w, w', ip, n, n, s, delta)
    requires BurstPassed(w, burst, ip)
    ensures var log := w'.ip.log;
            && |log| == burst + 2 * n && log[0].at == log[|log| - 1].at == 0.0 && WentBack(log, 0, |log|) == Times(n, s)
            && Passes(log, ip) == burst + 1
  {
    hide Passes, HasTokens, Times;
    assert w'.ip.log[0] == w.ip.log[0];
  }

  lemma OneMoreAtEnd(w: World, w': World, rps: real, ip: string, burst: nat, n: nat, s: real, delta: real)
    requires burst >= 1 && n >= 1 && BurstPassed(w, burst, ip) && RoundsDone(w, w', ip, n, n, s, delta)
    requires rps * Times(n, s) == 1.0 && Times(n, s) > 0.0
    ensures OneMoreThanBurst(w'.ip.log, rps, burst, n, ip)
  {
    hide Times;
    DrainedThenRounds(w, w', ip, burst, n, s, delta);
    hide RoundsDone, BurstPassed, WentBack;
  }

  lemma RoundsAfter(ls: Limits, evicting: bool, w0: World, xs: seq<Event>, w: World, r: nat, n: nat, ip: string,
                    s: real,
                    delta: real, slack: real) returns (w': World)
    requires w == Run(ls, evicting, w0, xs) && TimelyRun(ls, evicting, w0, xs, slack)
    requires Quiet(ls, w, r) && UpToZero(w) && 0.0 < s <= slack && w.ip.clock == 0.0 && HasTokens(w.ip, ip, 0.0)
    requires n >= 1 && ls.ip.cap >= 1.0 && delta == s * ls.ip.rate && delta > 0.0 && Times(n, delta) == 1.0
    ensures w' == Run(ls, evicting, w0, xs + Rounds(r, n, ip, s)) && RoundsDone(w, w', ip, n, n, s, delta)
    ensures TimelyRun(ls, evicting, w0, xs + Rounds(r, n, ip, s), slack)
  {
    hide Run, TimelyRun, Quiet, UpToZero, HasTokens, Times, RoundsDone, Rounds;
    w' := RoundsRun(ls, evicting, w, r, n, n, ip, s, delta, slack);
    RunInParts(ls, evicting, w0, xs, Rounds(r, n, ip, s), slack);
  }

  lemma BackwardRuns(rps: real, burst: nat, evicting: bool, ip: string, slack: real, n: nat, s: real, delta: real)
    returns (w: World, w': World)
    requires rps > 0.0 && burst >= 1 && slack > 0.0
    requires n == ShareCount(rps, slack) && s == ShareTime(rps, slack) && delta == s * rps
    requires 0.0 < s <= slack && delta > 0.0 && Times(n, delta) == 1.0
    ensures TimelyRun(NewLimits(rps, burst), evicting, Start(NewLimits(rps, burst), 0.0),
                      BackwardRun(rps, burst, ip, slack), slack)
    ensures BurstPassed(w, burst, ip) && RoundsDone(w, w', ip, n, n, s, delta)
    ensures w'.ip.log == BackwardLog(rps, burst, evicting, ip, slack)
  {
    assert NewLimits(rps, burst).ip == Limit(rps, burst as real);
    assert BackwardRun(rps, burst, ip, slack) == Batch(0, burst, ip, 0.0) + Rounds(burst, n, ip, s);
    hide NewLimits, Start, Run, TimelyRun, Quiet, UpToZero, HasTokens, ShareCount, ShareTime, Times, RoundsDone,
         Rounds, Batch, BackwardRun, BurstPassed;
    w := DrainRuns(rps, burst, evicting, ip, slack);
    w' := RoundsAfter(NewLimits(rps, burst), evicting, Start(NewLimits(rps, burst), 0.0), Batch(0, burst, ip, 0.0), w,
                      burst, n, ip, s, delta, slack);
  }

  /**
   Time used twice refills twice, and the window bound is reached: for every rate, burst and slack there is a run,
   without any time between its first and its last decision, that passes exactly burst + rps (T + B) times, one more
   than the burst.
   */
  lemma BackwardReadingsPassMore(rps: real, burst: nat, evicting: bool, ip: string, slack: real)
    requires rps > 0.0 && burst >= 1 && slack > 0.0
    ensures TimelyRun(NewLimits(rps, burst), evicting, Start(NewLimits(rps, burst), 0.0),
                      BackwardRun(rps, burst, ip, slack), slack)
    ensures OneMoreThanBurst(BackwardLog(rps, burst, evicting, ip, slack), rps, burst, ShareCount(rps, slack), ip)
  {
    hide OneMoreThanBurst, RoundsDone, BurstPassed, Times;
    var n, s, delta := Shares(rps, slack);
    var w, w' := BackwardRuns(rps, burst, evicting, ip, slack, n, s, delta);
    OneMoreAtEnd(w, w', rps, ip, burst, n, s, delta);
  }

  // ----- the plain bound, exactly -----

  lemma TimelyStepStays(ls: Limits, evicting: bool, w: World, e: Event)
    requires AllConsistent(ls, w) && Timely(w, e, 0.0)
    ensures Step(ls, evicting, w, e).ip.back == w.ip.back
  {
    hide Charge, Evict;
  }

  /** With no reading ever late, nothing goes back under the address lock. */
  lemma {:induction false} TimelyNeverGoesBack(rps: real, burst: nat, evicting: bool, now: real, es: seq<Event>)
    requires rps >= 0.0
    requires TimelyRun(NewLimits(rps, burst), evicting, Start(NewLimits(rps, burst), now), es, 0.0)
    ensures var w := Run(NewLimits(rps, burst), evicting, Start(NewLimits(rps, burst), now), es);
            w.ip.back == 0.0 && AllConsistent(NewLimits(rps, burst), w)
  {
    var ls := NewLimits(rps, burst);
    if es != [] {
      var k := |es| - 1;
      TimelyNeverGoesBack(rps, burst, evicting, now, es[..k]);
      var w := Run(ls, evicting, Start(ls, now), es[..k]);
      StepKeepsConsistent(ls, evicting, w, es[k]);
      TimelyStepStays(ls, evicting, w, es[k]);
      hide NewLimits, Start, Step, AllConsistent;
    }
  }

  /** In this run, if its readings are at most `slack` late, this stretch obeys burst + rps T. */
  ghost predicate PlainlyBounded(rps: real, burst: nat, evicting: bool, slack: real, now: real, es: seq<Event>, i: nat,
                                 j: nat, ip: string) {
    var ls := NewLimits(rps, burst);
    var log := Run(ls, evicting, Start(ls, now), es).ip.log;
    TimelyRun(ls, evicting, Start(ls, now), es, slack) && i < j <= |log| && log[i].at <= log[j - 1].at ==>
      WithinWindow(log, i, j, ip, burst as real, rps, 0.0)
  }

  lemma Exceeds(rps: real, burst: nat, evicting: bool, slack: real, es: seq<Event>, log: seq<Entry>, ip: string)
    requires log == Run(NewLimits(rps, burst), evicting, Start(NewLimits(rps, burst), 0.0), es).ip.log && log != []
    requires TimelyRun(NewLimits(rps, burst), evicting, Start(NewLimits(rps, burst), 0.0), es, slack)
    requires log[0].at == log[|log| - 1].at && Passes(log, ip) == burst + 1
    ensures !PlainlyBounded(rps, burst, evicting, slack, 0.0, es, 0, |log|, ip)
  {
    hide NewLimits, Start, Run, TimelyRun, Passes;
    assert log[0..|log|] == log;
    assert rps * (log[|log| - 1].at - log[0].at + 0.0) == 0.0;
  }

  lemma OneMoreMeans(log: seq<Entry>, rps: real, burst: nat, n: nat, ip: string)
    requires OneMoreThanBurst(log, rps, burst, n, ip)
    ensures log != [] && log[0].at == log[|log| - 1].at && Passes(log, ip) == burst + 1
  {
  }

  lemma OldReadingsExceed(rps: real, burst: nat, evicting: bool, slack: real)
    requires rps > 0.0 && burst >= 1 && slack > 0.0
    ensures !PlainlyBounded(rps, burst, evicting, slack, 0.0, BackwardRun(rps, burst, "", slack),
                            0, |BackwardLog(rps, burst, evicting, "", slack)|, "")
  {
    BackwardReadingsPassMore(rps, burst, evicting, "", slack);
    var log := BackwardLog(rps, burst, evicting, "", slack);
    OneMoreMeans(log, rps, burst, ShareCount(rps, slack), "");
    hide NewLimits, Start, Run, TimelyRun, BackwardRun, Passes, WentBack, ShareCount, ShareTime, OneMoreThanBurst,
         PlainlyBounded;
    Exceeds(rps, burst, evicting, slack, BackwardRun(rps, burst, "", slack), log, "");
  }

  lemma ProbeIsTimely(rps: real, burst: nat)
    requires rps > 0.0 && burst >= 1
    ensures TimelyRun(NewLimits(rps, burst), true, Start(NewLimits(rps, burst), 0.0), Probe(burst, "", 0.0), 0.0)
  {
    var w1, w2, w3 := ProbeRuns(rps, burst, true, "", 0.0);
    hide NewLimits, Start, Run, TimelyRun, Probe;
  }

  lemma CleanupExceeds(rps: real, burst: nat)
    requires rps > 0.0 && !BurstRefills(rps, burst, 0.0)
    ensures !PlainlyBounded(rps, burst, true, 0.0, 0.0, Probe(burst, "", 0.0), 0, 2 * burst, "")
  {
    ProbeIsTimely(rps, burst);
    ProbeLogFacts(rps, burst, "");
    hide NewLimits, Start, Run, TimelyRun, Probe, Passes;
    var log := ProbeLog(rps, burst, "");
    assert log[0..2 * burst] == log;
    assert rps * (300.0 - 0.0 + 0.0) == 300.0 * rps;
  }

  /**
   The exact condition for the advertised rate. In every run whose readings are at most `slack` late, an address
   passes at most burst + rps T times in any stretch of T >= 0 seconds, if and only if `slack` is 0 and, with cleanup
   running, a drained bucket refills within 300 s.
   */
  lemma PlainBoundExactly(rps: real, burst: nat, evicting: bool, slack: real)
    requires rps > 0.0 && burst >= 1 && slack >= 0.0
    ensures slack == 0.0 && (evicting ==> BurstRefills(rps, burst, 0.0)) <==>
              forall now, es, i, j, ip :: PlainlyBounded(rps, burst, evicting, slack, now, es, i, j, ip)
  {
    if slack > 0.0 {
      OldReadingsExceed(rps, burst, evicting, slack);
    } else if evicting && !BurstRefills(rps, burst, 0.0) {
      CleanupExceeds(rps, burst);
    } else {
      forall now, es, i, j, ip ensures PlainlyBounded(rps, burst, evicting, slack, now, es, i, j, ip) {
        if TimelyRun(NewLimits(rps, burst), evicting, Start(NewLimits(rps, burst), now), es, slack) {
          TimelyNeverGoesBack(rps, burst, evicting, now, es);
          OrderedWindowBound(rps, burst, evicting, now, es, i, j, ip);
        }
      }
    }
  }
}
