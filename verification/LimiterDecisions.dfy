/** Which checks of the limiter of citadel-api/src/main.rs pass: the exact criterion, without mention of buckets. */
module LimiterDecisions {
  import opened Wrappers
  import opened TokenBucket
  import opened RateLimiter

  // ----- the criterion -----

  /** One more pass at entry `m` stays within burst + rate * duration from every earlier entry on. */
  predicate Affordable(log: seq<Entry>, m: nat, cap: real, rate: real)
    requires m < |log|
  {
    && 1.0 <= cap
    && forall j | 0 <= j < m ::
         Passes(log[j..m], log[m].key) as real + 1.0 <= cap + rate * (log[m].at - log[j].at)
  }

  /**
   Every entry passed exactly if it could be afforded: nothing is admitted too much, and nothing refused too early.
   */
  predicate Greedy(log: seq<Entry>, cap: real, rate: real) {
    forall m | 0 <= m < |log| :: log[m].ok <==> Affordable(log, m, cap, rate)
  }

  /** The same for a limit, in terms of what a bucket can gain. */
  predicate Fits(l: Limit, log: seq<Entry>, e: Entry) {
    && 1.0 <= l.cap
    && forall j | 0 <= j < |log| :: Passes(log[j..], e.key) as real + 1.0 <= l.cap + Gain(l, e.at - log[j].at)
  }

  predicate Decided(l: Limit, log: seq<Entry>) {
    forall m | 0 <= m < |log| :: log[m].ok <==> Fits(l, log[..m], log[m])
  }

  lemma FitsIsAffordable(l: Limit, log: seq<Entry>, m: nat)
    requires m < |log|
    ensures Fits(l, log[..m], log[m]) <==> Affordable(log, m, l.cap, l.rate)
  {
    var before := log[..m];
    forall j | 0 <= j < m ensures before[j..] == log[j..m] && before[j] == log[j] {
    }
    hide Passes;
  }

  lemma DecidedIsGreedy(l: Limit, log: seq<Entry>)
    requires Decided(l, log)
    ensures Greedy(log, l.cap, l.rate)
  {
    forall m | 0 <= m < |log| ensures log[m].ok <==> Affordable(log, m, l.cap, l.rate) {
      FitsIsAffordable(l, log, m);
    }
    hide Fits, Affordable;
  }

  // ----- one tier whose readings do not go back -----

  /** No reading went back, and no bucket is ahead of the clock. */
  predicate Settled(t: Tier) {
    t.back == 0.0 && forall k | k in t.buckets :: t.buckets[k].lastRefill <= t.clock
  }

  predicate UsedUp(l: Limit, t: Tier, key: string, j: nat, available: real)
    requires j < |t.log|
  {
    Passes(t.log[j..], key) as real + available == l.cap + Gain(l, t.clock - t.log[j].at)
  }

  /** The bucket is full, or some stretch up to now has used up all it was allowed but what the bucket still holds. */
  predicate Tight(l: Limit, t: Tier, key: string) {
    var a := Available(l, t.buckets, key, t.clock);
    a == l.cap || exists j | 0 <= j < |t.log| :: UsedUp(l, t, key, j, a)
  }

  ghost predicate TierInv(l: Limit, t: Tier) {
    Consistent(l, t) && Bounded(l, t) && Settled(t) && Decided(l, t.log) && forall k :: Tight(l, t, k)
  }

  /** What a key could spend grows with time up to the capacity. */
  lemma AvailableLater(l: Limit, t: Tier, key: string, now: real)
    requires Consistent(l, t) && Settled(t) && t.clock <= now
    ensures var a := Available(l, t.buckets, key, t.clock) + Gain(l, now - t.clock);
            Available(l, t.buckets, key, now) == if a <= l.cap then a else l.cap
  {
    GainGrows(l, 0.0, now - t.clock);
    GainAdds(l, 0.0, 0.0);
    if key in t.buckets {
      var last := t.buckets[key].lastRefill;
      GainAdds(l, t.clock - last, now - t.clock);
    } else {
      assert Elapsed(now, now) == 0.0 && Elapsed(t.clock, t.clock) == 0.0;
    }
  }

  /** At a later reading the bucket is still full, or the same stretch is used up. */
  lemma TightLater(l: Limit, t: Tier, key: string, now: real)
    requires Consistent(l, t) && Settled(t) && t.clock <= now && Tight(l, t, key)
    ensures var a := Available(l, t.buckets, key, now);
            a == l.cap || exists j | 0 <= j < |t.log| :: UsedUp(l, t.(clock := now), key, j, a)
  {
    AvailableLater(l, t, key, now);
    GainGrows(l, 0.0, now - t.clock);
    GainAdds(l, 0.0, 0.0);
    var a := Available(l, t.buckets, key, t.clock);
    if a != l.cap {
      var j :| 0 <= j < |t.log| && UsedUp(l, t, key, j, a);
      GainAdds(l, t.clock - t.log[j].at, now - t.clock);
      hide Available, Gain, Consistent, Settled;
      assert Available(l, t.buckets, key, now) != l.cap ==>
        UsedUp(l, t.(clock := now), key, j, Available(l, t.buckets, key, now));
    }
  }

  lemma SpentNow(l: Limit, t: Tier, key: string, now: real, j: nat)
    requires Consistent(l, t) && Bounded(l, t) && Settled(t) && t.clock <= now && j < |t.log|
    ensures Passes(t.log[j..], key) as real + Available(l, t.buckets, key, now) <= l.cap + Gain(l, now - t.log[j].at)
  {
    assert SpentAt(l, t, j, key, now);
    assert Lived(t, now) == now && LivedAt(t.log[j]) == t.log[j].at;
    hide Available, Gain, Passes;
  }

  /** There is a whole token exactly when every stretch leaves room for one more pass. */
  lemma TokenExactly(l: Limit, t: Tier, key: string, now: real)
    requires Consistent(l, t) && Bounded(l, t) && Settled(t) && t.clock <= now && Tight(l, t, key)
    ensures forall e: Entry | e.key == key && e.at == now ::
              Available(l, t.buckets, key, now) >= 1.0 <==> Fits(l, t.log, e)
  {
    TightLater(l, t, key, now);
    AvailableGrows(l, t, key, now, now);
    forall j | 0 <= j < |t.log|
      ensures Passes(t.log[j..], key) as real + Available(l, t.buckets, key, now) <= l.cap + Gain(l, now - t.log[j].at)
    {
      SpentNow(l, t, key, now, j);
    }
    hide Available, Gain, Passes, Consistent, Bounded, Settled, Tight;
  }

  lemma ChargeDecides(l: Limit, t: Tier, id: CheckId, key: string, now: real)
    ensures var (t', ok) := ChargeTier(l, t, id, key, now);
            && (ok <==> Available(l, t.buckets, key, now) >= 1.0)
            && t'.log == t.log + [Entry(id, key, now, ok, BackAt(t, now))] && t'.clock == now
               && t'.back == BackAt(t, now)
  {
  }

  lemma DecidedGrows(l: Limit, log: seq<Entry>, e: Entry)
    requires Decided(l, log) && (e.ok <==> Fits(l, log, e))
    ensures Decided(l, log + [e])
  {
    hide Fits;
    var longer := log + [e];
    forall m | 0 <= m < |longer| ensures longer[m].ok <==> Fits(l, longer[..m], longer[m]) {
      assert longer[..m] == log[..m];
      assert log[..|log|] == log;
    }
  }

  /** A full bucket that spends starts a stretch that is used up; an unspent one stays full. */
  lemma FullSpends(l: Limit, t: Tier, t': Tier, e: Entry, k: string, a': real)
    requires t'.log == t.log + [e] && t'.clock == e.at
    requires a' + (if e.ok && e.key == k then 1.0 else 0.0) == l.cap
    ensures UsedUp(l, t', k, |t.log|, a')
  {
    assert t'.log[|t.log|..] == [e] && [] + [e] == [e];
    PassesAppend([], e, k);
    assert Gain(l, t'.clock - t'.log[|t.log|].at) == 0.0;
  }

  /** A used-up stretch stays used up when it is extended by one decision. */
  lemma UsedUpSpends(l: Limit, t: Tier, t': Tier, e: Entry, k: string, j: nat, a: real, a': real)
    requires j < |t.log| && UsedUp(l, t.(clock := e.at), k, j, a)
    requires t'.log == t.log + [e] && t'.clock == e.at
    requires a' + (if e.ok && e.key == k then 1.0 else 0.0) == a
    ensures UsedUp(l, t', k, j, a')
  {
    assert t'.log[j..] == t.log[j..] + [e] && t'.log[j] == t.log[j];
    PassesAppend(t.log[j..], e, k);
    hide Passes, Gain;
  }

  lemma ChargeKeepsTight(l: Limit, t: Tier, id: CheckId, key: string, now: real, k: string)
    requires Consistent(l, t) && Settled(t) && t.clock <= now && Tight(l, t, k)
    ensures Tight(l, ChargeTier(l, t, id, key, now).0, k)
  {
    var (t', ok) := ChargeTier(l, t, id, key, now);
    TightLater(l, t, k, now);
    ChargeSpends(l, t, id, key, now, k);
    ChargeDecides(l, t, id, key, now);
    var a, a' := Available(l, t.buckets, k, now), Available(l, t'.buckets, k, now);
    hide Available, ChargeTier, Consistent, Settled, Gain, UsedUp;
    var e := Entry(id, key, now, ok, BackAt(t, now));
    if a == l.cap {
      FullSpends(l, t, t', e, k, a');
    } else {
      var j :| 0 <= j < |t.log| && UsedUp(l, t.(clock := now), k, j, a);
      UsedUpSpends(l, t, t', e, k, j, a, a');
    }
  }

  lemma ChargeKeepsTierInv(l: Limit, t: Tier, id: CheckId, key: string, now: real)
    requires TierInv(l, t) && t.clock <= now
    ensures TierInv(l, ChargeTier(l, t, id, key, now).0)
  {
    var (t', ok) := ChargeTier(l, t, id, key, now);
    ChargeKeepsConsistent(l, t, id, key, now);
    ChargeKeepsBounded(l, t, id, key, now);
    assert Settled(t');
    forall k ensures Tight(l, t', k) {
      ChargeKeepsTight(l, t, id, key, now, k);
    }
    assert Tight(l, t, key);
    TokenExactly(l, t, key, now);
    ChargeDecides(l, t, id, key, now);
    hide Consistent, Bounded, Settled, Tight, ChargeTier, Available, Decided, Fits;
    DecidedGrows(l, t.log, Entry(id, key, now, ok, BackAt(t, now)));
  }

  lemma EvictKeepsTight(l: Limit, t: Tier, now: real, evicting: bool, k: string)
    requires Consistent(l, t) && Settled(t) && Tight(l, t, k) && (evicting ==> Refills(l, 0.0))
    ensures Tight(l, EvictTier(t, now, evicting), k)
  {
    var t' := EvictTier(t, now, evicting);
    TightLater(l, t, k, t'.clock);
    if evicting && k in t.buckets && k !in t'.buckets {
      assert Elapsed(t'.clock, t'.clock) == 0.0;
    } else {
      var a := Available(l, t.buckets, k, t'.clock);
      assert Available(l, t'.buckets, k, t'.clock) == a;
      hide Available, Consistent, Settled, Evict, Gain, Passes;
      if a != l.cap {
        var j :| 0 <= j < |t.log| && UsedUp(l, t.(clock := t'.clock), k, j, a);
        assert UsedUp(l, t', k, j, a);
      }
    }
  }

  lemma EvictKeepsTierInv(l: Limit, t: Tier, now: real, evicting: bool)
    requires TierInv(l, t) && (evicting ==> Refills(l, 0.0))
    ensures TierInv(l, EvictTier(t, now, evicting))
  {
    EvictKeepsConsistent(l, t, now, evicting);
    EvictKeepsBounded(l, t, now, evicting);
    forall k ensures Tight(l, EvictTier(t, now, evicting), k) {
      EvictKeepsTight(l, t, now, evicting, k);
    }
    hide Consistent, Bounded, Tight, Decided;
  }

  // ----- whole runs -----

  ghost predicate AllInv(ls: Limits, w: World) {
    TierInv(ls.ip, w.ip) && TierInv(ls.key, w.keys) && TierInv(ls.global, w.global)
  }

  lemma ClockBelowPeak(l: Limit, t: Tier)
    requires TierInv(l, t)
    ensures t.clock <= t.peak
  {
  }

  lemma StepKeepsAllInv(ls: Limits, evicting: bool, w: World, e: Event)
    requires AllInv(ls, w) && Timely(w, e, 0.0) && (evicting ==> Refills(ls.ip, 0.0) && Refills(ls.key, 0.0))
    ensures AllInv(ls, Step(ls, evicting, w, e))
  {
    ClockBelowPeak(ls.ip, w.ip);
    ClockBelowPeak(ls.key, w.keys);
    ClockBelowPeak(ls.global, w.global);
    hide TierInv, Charge, ChargeTier, EvictTier;
    match e
    case Begin(_, _, _, _) =>
    case EvictIps(now) => EvictKeepsTierInv(ls.ip, w.ip, now, evicting);
    case EvictKeys(now) => EvictKeepsTierInv(ls.key, w.keys, now, evicting);
    case Advance(id) =>
      if id in w.pending {
        var p := w.pending[id];
        match p.stage {
          case AtIp => ChargeKeepsTierInv(ls.ip, w.ip, id, p.ip, p.now);
          case AtKey => ChargeKeepsTierInv(ls.key, w.keys, id, if p.key.Some? then p.key.value else "", p.now);
          case AtGlobal => ChargeKeepsTierInv(ls.global, w.global, id, GLOBAL, p.now);
        }
      }
  }

  lemma StartHasInv(rps: real, burst: nat, now: real)
    requires rps >= 0.0
    ensures AllInv(NewLimits(rps, burst), Start(NewLimits(rps, burst), now))
  {
    assert Elapsed(now, now) == 0.0;
  }

  lemma {:induction false} RunKeepsAllInv(rps: real, burst: nat, evicting: bool, now: real, es: seq<Event>)
    requires rps >= 0.0 && (evicting ==> BurstRefills(rps, burst, 0.0))
    requires TimelyRun(NewLimits(rps, burst), evicting, Start(NewLimits(rps, burst), now), es, 0.0)
    ensures var ls := NewLimits(rps, burst); AllInv(ls, Run(ls, evicting, Start(ls, now), es))
  {
    var ls := NewLimits(rps, burst);
    if evicting {
      NewLimitsRefill(rps, burst, 0.0);
    }
    StartHasInv(rps, burst, now);
    hide AllInv, Step, Start, NewLimits, BurstRefills;
    if es != [] {
      var k := |es| - 1;
      RunKeepsAllInv(rps, burst, evicting, now, es[..k]);
      StepKeepsAllInv(ls, evicting, Run(ls, evicting, Start(ls, now), es[..k]), es[k]);
    }
  }

  lemma AllGreedy(ls: Limits, w: World)
    requires AllInv(ls, w)
    ensures Greedy(w.ip.log, ls.ip.cap, ls.ip.rate) && Greedy(w.keys.log, ls.key.cap, ls.key.rate)
    ensures Greedy(w.global.log, ls.global.cap, ls.global.rate)
  {
    hide Decided, Greedy;
    DecidedIsGreedy(ls.ip, w.ip.log);
    DecidedIsGreedy(ls.key, w.keys.log);
    DecidedIsGreedy(ls.global, w.global.log);
  }

  /**
   The decisions of the limiter, exactly. In every run whose readings are not used late, under every interleaving,
   each tier lets a check through if and only if one more pass for its address (key, everybody) stays within burst +
   rps T from every earlier decision on: burst and rps for an address, five times both for a key, 10 burst and 50 rps
   for all callers.
   */
  lemma DecisionsExactly(rps: real, burst: nat, evicting: bool, now: real, es: seq<Event>)
    requires rps >= 0.0 && (evicting ==> BurstRefills(rps, burst, 0.0))
    requires TimelyRun(NewLimits(rps, burst), evicting, Start(NewLimits(rps, burst), now), es, 0.0)
    ensures var ls := NewLimits(rps, burst);
            var w := Run(ls, evicting, Start(ls, now), es);
            && Greedy(w.ip.log, burst as real, rps)
            && Greedy(w.keys.log, (burst * 5) as real, rps * 5.0)
            && Greedy(w.global.log, (burst * 10) as real, rps * 50.0)
  {
    hide NewLimits, Start, Run, TimelyRun, Greedy, Consistent, Bounded, Settled, Tight, Decided, BurstRefills;
    RunKeepsAllInv(rps, burst, evicting, now, es);
    NewLimitsFacts(rps, burst);
    var ls := NewLimits(rps, burst);
    AllGreedy(ls, Run(ls, evicting, Start(ls, now), es));
  }

  // ----- answers -----

  predicate Entered(log: seq<Entry>, id: CheckId) {
    exists i | 0 <= i < |log| :: log[i].id == id
  }

  /** Every entry of the check is for this key, with the check's own reading. */
  predicate EnteredAs(log: seq<Entry>, id: CheckId, key: string, now: real) {
    forall i | 0 <= i < |log| && log[i].id == id :: log[i].key == key && log[i].at == now
  }

  predicate AtMostOnce(log: seq<Entry>, id: CheckId) {
    forall i, j | 0 <= i < j < |log| && log[i].id == id :: log[j].id != id
  }

  function AskedAfter(w: World, asked: map<CheckId, Pending>, e: Event): map<CheckId, Pending> {
    match e
    case Begin(id, ip, key, now) =>
      if id in w.pending || id in w.answers then asked else asked[id := Pending(ip, key, now, AtIp)]
    case _ => asked
  }

  /** The checks begun so far, as they were asked. */
  function Asked(ls: Limits, evicting: bool, w: World, es: seq<Event>): map<CheckId, Pending> {
    if es == [] then map[]
    else
      var k := |es| - 1;
      AskedAfter(Run(ls, evicting, w, es[..k]), Asked(ls, evicting, w, es[..k]), es[k])
  }

  predicate PassedIp(w: World, q: Pending, id: CheckId) {
    Passed(w.ip.log, q.ip, id)
  }

  predicate PassedKey(w: World, q: Pending, id: CheckId) {
    q.key.Some? ==> Passed(w.keys.log, q.key.value, id)
  }

  predicate PassedGlobal(w: World, id: CheckId) {
    Passed(w.global.log, GLOBAL, id)
  }

  /** Where a check stands: which tiers decided it, on what reading, and what is still to come. */
  predicate Stands(w: World, id: CheckId, q: Pending) {
    && EnteredAs(w.ip.log, id, q.ip, q.now) && EnteredAs(w.global.log, id, GLOBAL, q.now)
    && (if q.key.Some? then EnteredAs(w.keys.log, id, q.key.value, q.now) else !Entered(w.keys.log, id))
    && AtMostOnce(w.ip.log, id) && AtMostOnce(w.keys.log, id) && AtMostOnce(w.global.log, id)
    && (Entered(w.keys.log, id) ==> PassedIp(w, q, id))
    && (Entered(w.global.log, id) ==> PassedIp(w, q, id) && PassedKey(w, q, id))
    && (id in w.answers <==> id !in w.pending)
    && (id in w.answers ==> (w.answers[id] <==> PassedIp(w, q, id) && PassedKey(w, q, id) && PassedGlobal(w, id)))
    && (id in w.pending ==>
          var p := w.pending[id];
          && p.ip == q.ip && p.key == q.key && p.now == q.now
          && !Entered(w.global.log, id)
          && (p.stage == AtIp ==> !Entered(w.ip.log, id) && !Entered(w.keys.log, id))
          && (p.stage == AtKey ==> PassedIp(w, q, id) && q.key.Some? && !Entered(w.keys.log, id))
          && (p.stage == AtGlobal ==> PassedIp(w, q, id) && PassedKey(w, q, id)))
  }

  predicate Accounted(w: World, asked: map<CheckId, Pending>, id: CheckId) {
    if id in asked then Stands(w, id, asked[id])
    else
      && id !in w.pending && id !in w.answers
      && !Entered(w.ip.log, id) && !Entered(w.keys.log, id) && !Entered(w.global.log, id)
  }

  lemma OneMoreEntry(log: seq<Entry>, e: Entry, id: CheckId, key: string, now: real)
    ensures Entered(log + [e], id) <==> Entered(log, id) || e.id == id
    ensures EnteredAs(log + [e], id, key, now) <==>
              EnteredAs(log, id, key, now) && (e.id == id ==> e.key == key && e.at == now)
    ensures AtMostOnce(log + [e], id) <==> AtMostOnce(log, id) && (e.id == id ==> !Entered(log, id))
    ensures Passed(log + [e], key, id) <==> Passed(log, key, id) || (e.id == id && e.key == key && e.ok)
  {
    var longer := log + [e];
    assert longer[|log|] == e && forall i | 0 <= i < |log| :: longer[i] == log[i];
  }

  lemma NotEntered(log: seq<Entry>, id: CheckId, key: string)
    ensures Passed(log, key, id) ==> Entered(log, id)
    ensures !Entered(log, id) ==> AtMostOnce(log, id) && forall k, now :: EnteredAs(log, id, k, now)
  {
  }

  lemma AskedStart(ls: Limits, now: real, id: CheckId)
    ensures Accounted(Start(ls, now), map[], id)
  {
  }

  /** What one lock section of a check does to the logs. */
  lemma AdvanceLogs(ls: Limits, w: World, id: CheckId)
    requires id in w.pending
    ensures var p := w.pending[id];
            var w' := AdvanceStep(ls, w, id, p);
            match p.stage
            case AtIp =>
              var (t, ok) := ChargeTier(ls.ip, w.ip, id, p.ip, p.now);
              && w'.ip.log == w.ip.log + [Entry(id, p.ip, p.now, ok, t.back)]
              && w'.keys == w.keys && w'.global == w.global
              && (ok ==> w'.answers == w.answers
                         && w'.pending == w.pending[id := p.(stage := if p.key.Some? then AtKey else AtGlobal)])
              && (!ok ==> w'.answers == w.answers[id := false] && w'.pending == w.pending - {id})
            case AtKey =>
              var key := if p.key.Some? then p.key.value else "";
              var (t, ok) := ChargeTier(ls.key, w.keys, id, key, p.now);
              && w'.keys.log == w.keys.log + [Entry(id, key, p.now, ok, t.back)]
              && w'.ip == w.ip && w'.global == w.global
              && (ok ==> w'.answers == w.answers && w'.pending == w.pending[id := p.(stage := AtGlobal)])
              && (!ok ==> w'.answers == w.answers[id := false] && w'.pending == w.pending - {id})
            case AtGlobal =>
              var (t, ok) := ChargeTier(ls.global, w.global, id, GLOBAL, p.now);
              && w'.global.log == w.global.log + [Entry(id, GLOBAL, p.now, ok, t.back)]
              && w'.ip == w.ip && w'.keys == w.keys
              && w'.answers == w.answers[id := ok] && w'.pending == w.pending - {id}
  {
    hide Charge;
  }

  lemma IpAccounts(ls: Limits, w: World, asked: map<CheckId, Pending>, id: CheckId, other: CheckId)
    requires id in w.pending && w.pending[id].stage == AtIp && Accounted(w, asked, id) && Accounted(w, asked, other)
    ensures Accounted(AdvanceStep(ls, w, id, w.pending[id]), asked, other)
  {
    var w' := AdvanceStep(ls, w, id, w.pending[id]);
    AdvanceLogs(ls, w, id);
    var q := if other in asked then asked[other] else w.pending[id];
    var key := if q.key.Some? then q.key.value else "";
    hide AdvanceStep, ChargeTier, Charge;
    OneMoreEntry(w.ip.log, w'.ip.log[|w.ip.log|], other, q.ip, q.now);
    NotEntered(w.ip.log, other, q.ip);
    NotEntered(w.keys.log, other, key);
    NotEntered(w.global.log, other, GLOBAL);
    hide Entered, EnteredAs, AtMostOnce, Passed;
  }

  lemma KeyAccounts(ls: Limits, w: World, asked: map<CheckId, Pending>, id: CheckId, other: CheckId)
    requires id in w.pending && w.pending[id].stage == AtKey && Accounted(w, asked, id) && Accounted(w, asked, other)
    ensures Accounted(AdvanceStep(ls, w, id, w.pending[id]), asked, other)
  {
    var w' := AdvanceStep(ls, w, id, w.pending[id]);
    AdvanceLogs(ls, w, id);
    var q := if other in asked then asked[other] else w.pending[id];
    var key := if q.key.Some? then q.key.value else "";
    hide AdvanceStep, ChargeTier, Charge;
    OneMoreEntry(w.keys.log, w'.keys.log[|w.keys.log|], other, key, q.now);
    NotEntered(w.ip.log, other, q.ip);
    NotEntered(w.keys.log, other, key);
    NotEntered(w.global.log, other, GLOBAL);
    hide Entered, EnteredAs, AtMostOnce, Passed;
  }

  lemma GlobalAccounts(ls: Limits, w: World, asked: map<CheckId, Pending>, id: CheckId, other: CheckId)
    requires id in w.pending && w.pending[id].stage == AtGlobal && Accounted(w, asked, id) && Accounted(w, asked, other)
    ensures Accounted(AdvanceStep(ls, w, id, w.pending[id]), asked, other)
  {
    var w' := AdvanceStep(ls, w, id, w.pending[id]);
    AdvanceLogs(ls, w, id);
    var q := if other in asked then asked[other] else w.pending[id];
    var key := if q.key.Some? then q.key.value else "";
    hide AdvanceStep, ChargeTier, Charge;
    OneMoreEntry(w.global.log, w'.global.log[|w.global.log|], other, GLOBAL, q.now);
    NotEntered(w.ip.log, other, q.ip);
    NotEntered(w.keys.log, other, key);
    NotEntered(w.global.log, other, GLOBAL);
    hide Entered, EnteredAs, AtMostOnce, Passed;
  }

  lemma StepAccounts(ls: Limits, evicting: bool, w: World, asked: map<CheckId, Pending>, e: Event, other: CheckId)
    requires Accounted(w, asked, other) && (e.Advance? ==> Accounted(w, asked, e.id))
    ensures Accounted(Step(ls, evicting, w, e), AskedAfter(w, asked, e), other)
  {
    match e
    case Begin(_, _, _, _) =>
      hide Entered, EnteredAs, AtMostOnce, Passed;
    case Advance(id) =>
      if id in w.pending {
        match w.pending[id].stage {
          case AtIp => IpAccounts(ls, w, asked, id, other);
          case AtKey => KeyAccounts(ls, w, asked, id, other);
          case AtGlobal => GlobalAccounts(ls, w, asked, id, other);
        }
      }
      hide Accounted, AdvanceStep;
    case EvictIps(_) =>
      hide Entered, EnteredAs, AtMostOnce, Passed, Evict;
    case EvictKeys(_) =>
      hide Entered, EnteredAs, AtMostOnce, Passed, Evict;
  }

  lemma {:induction false} RunAccounts(ls: Limits, evicting: bool, now: real, es: seq<Event>, id: CheckId)
    ensures Accounted(Run(ls, evicting, Start(ls, now), es), Asked(ls, evicting, Start(ls, now), es), id)
  {
    AskedStart(ls, now, id);
    hide Accounted, Step, AskedAfter, Start;
    if es != [] {
      var k := |es| - 1;
      RunAccounts(ls, evicting, now, es[..k], id);
      if es[k].Advance? {
        RunAccounts(ls, evicting, now, es[..k], es[k].id);
      }
      StepAccounts(ls, evicting, Run(ls, evicting, Start(ls, now), es[..k]), Asked(ls, evicting, Start(ls, now),
          es[..k]),
                   es[k], id);
    }
  }

  /**
   The answers, exactly. Under every schedule a check that has been answered was let through if and only if its
   address tier, its key tier if it names a key, and the global tier each let it through, all on the one reading it
   took; a tier is charged only for checks that passed the tiers before it, once at most, and the key tier only for
   checks with a key.
   */
  lemma AnswersExactly(ls: Limits, evicting: bool, now: real, es: seq<Event>, id: CheckId)
    requires id in Run(ls, evicting, Start(ls, now), es).answers
    ensures var w := Run(ls, evicting, Start(ls, now), es);
            var asked := Asked(ls, evicting, Start(ls, now), es);
            && id in asked
            && var q := asked[id];
               && (w.answers[id] <==>
                     && Passed(w.ip.log, q.ip, id) && (q.key.Some? ==> Passed(w.keys.log, q.key.value, id))
                     && Passed(w.global.log, GLOBAL, id))
               && EnteredAs(w.ip.log, id, q.ip, q.now) && EnteredAs(w.global.log, id, GLOBAL, q.now)
               && (if q.key.Some? then EnteredAs(w.keys.log, id, q.key.value, q.now) else !Entered(w.keys.log, id))
               && AtMostOnce(w.ip.log, id) && AtMostOnce(w.keys.log, id) && AtMostOnce(w.global.log, id)
               && (Entered(w.keys.log, id) ==> Passed(w.ip.log, q.ip, id))
               && (Entered(w.global.log, id) ==>
                     Passed(w.ip.log, q.ip, id) && (q.key.Some? ==> Passed(w.keys.log, q.key.value, id)))
  {
    RunAccounts(ls, evicting, now, es, id);
    hide Run, Start, Asked, Entered, EnteredAs, AtMostOnce, Passed;
  }
}
