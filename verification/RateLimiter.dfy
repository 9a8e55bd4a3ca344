/**
 The three-tier limiter of citadel-api/src/main.rs, sequentially and under every interleaving of its lock sections.
 */
module RateLimiter {
  import opened Wrappers
  import opened TokenBucket

  datatype Limits = Limits(ip: Limit, key: Limit, global: Limit)

  /**
   An API key gets five times the per-address limits, the whole system fifty times the rate and ten times the burst.
   */
  function NewLimits(rpsPerIp: real, burst: nat): Limits {
    Limits(Limit(rpsPerIp, burst as real),
           Limit(rpsPerIp * 5.0, (burst * 5) as real),
           Limit(rpsPerIp * 50.0, (burst * 10) as real))
  }

  /** The single global bucket is filed under this key. */
  const GLOBAL: string := ""

  // ----- one caller at a time -----

  datatype Buckets = Buckets(ip: map<string, Bucket>, keys: map<string, Bucket>, global: map<string, Bucket>)

  /** A whole `check`: every tier passed so far stays charged when a later one refuses. */
  function CheckSpec(ls: Limits, b: Buckets, ip: string, key: Option<string>, now: real): (Buckets, bool) {
    var (ips, ok) := Charge(ls.ip, b.ip, ip, now);
    var b := b.(ip := ips);
    if !ok then (b, false)
    else
      var (keys, ok) := if key.Some? then Charge(ls.key, b.keys, key.value, now) else (b.keys, true);
      var b := b.(keys := keys);
      if !ok then (b, false)
      else
        var (global, ok) := Charge(ls.global, b.global, GLOBAL, now);
        (b.(global := global), ok)
  }

  class Limiter {
    const limits: Limits
    var ipBuckets: map<string, Bucket>
    var keyBuckets: map<string, Bucket>
    var globalBucket: Bucket

    function State(): Buckets
      reads this
    {
      Buckets(ipBuckets, keyBuckets, map[GLOBAL := globalBucket])
    }

    constructor (rpsPerIp: real, burst: nat, now: real)
      ensures limits == NewLimits(rpsPerIp, burst)
      ensures State() == Buckets(map[], map[], map[GLOBAL := Bucket(limits.global.cap, now)])
    {
      limits := NewLimits(rpsPerIp, burst);
      ipBuckets, keyBuckets := map[], map[];
      globalBucket := Bucket((burst * 10) as real, now);
    }

    method Check(ip: string, key: Option<string>, now: real) returns (ok: bool)
      modifies this
      ensures (State(), ok) == CheckSpec(limits, old(State()), ip, key, now)
    {
      var tokens := Refilled(limits.ip, BucketFor(limits.ip, ipBuckets, ip, now), now);
      if tokens < 1.0 {
        ipBuckets := ipBuckets[ip := Bucket(tokens, now)];
        return false;
      }
      ipBuckets := ipBuckets[ip := Bucket(tokens - 1.0, now)];

      if key.Some? {
        tokens := Refilled(limits.key, BucketFor(limits.key, keyBuckets, key.value, now), now);
        if tokens < 1.0 {
          keyBuckets := keyBuckets[key.value := Bucket(tokens, now)];
          return false;
        }
        keyBuckets := keyBuckets[key.value := Bucket(tokens - 1.0, now)];
      }

      tokens := Refilled(limits.global, globalBucket, now);
      if tokens < 1.0 {
        globalBucket := Bucket(tokens, now);
        assert map[GLOBAL := globalBucket] == old(State()).global[GLOBAL := globalBucket];
        return false;
      }
      globalBucket := Bucket(tokens - 1.0, now);
      assert map[GLOBAL := globalBucket] == old(State()).global[GLOBAL := globalBucket];
      return true;
    }

    method Cleanup(now: real)
      modifies this
      ensures State() == old(State()).(ip := Evict(old(ipBuckets), now), keys := Evict(old(keyBuckets), now))
    {
      ipBuckets := Evict(ipBuckets, now);
      keyBuckets := Evict(keyBuckets, now);
    }
  }

  // ----- concurrent callers -----

  datatype Stage = AtIp | AtKey | AtGlobal

  /** A check that has read the clock and waits for the lock of its next tier. */
  datatype Pending = Pending(ip: string, key: Option<string>, now: real, stage: Stage)

  datatype World = World(
    ip: Tier,
    keys: Tier,
    global: Tier,
    pending: map<CheckId, Pending>,
    answers: map<CheckId, bool>)

  /** Reading the clock, each lock section of a check, and each lock section of a cleanup are separate steps. */
  datatype Event =
    | Begin(id: CheckId, ip: string, key: Option<string>, now: real)
    | Advance(id: CheckId)
    | EvictIps(now: real)
    | EvictKeys(now: real)

  function NewTier(buckets: map<string, Bucket>, now: real): Tier {
    Tier(buckets, [], now, now, 0.0)
  }

  function Start(ls: Limits, now: real): World {
    World(NewTier(map[], now), NewTier(map[], now), NewTier(map[GLOBAL := Bucket(ls.global.cap, now)], now),
          map[], map[])
  }

  function Answer(w: World, id: CheckId, ok: bool): World {
    w.(pending := w.pending - {id}, answers := w.answers[id := ok])
  }

  function AdvanceStep(ls: Limits, w: World, id: CheckId, p: Pending): World {
    match p.stage
    case AtIp =>
      var (t, ok) := ChargeTier(ls.ip, w.ip, id, p.ip, p.now);
      var w := w.(ip := t);
      if !ok then Answer(w, id, false)
      else w.(pending := w.pending[id := p.(stage := if p.key.Some? then AtKey else AtGlobal)])
    case AtKey =>
      var (t, ok) := ChargeTier(ls.key, w.keys, id, if p.key.Some? then p.key.value else "", p.now);
      var w := w.(keys := t);
      if !ok then Answer(w, id, false)
      else w.(pending := w.pending[id := p.(stage := AtGlobal)])
    case AtGlobal =>
      var (t, ok) := ChargeTier(ls.global, w.global, id, GLOBAL, p.now);
      Answer(w.(global := t), id, ok)
  }

  /** `evicting` off turns every cleanup into the passing of time. */
  function Step(ls: Limits, evicting: bool, w: World, e: Event): World {
    match e
    case Begin(id, ip, key, now) =>
      if id in w.pending || id in w.answers then w else w.(pending := w.pending[id := Pending(ip, key, now, AtIp)])
    case Advance(id) => if id in w.pending then AdvanceStep(ls, w, id, w.pending[id]) else w
    case EvictIps(now) => w.(ip := EvictTier(w.ip, now, evicting))
    case EvictKeys(now) => w.(keys := EvictTier(w.keys, now, evicting))
  }

  function Run(ls: Limits, evicting: bool, w: World, es: seq<Event>): World {
    if es == [] then w else Step(ls, evicting, Run(ls, evicting, w, es[..|es| - 1]), es[|es| - 1])
  }

  /**
   No check charges a tier with a clock reading more than `slack` older than the latest time used under that tier's
   lock. That is so when no check waits longer than `slack` between reading the clock and taking a lock; 0 means times
   never go back.
   */
  predicate Timely(w: World, e: Event, slack: real) {
    match e
    case Advance(id) =>
      id in w.pending ==>
        var p := w.pending[id];
        p.now >= (match p.stage case AtIp => w.ip.peak case AtKey => w.keys.peak case AtGlobal => w.global.peak) - slack
    case _ => true
  }

  predicate TimelyRun(ls: Limits, evicting: bool, w: World, es: seq<Event>, slack: real) {
    es != [] ==>
      && TimelyRun(ls, evicting, w, es[..|es| - 1], slack)
      && Timely(Run(ls, evicting, w, es[..|es| - 1]), es[|es| - 1], slack)
  }

  // ----- the sequential check is one schedule of the steps -----

  function BucketsOf(w: World): Buckets {
    Buckets(w.ip.buckets, w.keys.buckets, w.global.buckets)
  }

  lemma OneMoreStep(ls: Limits, evicting: bool, w: World, es: seq<Event>, e: Event)
    ensures Run(ls, evicting, w, es + [e]) == Step(ls, evicting, Run(ls, evicting, w, es), e)
  {
    assert (es + [e])[..|es|] == es;
  }

  lemma FourSteps(ls: Limits, evicting: bool, w: World, e0: Event, e1: Event, e2: Event, e3: Event)
    ensures Run(ls, evicting, w, [e0, e1, e2, e3])
         == Step(ls, evicting, Step(ls, evicting, Step(ls, evicting, Step(ls, evicting, w, e0), e1), e2), e3)
  {
    assert Run(ls, evicting, w, []) == w;
    hide Run, Step;
    OneMoreStep(ls, evicting, w, [], e0);
    OneMoreStep(ls, evicting, w, [e0], e1);
    OneMoreStep(ls, evicting, w, [e0, e1], e2);
    OneMoreStep(ls, evicting, w, [e0, e1, e2], e3);
    assert [] + [e0] == [e0] && [e0] + [e1] == [e0, e1] && [e0, e1] + [e2] == [e0, e1, e2];
    assert [e0, e1, e2] + [e3] == [e0, e1, e2, e3];
  }

  lemma TierOfCharge(l: Limit, t: Tier, id: CheckId, key: string, now: real)
    ensures ChargeTier(l, t, id, key, now).0.buckets == Charge(l, t.buckets, key, now).0
    ensures ChargeTier(l, t, id, key, now).1 == Charge(l, t.buckets, key, now).1
  {
  }

  /** Running the steps of one check without interruption is exactly `check`. */
  lemma UninterruptedCheck(ls: Limits, evicting: bool, w: World, id: CheckId, ip: string, key: Option<string>,
                           now: real)
    requires id !in w.pending && id !in w.answers
    ensures var w' := Run(ls, evicting, w, [Begin(id, ip, key, now), Advance(id), Advance(id), Advance(id)]);
            var (b, ok) := CheckSpec(ls, BucketsOf(w), ip, key, now);
            && BucketsOf(w') == b && id in w'.answers && w'.answers[id] == ok && w'.pending == w.pending
  {
    TierOfCharge(ls.ip, w.ip, id, ip, now);
    TierOfCharge(ls.key, w.keys, id, if key.Some? then key.value else "", now);
    TierOfCharge(ls.global, w.global, id, GLOBAL, now);
    hide Run, Charge, ChargeTier;
    var e := Advance(id);
    FourSteps(ls, evicting, w, Begin(id, ip, key, now), e, e, e);
    var w1 := Step(ls, evicting, w, Begin(id, ip, key, now));
    assert w1.pending - {id} == w.pending;
    var w2 := Step(ls, evicting, w1, e);
    if !Charge(ls.ip, w.ip.buckets, ip, now).1 {
      assert id !in w2.pending;
    } else {
      assert w2.pending - {id} == w.pending;
      var w3 := Step(ls, evicting, w2, e);
      if key.None? {
        assert id !in w3.pending;
      } else if !Charge(ls.key, w.keys.buckets, key.value, now).1 {
        assert id !in w3.pending;
      } else {
        assert w3.pending - {id} == w.pending;
      }
    }
  }

  // ----- eviction is invisible -----

  predicate AllConsistent(ls: Limits, w: World) {
    Consistent(ls.ip, w.ip) && Consistent(ls.key, w.keys) && Consistent(ls.global, w.global)
  }

  lemma StepKeepsConsistent(ls: Limits, evicting: bool, w: World, e: Event)
    requires AllConsistent(ls, w)
    ensures AllConsistent(ls, Step(ls, evicting, w, e))
  {
    hide Consistent, Charge, ChargeTier, EvictTier;
    match e
    case Begin(_, _, _, _) =>
    case EvictIps(now) => EvictKeepsConsistent(ls.ip, w.ip, now, evicting);
    case EvictKeys(now) => EvictKeepsConsistent(ls.key, w.keys, now, evicting);
    case Advance(id) =>
      if id in w.pending {
        var p := w.pending[id];
        match p.stage {
          case AtIp => ChargeKeepsConsistent(ls.ip, w.ip, id, p.ip, p.now);
          case AtKey => ChargeKeepsConsistent(ls.key, w.keys, id, if p.key.Some? then p.key.value else "", p.now);
          case AtGlobal => ChargeKeepsConsistent(ls.global, w.global, id, GLOBAL, p.now);
        }
      }
  }

  /** Two runs, the first with cleanup and the second without, that nobody can tell apart. */
  predicate Alike(ls: Limits, a: World, b: World, slack: real) {
    && Covers(ls.ip, a.ip, b.ip, slack) && Covers(ls.key, a.keys, b.keys, slack)
    && a.global == b.global && a.pending == b.pending && a.answers == b.answers
  }

  lemma StepKeepsAlike(ls: Limits, a: World, b: World, e: Event, slack: real)
    requires AllConsistent(ls, b) && Alike(ls, a, b, slack) && Timely(a, e, slack)
    requires Refills(ls.ip, slack) && Refills(ls.key, slack)
    ensures Alike(ls, Step(ls, true, a, e), Step(ls, false, b, e), slack)
  {
    assert a.ip.peak == b.ip.peak && a.keys.peak == b.keys.peak;
    hide Consistent, Covers, Charge, ChargeTier, EvictTier;
    match e
    case Begin(_, _, _, _) =>
    case EvictIps(now) => EvictCovers(ls.ip, a.ip, b.ip, now, slack);
    case EvictKeys(now) => EvictCovers(ls.key, a.keys, b.keys, now, slack);
    case Advance(id) =>
      if id in a.pending {
        var p := a.pending[id];
        match p.stage {
          case AtIp => ChargeCovers(ls.ip, a.ip, b.ip, id, p.ip, p.now, slack);
          case AtKey => ChargeCovers(ls.key, a.keys, b.keys, id, if p.key.Some? then p.key.value else "", p.now, slack);
          case AtGlobal =>
        }
      }
  }

  /** An address's bucket, and with it a key's, is full again after 300 s, also by a clock `slack` behind. */
  predicate BurstRefills(rps: real, burst: nat, slack: real) {
    burst == 0 || burst as real <= (300.0 - slack) * rps
  }

  lemma NewLimitsRefill(rps: real, burst: nat, slack: real)
    requires BurstRefills(rps, burst, slack)
    ensures Refills(NewLimits(rps, burst).ip, slack) && Refills(NewLimits(rps, burst).key, slack)
  {
    if burst > 0 {
      assert (burst * 5) as real == 5.0 * burst as real;
      assert (300.0 - slack) * (rps * 5.0) == 5.0 * ((300.0 - slack) * rps);
    }
  }

  /**
   Bucket eviction is invisible. If an idle bucket is full again within the 300 s it is kept, even for a check whose
   clock reading is `slack` old, then under every such interleaving the runs with and without cleanup give every check
   the same answer and take the same decisions in every tier.
   */
  lemma {:induction false} EvictionInvisible(rps: real, burst: nat, slack: real, now: real, es: seq<Event>)
    requires rps >= 0.0 && slack >= 0.0 && BurstRefills(rps, burst, slack)
    requires TimelyRun(NewLimits(rps, burst), true, Start(NewLimits(rps, burst), now), es, slack)
    ensures var ls := NewLimits(rps, burst);
            var a, b := Run(ls, true, Start(ls, now), es), Run(ls, false, Start(ls, now), es);
            && a.answers == b.answers && a.ip.log == b.ip.log && a.keys.log == b.keys.log && a.global == b.global
            && Alike(ls, a, b, slack) && AllConsistent(ls, b)
  {
    var ls := NewLimits(rps, burst);
    NewLimitsRefill(rps, burst, slack);
    if es != [] {
      var front, e := es[..|es| - 1], es[|es| - 1];
      EvictionInvisible(rps, burst, slack, now, front);
      var a, b := Run(ls, true, Start(ls, now), front), Run(ls, false, Start(ls, now), front);
      hide NewLimits, Start, AllConsistent, Step;
      StepKeepsAlike(ls, a, b, e, slack);
      StepKeepsConsistent(ls, false, b, e);
    }
  }

  // ----- window bounds -----

  ghost predicate AllBounded(ls: Limits, w: World) {
    Bounded(ls.ip, w.ip) && Bounded(ls.key, w.keys) && Bounded(ls.global, w.global)
  }

  lemma StepKeepsBounded(ls: Limits, evicting: bool, w: World, e: Event)
    requires AllConsistent(ls, w) && AllBounded(ls, w)
    requires evicting ==> Refills(ls.ip, 0.0) && Refills(ls.key, 0.0)
    ensures AllBounded(ls, Step(ls, evicting, w, e))
  {
    hide Consistent, Bounded, Charge, ChargeTier, EvictTier;
    match e
    case Begin(_, _, _, _) =>
    case EvictIps(now) => EvictKeepsBounded(ls.ip, w.ip, now, evicting);
    case EvictKeys(now) => EvictKeepsBounded(ls.key, w.keys, now, evicting);
    case Advance(id) =>
      if id in w.pending {
        var p := w.pending[id];
        match p.stage {
          case AtIp => ChargeKeepsBounded(ls.ip, w.ip, id, p.ip, p.now);
          case AtKey => ChargeKeepsBounded(ls.key, w.keys, id, if p.key.Some? then p.key.value else "", p.now);
          case AtGlobal => ChargeKeepsBounded(ls.global, w.global, id, GLOBAL, p.now);
        }
      }
  }

  lemma {:induction false} RunIsBounded(rps: real, burst: nat, evicting: bool, now: real, es: seq<Event>)
    requires rps >= 0.0 && (evicting ==> BurstRefills(rps, burst, 0.0))
    ensures var ls := NewLimits(rps, burst);
            && AllConsistent(ls, Run(ls, evicting, Start(ls, now), es))
            && AllBounded(ls, Run(ls, evicting, Start(ls, now), es))
  {
    var ls := NewLimits(rps, burst);
    if evicting {
      NewLimitsRefill(rps, burst, 0.0);
    }
    if es != [] {
      var front, e := es[..|es| - 1], es[|es| - 1];
      RunIsBounded(rps, burst, evicting, now, front);
      hide AllConsistent, AllBounded, Step, Start, NewLimits;
      var w := Run(ls, evicting, Start(ls, now), front);
      StepKeepsConsistent(ls, evicting, w, e);
      StepKeepsBounded(ls, evicting, w, e);
    }
  }

  /** From entry `i` to entry `j - 1`, `who` passed at most burst + rate * (duration + `extra`) times. */
  predicate WithinWindow(log: seq<Entry>, i: nat, j: nat, who: string, burst: real, rate: real, extra: real) {
    i < j <= |log| ==> Passes(log[i..j], who) as real <= burst + rate * (log[j - 1].at - log[i].at + extra)
  }

  /** How far the times used under the tier's lock went back, in total, from entry `i` to entry `j - 1`. */
  function WentBack(log: seq<Entry>, i: nat, j: nat): real {
    if i < j <= |log| then log[j - 1].back - log[i].back else 0.0
  }

  lemma TierWindow(l: Limit, t: Tier, i: nat, j: nat, who: string)
    requires Bounded(l, t)
    ensures WithinWindow(t.log, i, j, who, l.cap, l.rate, WentBack(t.log, i, j))
  {
    if i < j <= |t.log| {
      assert WindowBound(l, t.log, i, j, who);
      assert LivedAt(t.log[j - 1]) - LivedAt(t.log[i]) == t.log[j - 1].at - t.log[i].at + WentBack(t.log, i, j);
    }
  }

  lemma WorldWindow(ls: Limits, w: World, i: nat, j: nat, who: string)
    requires AllBounded(ls, w)
    ensures WithinWindow(w.ip.log, i, j, who, ls.ip.cap, ls.ip.rate, WentBack(w.ip.log, i, j))
    ensures WithinWindow(w.keys.log, i, j, who, ls.key.cap, ls.key.rate, WentBack(w.keys.log, i, j))
    ensures WithinWindow(w.global.log, i, j, GLOBAL, ls.global.cap, ls.global.rate, WentBack(w.global.log, i, j))
  {
    hide Bounded, WithinWindow, WentBack;
    TierWindow(ls.ip, w.ip, i, j, who);
    TierWindow(ls.key, w.keys, i, j, who);
    TierWindow(ls.global, w.global, i, j, GLOBAL);
  }

  lemma NewLimitsFacts(rps: real, burst: nat)
    ensures var ls := NewLimits(rps, burst);
            && ls.ip == Limit(rps, burst as real)
            && ls.key == Limit(rps * 5.0, (burst * 5) as real)
            && ls.global == Limit(rps * 50.0, (burst * 10) as real)
  {
  }

  /**
   The window bound, for every schedule. In any stretch of decisions spanning T seconds, in which the times used under
   the lock went back by B in total, one address passes its tier at most burst + rps (T + B) times, one key at most
   five times that, and all callers together at most 10 burst + 50 rps (T + B) times. With cleanup running this needs
   idle buckets to refill within 300 s.
   */
  lemma WindowBounds(rps: real, burst: nat, evicting: bool, now: real, es: seq<Event>, i: nat, j: nat, who: string)
    requires rps >= 0.0 && (evicting ==> BurstRefills(rps, burst, 0.0))
    ensures var ls := NewLimits(rps, burst);
            var w := Run(ls, evicting, Start(ls, now), es);
            && WithinWindow(w.ip.log, i, j, who, burst as real, rps, WentBack(w.ip.log, i, j))
            && WithinWindow(w.keys.log, i, j, who, (burst * 5) as real, rps * 5.0, WentBack(w.keys.log, i, j))
            && WithinWindow(w.global.log, i, j, GLOBAL, (burst * 10) as real, rps * 50.0, WentBack(w.global.log, i, j))
  {
    hide NewLimits, Run, Start, WithinWindow, WentBack, AllConsistent, AllBounded, BurstRefills;
    RunIsBounded(rps, burst, evicting, now, es);
    NewLimitsFacts(rps, burst);
    var ls := NewLimits(rps, burst);
    WorldWindow(ls, Run(ls, evicting, Start(ls, now), es), i, j, who);
  }

  /** When the times used under the address lock never went back, the bound is burst + rps T. */
  lemma OrderedWindowBound(rps: real, burst: nat, evicting: bool, now: real, es: seq<Event>, i: nat, j: nat, ip: string)
    requires rps >= 0.0 && (evicting ==> BurstRefills(rps, burst, 0.0))
    requires Run(NewLimits(rps, burst), evicting, Start(NewLimits(rps, burst), now), es).ip.back == 0.0
    ensures var log := Run(NewLimits(rps, burst), evicting, Start(NewLimits(rps, burst), now), es).ip.log;
            WithinWindow(log, i, j, ip, burst as real, rps, 0.0)
  {
    var ls := NewLimits(rps, burst);
    WindowBounds(rps, burst, evicting, now, es, i, j, ip);
    RunIsBounded(rps, burst, evicting, now, es);
    var t := Run(ls, evicting, Start(ls, now), es).ip;
    assert Consistent(ls.ip, t);
    hide Run, Start, NewLimits, AllBounded, AllConsistent;
  }

  /** Authenticated requests are checked twice, so at most half as many get through per address in the same stretch. */
  lemma AuthenticatedWindowBound(rps: real, burst: nat, evicting: bool, now: real, es: seq<Event>, i: nat, j: nat,
                                 ip: string, requests: set<nat>)
    requires rps >= 0.0 && (evicting ==> BurstRefills(rps, burst, 0.0))
    requires var log := Run(NewLimits(rps, burst), evicting, Start(NewLimits(rps, burst), now), es).ip.log;
             && i < j <= |log|
             && forall r | r in requests ::
                  Passed(log[i..j], ip, CheckId(r, false)) && Passed(log[i..j], ip, CheckId(r, true))
    ensures var log := Run(NewLimits(rps, burst), evicting, Start(NewLimits(rps, burst), now), es).ip.log;
            (2 * |requests|) as real <= burst as real + rps * (log[j - 1].at - log[i].at + WentBack(log, i, j))
  {
    var log := Run(NewLimits(rps, burst), evicting, Start(NewLimits(rps, burst), now), es).ip.log;
    hide Run, Start, NewLimits, WentBack;
    WindowBounds(rps, burst, evicting, now, es, i, j, ip);
    TwoPassesEach(log[i..j], ip, requests);
  }
}
