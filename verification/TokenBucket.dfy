/** One tier of the rate limiter: a map of token buckets behind one lock (citadel-api/src/main.rs). */
module TokenBucket {
  datatype Bucket = Bucket(tokens: real, lastRefill: real)

  /** Refill rate in tokens per second and capacity. */
  datatype Limit = Limit(rate: real, cap: real)

  /** The two middleware layers check one HTTP request separately. */
  datatype CheckId = CheckId(request: nat, authenticated: bool)

  /** `back` is how far the readings used by checks had gone back in total by this decision. */
  datatype Entry = Entry(id: CheckId, key: string, at: real, ok: bool, back: real)

  /**
   All but `buckets` is history: the decisions taken under the lock, the time up to which it has let buckets refill (the
   last check's reading, or a later cleanup's), the latest reading used, and the total by which checks' readings fell
   behind `clock`. A check reads the clock before it takes the lock, so readings may go back.
   */
  datatype Tier = Tier(buckets: map<string, Bucket>, log: seq<Entry>, clock: real, peak: real, back: real)

  const IDLE_SECONDS: int := 300

  /** `duration_since` saturates at zero. */
  function Elapsed(now: real, last: real): real {
    if now >= last then now - last else 0.0
  }

  function Refilled(l: Limit, b: Bucket, now: real): real {
    var t := b.tokens + Elapsed(now, b.lastRefill) * l.rate;
    if t <= l.cap then t else l.cap
  }

  function BucketFor(l: Limit, buckets: map<string, Bucket>, key: string, now: real): Bucket {
    if key in buckets then buckets[key] else Bucket(l.cap, now)
  }

  /** One critical section of `check`: refill, then take a token if there is a whole one. */
  function Charge(l: Limit, buckets: map<string, Bucket>, key: string, now: real): (map<string, Bucket>, bool) {
    var tokens := Refilled(l, BucketFor(l, buckets, key, now), now);
    if tokens < 1.0 then (buckets[key := Bucket(tokens, now)], false)
    else (buckets[key := Bucket(tokens - 1.0, now)], true)
  }

  /** One critical section of `cleanup_rate_limiter`. */
  function Evict(buckets: map<string, Bucket>, now: real): map<string, Bucket> {
    map k | k in buckets && Elapsed(now, buckets[k].lastRefill).Floor < IDLE_SECONDS :: buckets[k]
  }

  function Later(a: real, b: real): real {
    if a >= b then a else b
  }

  /** The total backward movement once a check has used `now`. */
  function BackAt(t: Tier, now: real): real {
    t.back + Elapsed(t.clock, now)
  }

  function ChargeTier(l: Limit, t: Tier, id: CheckId, key: string, now: real): (Tier, bool) {
    var (buckets, ok) := Charge(l, t.buckets, key, now);
    (Tier(buckets, t.log + [Entry(id, key, now, ok, BackAt(t, now))], now, Later(t.peak, now), BackAt(t, now)), ok)
  }

  /**
   With `evicting` off the cleanup does nothing but pass the time. An old reading refills and forgets nothing more.
   */
  function EvictTier(t: Tier, now: real, evicting: bool): Tier {
    Tier(if evicting then Evict(t.buckets, now) else t.buckets, t.log, Later(t.clock, now), Later(t.peak, now), t.back)
  }

  // ----- consistency -----

  predicate Consistent(l: Limit, t: Tier) {
    && l.cap >= 0.0 && l.rate >= 0.0
    && (forall k | k in t.buckets :: 0.0 <= t.buckets[k].tokens <= l.cap)
    && (forall i | 0 <= i < |t.log| :: 0.0 <= t.log[i].back <= t.back)
    && 0.0 <= t.back && t.clock <= t.peak
  }

  lemma MulMonotone(rate: real, a: real, b: real)
    requires rate >= 0.0 && a <= b
    ensures a * rate <= b * rate
  {
    assert (b - a) * rate >= 0.0;
  }

  lemma RefilledInRange(l: Limit, t: Tier, key: string, now: real)
    requires Consistent(l, t)
    ensures 0.0 <= Refilled(l, BucketFor(l, t.buckets, key, now), now) <= l.cap
  {
    var b := BucketFor(l, t.buckets, key, now);
    MulMonotone(l.rate, 0.0, Elapsed(now, b.lastRefill));
  }

  lemma ChargeKeepsConsistent(l: Limit, t: Tier, id: CheckId, key: string, now: real)
    requires Consistent(l, t)
    ensures Consistent(l, ChargeTier(l, t, id, key, now).0)
  {
    RefilledInRange(l, t, key, now);
    hide Refilled;
  }

  lemma EvictKeepsConsistent(l: Limit, t: Tier, now: real, evicting: bool)
    requires Consistent(l, t)
    ensures Consistent(l, EvictTier(t, now, evicting))
  {
  }

  // ----- eviction is invisible -----

  /** A bucket idle for 300 s is full again, also by a clock that is `slack` behind. */
  predicate Refills(l: Limit, slack: real) {
    l.cap == 0.0 || l.cap <= (300.0 - slack) * l.rate
  }

  /** The evicting tier lacks only buckets that are full again, even for a check whose clock reading is `slack` old. */
  predicate Covers(l: Limit, a: Tier, b: Tier, slack: real) {
    && a == b.(buckets := a.buckets)
    && (forall k | k in a.buckets :: k in b.buckets && a.buckets[k] == b.buckets[k])
    && (forall k | k in b.buckets && k !in a.buckets :: Refilled(l, b.buckets[k], b.peak - slack) == l.cap)
  }

  lemma FullStaysFull(l: Limit, b: Bucket, now: real, later: real)
    requires l.rate >= 0.0 && now <= later
    requires Refilled(l, b, now) == l.cap
    ensures Refilled(l, b, later) == l.cap
  {
    MulMonotone(l.rate, Elapsed(now, b.lastRefill), Elapsed(later, b.lastRefill));
  }

  lemma IdleIsFull(l: Limit, b: Bucket, now: real, slack: real)
    requires l.rate >= 0.0 && 0.0 <= b.tokens <= l.cap && Refills(l, slack)
    requires Elapsed(now, b.lastRefill).Floor >= IDLE_SECONDS
    ensures Refilled(l, b, now - slack) == l.cap
  {
    var e := Elapsed(now - slack, b.lastRefill);
    assert Elapsed(now, b.lastRefill) >= 300.0;
    MulMonotone(l.rate, 300.0 - slack, e);
    MulMonotone(l.rate, 0.0, e);
  }

  lemma ChargeCovers(l: Limit, a: Tier, b: Tier, id: CheckId, key: string, now: real, slack: real)
    requires Consistent(l, b) && Covers(l, a, b, slack) && b.peak - slack <= now
    ensures ChargeTier(l, a, id, key, now).1 == ChargeTier(l, b, id, key, now).1
    ensures Covers(l, ChargeTier(l, a, id, key, now).0, ChargeTier(l, b, id, key, now).0, slack)
  {
    assert Elapsed(now, now) == 0.0;
    forall k | k in b.buckets && k !in a.buckets
      ensures Refilled(l, b.buckets[k], now) == l.cap && Refilled(l, b.buckets[k], Later(b.peak, now) - slack) == l.cap
    {
      FullStaysFull(l, b.buckets[k], b.peak - slack, now);
      FullStaysFull(l, b.buckets[k], b.peak - slack, Later(b.peak, now) - slack);
    }
  }

  lemma EvictCovers(l: Limit, a: Tier, b: Tier, now: real, slack: real)
    requires Consistent(l, b) && Covers(l, a, b, slack) && Refills(l, slack)
    ensures Covers(l, EvictTier(a, now, true), EvictTier(b, now, false), slack)
  {
    var a' := EvictTier(a, now, true);
    forall k | k in b.buckets && k !in a'.buckets
      ensures Refilled(l, b.buckets[k], Later(b.peak, now) - slack) == l.cap
    {
      if k in a.buckets {
        IdleIsFull(l, b.buckets[k], now, slack);
        FullStaysFull(l, b.buckets[k], now - slack, Later(b.peak, now) - slack);
      } else {
        FullStaysFull(l, b.buckets[k], b.peak - slack, Later(b.peak, now) - slack);
      }
    }
  }

  // ----- ... exactly when idle buckets refill -----

  /** `n` charges of one key at one instant: the resulting buckets, and whether all passed. */
  function ChargeMany(l: Limit, buckets: map<string, Bucket>, key: string, now: real, n: nat)
    : (map<string, Bucket>, bool) {
    if n == 0 then (buckets, true)
    else
      var (m, all) := ChargeMany(l, buckets, key, now, n - 1);
      var (m', ok) := Charge(l, m, key, now);
      (m', all && ok)
  }

  lemma RefilledNow(l: Limit, b: Bucket, now: real)
    requires b.lastRefill == now && b.tokens <= l.cap
    ensures Refilled(l, b, now) == b.tokens
  {
    assert Elapsed(now, now) == 0.0;
  }

  /** All of a simultaneous batch pass if and only if the bucket holds that many tokens. */
  lemma {:induction false} BatchPassesExactly(l: Limit, buckets: map<string, Bucket>, key: string, now: real, n: nat)
    requires l.cap >= 0.0 && n >= 1
    ensures var x := Refilled(l, BucketFor(l, buckets, key, now), now);
            var r := ChargeMany(l, buckets, key, now, n);
            && (r.1 <==> x >= n as real)
            && key in r.0 && r.0[key].lastRefill == now && r.0[key].tokens <= l.cap
            && (r.1 ==> r.0[key].tokens == x - n as real)
            && (!r.1 ==> r.0[key].tokens < 1.0)
  {
    if n == 1 {
      assert ChargeMany(l, buckets, key, now, 0) == (buckets, true);
    } else {
      BatchPassesExactly(l, buckets, key, now, n - 1);
      RefilledNow(l, ChargeMany(l, buckets, key, now, n - 1).0[key], now);
      hide Refilled;
    }
  }

  lemma DrainedBucket(l: Limit, key: string, t: real, d: real, n: nat)
    requires l.cap >= 0.0 && l.rate >= 0.0 && n as real <= l.cap && d >= 0.0
    ensures var (drained, all) := ChargeMany(l, map[], key, t, n);
            var left := l.cap - n as real + l.rate * d;
            && all
            && Refilled(l, BucketFor(l, drained, key, t + d), t + d) == if left <= l.cap then left else l.cap
  {
    var gained := l.rate * d;
    MulMonotone(l.rate, 0.0, d);
    assert Elapsed(t, t) == 0.0 && Elapsed(t + d, t + d) == 0.0 && Elapsed(t + d, t) == d;
    if n == 0 {
      assert ChargeMany(l, map[], key, t, 0) == (map[], true);
    } else {
      BatchPassesExactly(l, map[], key, t, n);
      var b := ChargeMany(l, map[], key, t, n).0[key];
      assert b == Bucket(l.cap - n as real, t);
      hide ChargeMany;
    }
  }

  /**
   Tokens left over and tokens gained add up: `n` checks of a fresh key drain as many tokens, and `m` checks `d`
   seconds later all pass if and only if `m` is at most what was left plus what `d` seconds refill, and at most the
   capacity.
   */
  lemma TwoBatchesPassExactly(l: Limit, key: string, t: real, d: real, n: nat, m: nat)
    requires l.cap >= 0.0 && l.rate >= 0.0 && n as real <= l.cap && m >= 1 && d >= 0.0
    ensures var (drained, all) := ChargeMany(l, map[], key, t, n);
            all && (ChargeMany(l, drained, key, t + d, m).1 <==>
                      m as real <= l.cap && m as real <= l.cap - n as real + l.rate * d)
  {
    var drained := ChargeMany(l, map[], key, t, n).0;
    DrainedBucket(l, key, t, d, n);
    BatchPassesExactly(l, drained, key, t + d, m);
    hide ChargeMany, Refilled;
  }

  /** The cleanup forgets exactly the buckets idle for 300 s, by its own reading, and changes no other. */
  lemma EvictExactly(buckets: map<string, Bucket>, now: real, k: string)
    ensures k in Evict(buckets, now) <==> k in buckets && now - buckets[k].lastRefill < 300.0
    ensures k in Evict(buckets, now) ==> Evict(buckets, now)[k] == buckets[k]
  {
  }

  /**
   If a bucket does not refill in time, one address sees the difference: it drains its burst, is forgotten after 300
   s, and asks for its burst again with a clock reading that may be a little old. With the cleanup in between
   everything passes; without it something is refused.
   */
  lemma EvictionVisible(rate: real, burst: nat, key: string, age: real)
    requires burst >= 1 && 0.0 <= age <= 300.0 && (300.0 - age) * rate < burst as real
    ensures var l := Limit(rate, burst as real);
            var (drained, all) := ChargeMany(l, map[], key, 0.0, burst);
            && all
            && ChargeMany(l, Evict(drained, 300.0), key, 300.0 - age, burst).1
            && !ChargeMany(l, drained, key, 300.0 - age, burst).1
  {
    var l := Limit(rate, burst as real);
    BatchPassesExactly(l, map[], key, 0.0, burst);
    var drained := ChargeMany(l, map[], key, 0.0, burst).0;
    BatchPassesExactly(l, Evict(drained, 300.0), key, 300.0 - age, burst);
    BatchPassesExactly(l, drained, key, 300.0 - age, burst);
    assert key !in Evict(drained, 300.0);
    assert Elapsed(300.0 - age, 300.0 - age) == 0.0 && Elapsed(300.0 - age, 0.0) == 300.0 - age;
  }

  // ----- window bound -----

  function Passes(log: seq<Entry>, key: string): nat {
    if log == [] then 0
    else
      var e := log[|log| - 1];
      Passes(log[..|log| - 1], key) + if e.key == key && e.ok then 1 else 0
  }

  /** What a bucket can gain in `d` seconds. */
  function Gain(l: Limit, d: real): real {
    l.rate * d
  }

  lemma GainAdds(l: Limit, a: real, b: real)
    ensures Gain(l, a) + Gain(l, b) == Gain(l, a + b)
    ensures Gain(l, 0.0) == 0.0
  {
  }

  lemma GainGrows(l: Limit, a: real, b: real)
    requires l.rate >= 0.0 && a <= b
    ensures Gain(l, a) <= Gain(l, b)
  {
    MulMonotone(l.rate, a, b);
  }

  /** The tokens a key could spend at `now`; a key without a bucket has a full one. */
  function Available(l: Limit, buckets: map<string, Bucket>, key: string, now: real): real {
    Refilled(l, BucketFor(l, buckets, key, now), now)
  }

  lemma AvailableGrows(l: Limit, t: Tier, key: string, now: real, later: real)
    requires Consistent(l, t)
    ensures 0.0 <= Available(l, t.buckets, key, now) <= l.cap
    ensures Available(l, t.buckets, key, later) <= Available(l, t.buckets, key, now) + Gain(l, Elapsed(later, now))
  {
    RefilledInRange(l, t, key, now);
    RefilledInRange(l, t, key, later);
    MulMonotone(l.rate, 0.0, Elapsed(later, now));
    if key in t.buckets {
      var last := t.buckets[key].lastRefill;
      MulMonotone(l.rate, Elapsed(later, last), Elapsed(now, last) + Elapsed(later, now));
    } else {
      assert Elapsed(now, now) == 0.0 && Elapsed(later, later) == 0.0;
    }
  }

  /** A charge costs its key one token exactly when it passes, and no other key anything, at any time `now`. */
  lemma ChargeSpends(l: Limit, t: Tier, id: CheckId, key: string, now: real, k: string)
    requires Consistent(l, t)
    ensures var (t', ok) := ChargeTier(l, t, id, key, now);
            Available(l, t'.buckets, k, now) + (if ok && k == key then 1.0 else 0.0) == Available(l, t.buckets, k, now)
  {
    RefilledInRange(l, t, key, now);
    assert Elapsed(now, now) == 0.0;
  }

  /** The time a tier would have lived through, forwards and backwards, once it has used `x`. */
  function Lived(t: Tier, x: real): real {
    x + BackAt(t, x)
  }

  function LivedAt(e: Entry): real {
    e.at + e.back
  }

  /**
   Since position `i` a key has spent at most a full bucket plus the refill, less what it could still spend at `x`.
   */
  predicate SpentAt(l: Limit, t: Tier, i: nat, key: string, x: real)
    requires i < |t.log|
  {
    Passes(t.log[i..], key) as real + Available(l, t.buckets, key, x)
    <= l.cap + Gain(l, Lived(t, x) - LivedAt(t.log[i]))
  }

  /**
   The entries from `i` to `j` obey the window bound for the key: a full bucket, the refill over the time between
   them, and the refill over all the time that was used twice because the clock readings went back.
   */
  predicate WindowBound(l: Limit, log: seq<Entry>, i: nat, j: nat, key: string)
    requires i < j <= |log|
  {
    Passes(log[i..j], key) as real <= l.cap + Gain(l, LivedAt(log[j - 1]) - LivedAt(log[i]))
  }

  ghost predicate Bounded(l: Limit, t: Tier) {
    && (forall i, k, x | 0 <= i < |t.log| :: SpentAt(l, t, i, k, x))
    && (forall i, j, k | 0 <= i < j <= |t.log| :: WindowBound(l, t.log, i, j, k))
  }

  lemma PassesAppend(log: seq<Entry>, e: Entry, key: string)
    ensures Passes(log + [e], key) == Passes(log, key) + if e.key == key && e.ok then 1 else 0
  {
    assert (log + [e])[..|log|] == log;
  }

  lemma LivedGrows(t: Tier, t': Tier, now: real, x: real)
    requires t'.clock == now && t'.back == BackAt(t, now)
    ensures Lived(t', x) == Lived(t, now) + Elapsed(x, now)
    ensures Lived(t', x) >= Lived(t, x)
  {
  }

  /** The charged key: its pass is paid by what it could spend at that moment. */
  lemma ChargeSpentOwn(l: Limit, t: Tier, id: CheckId, key: string, now: real, i: nat, x: real)
    requires Consistent(l, t) && i <= |t.log|
    requires i < |t.log| ==> SpentAt(l, t, i, key, now)
    ensures SpentAt(l, ChargeTier(l, t, id, key, now).0, i, key, x)
  {
    var (t', ok) := ChargeTier(l, t, id, key, now);
    ChargeSpends(l, t, id, key, now, key);
    ChargeKeepsConsistent(l, t, id, key, now);
    AvailableGrows(l, t, key, now, now);
    AvailableGrows(l, t', key, now, x);
    LivedGrows(t, t', now, x);
    var e := Entry(id, key, now, ok, BackAt(t, now));
    assert t'.log == t.log + [e];
    var from := LivedAt(t'.log[i]);
    GainAdds(l, Lived(t, now) - from, Elapsed(x, now));
    assert i == |t.log| ==> from == Lived(t, now);
    hide Available, ChargeTier, Lived, LivedAt, Gain, Consistent;
    assert t'.log[i..] == t.log[i..] + [e];
    PassesAppend(t.log[i..], e, key);
  }

  /** A step that leaves a key's bucket alone, or forgets it when full, and passes nothing for it. */
  lemma OthersSpentSince(l: Limit, t: Tier, t': Tier, now: real, i: nat, key: string, x: real)
    requires Consistent(l, t) && Consistent(l, t') && i <= |t.log| <= |t'.log| && t.log <= t'.log && i < |t'.log|
    requires Lived(t', x) >= Lived(t, x) && Lived(t', x) >= Lived(t, now)
    requires Passes(t'.log[i..], key) == Passes(t.log[i..], key)
    requires i < |t.log| ==> SpentAt(l, t, i, key, now) && SpentAt(l, t, i, key, x)
    requires i == |t.log| ==> LivedAt(t'.log[i]) == Lived(t, now)
    requires || Available(l, t'.buckets, key, x) == Available(l, t.buckets, key, x)
             || Available(l, t.buckets, key, now) == l.cap
    ensures SpentAt(l, t', i, key, x)
  {
    AvailableGrows(l, t', key, x, x);
    var from := LivedAt(t'.log[i]);
    GainGrows(l, Lived(t, x) - from, Lived(t', x) - from);
    GainGrows(l, Lived(t, now) - from, Lived(t', x) - from);
    GainAdds(l, 0.0, 0.0);
    if i == |t.log| {
      assert Passes(t.log[i..], key) == 0;
    }
    hide Available, Lived, LivedAt, Gain, Consistent;
  }

  lemma OtherKeySpent(l: Limit, t: Tier, t': Tier, e: Entry, i: nat, k: string, x: real)
    requires Consistent(l, t) && Consistent(l, t') && i <= |t.log| && e.key != k
    requires t'.log == t.log + [e] && t'.clock == e.at && t'.back == e.back == BackAt(t, e.at)
    requires i < |t.log| ==> SpentAt(l, t, i, k, e.at) && SpentAt(l, t, i, k, x)
    requires Available(l, t'.buckets, k, x) == Available(l, t.buckets, k, x)
    ensures SpentAt(l, t', i, k, x)
  {
    assert LivedAt(e) == Lived(t, e.at);
    LivedGrows(t, t', e.at, x);
    hide Consistent, SpentAt, Available, BackAt, Lived, LivedAt;
    assert t'.log[i..] == t.log[i..] + [e];
    PassesAppend(t.log[i..], e, k);
    OthersSpentSince(l, t, t', e.at, i, k, x);
  }

  lemma OthersUntouched(l: Limit, t: Tier, id: CheckId, key: string, now: real, k: string, x: real)
    requires k != key
    ensures var (t', ok) := ChargeTier(l, t, id, key, now);
            && Available(l, t'.buckets, k, x) == Available(l, t.buckets, k, x)
            && t'.clock == now && t'.back == BackAt(t, now) && t'.log == t.log + [Entry(id, key, now, ok, t'.back)]
  {
  }

  lemma ChargeSpentSince(l: Limit, t: Tier, id: CheckId, key: string, now: real, i: nat, k: string, x: real)
    requires Consistent(l, t) && i <= |t.log|
    requires i < |t.log| ==> SpentAt(l, t, i, k, now) && SpentAt(l, t, i, k, x)
    ensures SpentAt(l, ChargeTier(l, t, id, key, now).0, i, k, x)
  {
    if k == key {
      ChargeSpentOwn(l, t, id, key, now, i, x);
    } else {
      var (t', ok) := ChargeTier(l, t, id, key, now);
      ChargeKeepsConsistent(l, t, id, key, now);
      OthersUntouched(l, t, id, key, now, k, x);
      OtherKeySpent(l, t, t', Entry(id, key, now, ok, BackAt(t, now)), i, k, x);
    }
    hide ChargeTier, Consistent, Gain, Lived, LivedAt, Available;
  }

  lemma SpentBoundsWindow(l: Limit, t: Tier, i: nat, key: string)
    requires Consistent(l, t) && i < |t.log| && SpentAt(l, t, i, key, t.clock)
    requires t.clock == t.log[|t.log| - 1].at && t.back == t.log[|t.log| - 1].back
    ensures WindowBound(l, t.log, i, |t.log|, key)
  {
    AvailableGrows(l, t, key, t.clock, t.clock);
    assert t.log[i..|t.log|] == t.log[i..];
    assert Lived(t, t.clock) == LivedAt(t.log[|t.log| - 1]);
    hide Available, Gain, Lived, LivedAt, Consistent;
  }

  lemma WindowOfPrefix(l: Limit, log: seq<Entry>, longer: seq<Entry>, i: nat, j: nat, key: string)
    requires i < j <= |log| && log <= longer
    requires WindowBound(l, log, i, j, key)
    ensures WindowBound(l, longer, i, j, key)
  {
    assert forall m | 0 <= m < |log| :: longer[m] == log[m];
    assert longer[i..j] == log[i..j];
    assert longer[i] == log[i] && longer[j - 1] == log[j - 1];
  }

  lemma ChargeKeepsBounded(l: Limit, t: Tier, id: CheckId, key: string, now: real)
    requires Consistent(l, t) && Bounded(l, t)
    ensures Bounded(l, ChargeTier(l, t, id, key, now).0)
  {
    var t' := ChargeTier(l, t, id, key, now).0;
    ChargeKeepsConsistent(l, t, id, key, now);
    assert |t'.log| == |t.log| + 1 && t.log <= t'.log && t'.clock == now;
    assert t'.log[|t.log|].at == now && t'.log[|t.log|].back == t'.back;
    hide ChargeTier, SpentAt, WindowBound;
    forall i, k, x | 0 <= i < |t'.log| ensures SpentAt(l, t', i, k, x) {
      ChargeSpentSince(l, t, id, key, now, i, k, x);
    }
    forall i, j, k | 0 <= i < j <= |t'.log| ensures WindowBound(l, t'.log, i, j, k) {
      if j == |t'.log| {
        SpentBoundsWindow(l, t', i, k);
      } else {
        WindowOfPrefix(l, t.log, t'.log, i, j, k);
      }
    }
  }

  lemma EvictSpentSince(l: Limit, t: Tier, now: real, evicting: bool, i: nat, k: string, x: real)
    requires Consistent(l, t) && (evicting ==> Refills(l, 0.0))
    requires i < |t.log| && SpentAt(l, t, i, k, now) && SpentAt(l, t, i, k, x)
    ensures SpentAt(l, EvictTier(t, now, evicting), i, k, x)
  {
    EvictKeepsConsistent(l, t, now, evicting);
    if evicting && k in t.buckets && k !in Evict(t.buckets, now) {
      IdleIsFull(l, t.buckets[k], now, 0.0);
    }
    var t' := EvictTier(t, now, evicting);
    assert Lived(t', x) >= Lived(t, x) && Lived(t', x) >= Lived(t, now);
    hide SpentAt, Consistent;
    OthersSpentSince(l, t, EvictTier(t, now, evicting), now, i, k, x);
  }

  lemma EvictKeepsBounded(l: Limit, t: Tier, now: real, evicting: bool)
    requires Consistent(l, t) && Bounded(l, t)
    requires evicting ==> Refills(l, 0.0)
    ensures Bounded(l, EvictTier(t, now, evicting))
  {
    var t' := EvictTier(t, now, evicting);
    forall i, k, x | 0 <= i < |t'.log| ensures SpentAt(l, t', i, k, x) {
      assert SpentAt(l, t, i, k, now) && SpentAt(l, t, i, k, x);
      EvictSpentSince(l, t, now, evicting, i, k, x);
    }
    hide SpentAt, WindowBound, Evict;
  }

  // ----- two checks per authenticated request -----

  /** Some entry passed this check for the key. */
  predicate Passed(log: seq<Entry>, key: string, id: CheckId) {
    exists i | 0 <= i < |log| :: log[i].id == id && log[i].key == key && log[i].ok
  }

  function PassedIds(log: seq<Entry>, key: string): (ids: set<CheckId>)
    ensures |ids| <= Passes(log, key)
    ensures forall id | Passed(log, key, id) :: id in ids
  {
    if log == [] then {}
    else
      var front, e := log[..|log| - 1], log[|log| - 1];
      assert forall i | 0 <= i < |front| :: front[i] == log[i];
      assert forall id | Passed(log, key, id) && !Passed(front, key, id) :: e.id == id && e.key == key && e.ok;
      PassedIds(front, key) + if e.key == key && e.ok then {e.id} else {}
  }

  lemma {:induction false} BothChecks(requests: set<nat>, ids: set<CheckId>)
    requires forall r | r in requests :: CheckId(r, false) in ids && CheckId(r, true) in ids
    ensures 2 * |requests| <= |ids|
  {
    if requests != {} {
      var r :| r in requests;
      BothChecks(requests - {r}, ids - {CheckId(r, false), CheckId(r, true)});
    }
  }

  /** Requests that pass both of their checks use up two passes each. */
  lemma {:induction false} TwoPassesEach(log: seq<Entry>, key: string, requests: set<nat>)
    requires forall r | r in requests :: Passed(log, key, CheckId(r, false)) && Passed(log, key, CheckId(r, true))
    ensures 2 * |requests| <= Passes(log, key)
  {
    var ids := PassedIds(log, key);
    BothChecks(requests, ids);
  }
}
