/** The per-key token-bucket rate limiter. Time is a real number of seconds that callers read
    from a monotone clock; tokens are exact reals. */
module RateLimit {
  datatype Bucket = Bucket(rate: real, available: real, lastRefill: real)

  function Min(a: real, b: real): real {
    if a <= b then a else b
  }

  function Fresh(rps: nat, now: real): Bucket {
    Bucket(rps as real, rps as real, now)
  }

  /** `duration_since` saturates at zero when the clock has not advanced. */
  function Elapsed(since: real, now: real): real {
    if now >= since then now - since else 0.0
  }

  function Refill(b: Bucket, now: real): Bucket {
    Bucket(b.rate, Min(b.available + Elapsed(b.lastRefill, now) * b.rate, b.rate), now)
  }

  /** One `try_consume`: refill, then take a token if there is a whole one. */
  function Step(b: Bucket, now: real): (bool, Bucket) {
    var r := Refill(b, now);
    if r.available >= 1.0 then (true, r.(available := r.available - 1.0)) else (false, r)
  }

  /** A clock that has not advanced refills nothing, and the bucket keeps its rate. */
  lemma StalledClock(b: Bucket, now: real)
    requires now <= b.lastRefill && b.available <= b.rate
    ensures var (ok, after) := Step(b, now);
            && (ok <==> b.available >= 1.0)
            && after == Bucket(b.rate, if ok then b.available - 1.0 else b.available, now)
  {
  }

  class TokenBucket {
    const capacity: real
    const refillPerSecond: real
    var available: real
    var lastRefill: real

    ghost predicate Valid() {
      capacity == refillPerSecond
    }

    ghost function View(): Bucket
      reads this
    {
      Bucket(capacity, available, lastRefill)
    }

    constructor (rps: nat, now: real)
      ensures Valid() && View() == Fresh(rps, now)
    {
      capacity, refillPerSecond, available, lastRefill := rps as real, rps as real, rps as real, now;
    }

    method TryConsume(now: real) returns (ok: bool)
      requires Valid()
      modifies this
      ensures (ok, View()) == Step(old(View()), now)
    {
      var elapsed := Elapsed(lastRefill, now);
      ghost var refilled := Refill(View(), now);
      assert refilled.available == Min(available + elapsed * refillPerSecond, capacity);
      hide Min, Elapsed, Refill;
      available := Min(available + elapsed * refillPerSecond, capacity);
      lastRefill := now;
      if available >= 1.0 {
        available := available - 1.0;
        ok := true;
      } else {
        ok := false;
      }
    }
  }

  class RateLimiter {
    var buckets: map<string, TokenBucket>

    ghost predicate Valid()
      reads this, buckets.Values
    {
      && (forall k | k in buckets :: buckets[k].Valid())
      && (forall k, k' | k in buckets && k' in buckets && k != k' :: buckets[k] != buckets[k'])
    }

    ghost function View(): map<string, Bucket>
      reads this, buckets.Values
    {
      map k | k in buckets :: buckets[k].View()
    }

    constructor ()
      ensures Valid() && View() == map[]
    {
      buckets := map[];
    }

    /** The bucket for a key, created at full capacity when there is none. */
    method Entry(key: string, rps: nat, now: real) returns (bucket: TokenBucket)
      requires Valid()
      modifies this
      ensures Valid() && fresh(buckets.Values - old(buckets.Values))
      ensures key in buckets && bucket == buckets[key]
      ensures View() == old(View())[key := if key in old(buckets) then old(View())[key] else Fresh(rps, now)]
    {
      hide Fresh;
      if key !in buckets {
        bucket := new TokenBucket(rps, now);
        buckets := buckets[key := bucket];
      }
      bucket := buckets[key];
    }

    method Check(key: string, rps: nat, now: real) returns (ok: bool)
      requires Valid()
      modifies this, buckets.Values
      ensures Valid() && fresh(buckets.Values - old(buckets.Values))
      ensures (ok, View()) == CheckStep(old(View()), key, rps, now)
    {
      hide Step, Fresh;
      var bucket := Entry(key, rps, now);
      ghost var entered := View();
      ok := bucket.TryConsume(now);
      assert forall k | k in buckets && k != key :: buckets[k] != bucket;
      ghost var after := Step(entered[key], now).1;
      assert View() == entered[key := after];
      assert entered[key := after] == old(View())[key := after];
    }

    method Forget(key: string)
      requires Valid()
      modifies this
      ensures Valid() && buckets.Values <= old(buckets.Values)
      ensures View() == old(View()) - {key}
    {
      buckets := buckets - {key};
    }
  }

  function CheckStep(m: map<string, Bucket>, key: string, rps: nat, now: real): (bool, map<string, Bucket>) {
    var (ok, b) := Step(if key in m then m[key] else Fresh(rps, now), now);
    (ok, m[key := b])
  }

  // ----- a single bucket over a run of requests -----

  /** A bucket created at `born` for `rps` requests per second, asked at times `ts`. */
  function After(born: real, rps: nat, ts: seq<real>): Bucket {
    if ts == [] then Fresh(rps, born)
    else Step(After(born, rps, ts[..|ts| - 1]), ts[|ts| - 1]).1
  }

  predicate Admitted(born: real, rps: nat, ts: seq<real>, n: nat)
    requires n < |ts|
  {
    Step(After(born, rps, ts[..n]), ts[n]).0
  }

  /** How many of requests `j..n` are admitted. */
  function Count(born: real, rps: nat, ts: seq<real>, j: nat, n: nat): nat
    requires j <= n <= |ts|
    decreases n - j
  {
    if j == n then 0
    else Count(born, rps, ts, j, n - 1) + if Admitted(born, rps, ts, n - 1) then 1 else 0
  }

  predicate Monotone(born: real, ts: seq<real>) {
    && (forall i | 0 <= i < |ts| :: born <= ts[i])
    && (forall i, j | 0 <= i <= j < |ts| :: ts[i] <= ts[j])
  }

  /** Tokens on hand when request `n` is decided. */
  function Level(born: real, rps: nat, ts: seq<real>, n: nat): real
    requires n < |ts|
  {
    Refill(After(born, rps, ts[..n]), ts[n]).available
  }

  /** What the key may have spent from time `s` to time `t`: a full bucket plus the refill. */
  function Budget(rps: nat, s: real, t: real): real {
    rps as real + rps as real * (t - s)
  }

  /** Tokens gained from time `s` to time `t`. */
  function Gain(rps: nat, s: real, t: real): real {
    (t - s) * rps as real
  }

  lemma BudgetGrows(rps: nat, s: real, t: real, u: real)
    requires t <= u
    ensures Budget(rps, s, u) == Budget(rps, s, t) + Gain(rps, t, u)
    ensures Budget(rps, s, t) <= Budget(rps, s, u)
    ensures Budget(rps, s, s) == rps as real
  {
    var r := rps as real;
    assert r * (u - s) == r * (t - s) + r * (u - t);
  }

  lemma AdmittedByLevel(born: real, rps: nat, ts: seq<real>, n: nat)
    requires n < |ts|
    ensures Admitted(born, rps, ts, n) <==> Level(born, rps, ts, n) >= 1.0
  {
  }

  lemma LevelStart(born: real, rps: nat, ts: seq<real>)
    requires Monotone(born, ts) && ts != []
    ensures Level(born, rps, ts, 0) == rps as real
  {
    assert ts[..0] == [];
    assert (ts[0] - born) * rps as real >= 0.0;
  }

  lemma StepSpends(b: Bucket, now: real)
    ensures var r := Refill(b, now);
            && (Step(b, now).0 <==> r.available >= 1.0)
            && Step(b, now).1 == Bucket(b.rate, r.available - (if Step(b, now).0 then 1.0 else 0.0), now)
  {
  }

  /** The level one request later: perhaps a token spent, then `gap` seconds of refill. */
  function NextLevel(level: real, spend: bool, gap: real, rate: real): real {
    Min(level - (if spend then 1.0 else 0.0) + gap * rate, rate)
  }

  lemma LevelNext(born: real, rps: nat, ts: seq<real>, n: nat)
    requires Monotone(born, ts) && n + 1 < |ts|
    ensures Level(born, rps, ts, n + 1) ==
            NextLevel(Level(born, rps, ts, n), Admitted(born, rps, ts, n), Elapsed(ts[n], ts[n + 1]), rps as real)
  {
    hide Step;
    var before := ts[..n];
    assert ts[..n + 1][..n] == before;
    StepSpends(After(born, rps, before), ts[n]);
    RateKept(born, rps, before);
  }

  lemma LevelNextAtMost(born: real, rps: nat, ts: seq<real>, n: nat)
    requires Monotone(born, ts) && n + 1 < |ts|
    ensures var spent := if Admitted(born, rps, ts, n) then 1.0 else 0.0;
            var refilled := Level(born, rps, ts, n) - spent + Gain(rps, ts[n], ts[n + 1]);
            && Level(born, rps, ts, n + 1) <= refilled && Level(born, rps, ts, n + 1) <= rps as real
            && (Level(born, rps, ts, n + 1) == refilled || Level(born, rps, ts, n + 1) == rps as real)
  {
    hide Level, Admitted;
    LevelNext(born, rps, ts, n);
  }

  lemma {:induction false} RateKept(born: real, rps: nat, ts: seq<real>)
    ensures After(born, rps, ts).rate == rps as real
  {
    if ts != [] {
      RateKept(born, rps, ts[..|ts| - 1]);
    }
  }

  /** No earlier start leaves more than the level ... */
  lemma {:induction false} LevelBelow(born: real, rps: nat, ts: seq<real>, j: nat, n: nat)
    requires Monotone(born, ts) && j <= n < |ts|
    ensures Level(born, rps, ts, n) <= Budget(rps, ts[j], ts[n]) - Count(born, rps, ts, j, n) as real
    decreases n
  {
    hide Level, Admitted, Budget, Gain;
    if n == 0 {
      LevelStart(born, rps, ts);
      BudgetGrows(rps, ts[0], ts[0], ts[0]);
    } else {
      LevelNextAtMost(born, rps, ts, n - 1);
      BudgetGrows(rps, ts[j], ts[n - 1], ts[n]);
      BudgetGrows(rps, ts[n], ts[n], ts[n]);
      if j < n {
        LevelBelow(born, rps, ts, j, n - 1);
      }
    }
  }

  /** ... and some start leaves exactly the level: it is the minimum over starts. */
  lemma {:induction false} LevelAttained(born: real, rps: nat, ts: seq<real>, n: nat) returns (j: nat)
    requires Monotone(born, ts) && n < |ts|
    ensures j <= n
    ensures Level(born, rps, ts, n) == Budget(rps, ts[j], ts[n]) - Count(born, rps, ts, j, n) as real
  {
    hide Level, Admitted, Budget, Gain;
    BudgetGrows(rps, ts[n], ts[n], ts[n]);
    j := n;
    if n == 0 {
      LevelStart(born, rps, ts);
    } else {
      LevelNextAtMost(born, rps, ts, n - 1);
      if Level(born, rps, ts, n) < rps as real {
        j := LevelAttained(born, rps, ts, n - 1);
        BudgetGrows(rps, ts[j], ts[n - 1], ts[n]);
      }
    }
  }

  /** Exactness: a request is admitted iff, from every earlier request on, admitting it too
      stays within a full bucket plus the refill since. */
  lemma BucketExactness(born: real, rps: nat, ts: seq<real>, n: nat)
    requires Monotone(born, ts) && n < |ts|
    ensures Admitted(born, rps, ts, n) <==>
            forall j | 0 <= j <= n :: Count(born, rps, ts, j, n) as real + 1.0 <= Budget(rps, ts[j], ts[n])
  {
    hide Level, Admitted, Budget, Count;
    AdmittedByLevel(born, rps, ts, n);
    forall j: nat | j <= n
      ensures Level(born, rps, ts, n) <= Budget(rps, ts[j], ts[n]) - Count(born, rps, ts, j, n) as real
    {
      LevelBelow(born, rps, ts, j, n);
    }
    if !Admitted(born, rps, ts, n) {
      var j := LevelAttained(born, rps, ts, n);
      assert Count(born, rps, ts, j, n) as real + 1.0 > Budget(rps, ts[j], ts[n]);
    }
  }

  /** No window of requests, however placed, has more than `rps + rps * T` admissions. */
  lemma {:induction false} WindowBound(born: real, rps: nat, ts: seq<real>, i: nat, k: nat)
    requires Monotone(born, ts) && i < k <= |ts|
    ensures Count(born, rps, ts, i, k) as real <= Budget(rps, ts[i], ts[k - 1])
    decreases k
  {
    hide Admitted, Budget;
    if Admitted(born, rps, ts, k - 1) {
      BucketExactness(born, rps, ts, k - 1);
    } else if i < k - 1 {
      WindowBound(born, rps, ts, i, k - 1);
      BudgetGrows(rps, ts[i], ts[k - 2], ts[k - 1]);
    } else {
      BudgetGrows(rps, ts[i], ts[i], ts[i]);
    }
  }

  /** A client that stays at its rate is never rejected. */
  lemma {:induction false} PacedRequestsPass(born: real, rps: nat, ts: seq<real>, n: nat)
    requires Monotone(born, ts) && n < |ts|
    requires rps >= 1
    requires forall i | 0 < i <= n :: (ts[i] - ts[i - 1]) * rps as real >= 1.0
    ensures Admitted(born, rps, ts, n)
  {
    hide Level, Admitted;
    AdmittedByLevel(born, rps, ts, n);
    if n == 0 {
      LevelStart(born, rps, ts);
    } else {
      PacedRequestsPass(born, rps, ts, n - 1);
      AdmittedByLevel(born, rps, ts, n - 1);
      LevelNext(born, rps, ts, n - 1);
    }
  }

  // ----- greedy admission is optimal -----

  /** The level before request `n` when admissions follow `choice` instead. */
  function ChosenLevel(born: real, rps: nat, ts: seq<real>, choice: seq<bool>, n: nat): real
    requires n < |ts| == |choice|
  {
    if n == 0 then Min(rps as real + Elapsed(born, ts[0]) * rps as real, rps as real)
    else
      NextLevel(ChosenLevel(born, rps, ts, choice, n - 1), choice[n - 1], Elapsed(ts[n - 1], ts[n]), rps as real)
  }

  predicate NeverOverdraws(born: real, rps: nat, ts: seq<real>, choice: seq<bool>)
    requires |ts| == |choice|
  {
    forall n | 0 <= n < |ts| && choice[n] :: ChosenLevel(born, rps, ts, choice, n) >= 1.0
  }

  function Chosen(choice: seq<bool>, n: nat): nat
    requires n <= |choice|
  {
    if n == 0 then 0 else Chosen(choice, n - 1) + if choice[n - 1] then 1 else 0
  }

  lemma ElapsedNonNegative(s: real, t: real)
    ensures Elapsed(s, t) >= 0.0
  {
  }

  lemma ChosenStart(born: real, rps: nat, ts: seq<real>, choice: seq<bool>)
    requires Monotone(born, ts) && 0 < |ts| == |choice|
    ensures ChosenLevel(born, rps, ts, choice, 0) == rps as real
  {
    assert (ts[0] - born) * rps as real >= 0.0;
  }

  lemma ExchangeStep(g: real, o: real, lead: int, admit: bool, choose: bool, gap: real, rate: real)
    requires lead >= 0 && g + lead as real >= o && gap >= 0.0 && rate >= 0.0
    requires (admit <==> g >= 1.0) && (choose ==> o >= 1.0)
    ensures var lead' := lead + (if admit then 1 else 0) - if choose then 1 else 0;
            lead' >= 0 && NextLevel(g, admit, gap, rate) + lead' as real >= NextLevel(o, choose, gap, rate)
  {
    assert gap * rate >= 0.0;
  }

  /** The exchange invariant: the greedy bucket is never behind in admissions, and what it
      lacks in tokens it has already converted into admissions. */
  lemma {:induction false} GreedyLeads(born: real, rps: nat, ts: seq<real>, choice: seq<bool>, n: nat)
    requires Monotone(born, ts) && |ts| == |choice| && NeverOverdraws(born, rps, ts, choice) && n < |ts|
    ensures var lead := Count(born, rps, ts, 0, n) - Chosen(choice, n);
            lead >= 0 && Level(born, rps, ts, n) + lead as real >= ChosenLevel(born, rps, ts, choice, n)
  {
    hide Level, Admitted, NextLevel, Elapsed;
    if n == 0 {
      LevelStart(born, rps, ts);
      ChosenStart(born, rps, ts, choice);
    } else {
      GreedyLeads(born, rps, ts, choice, n - 1);
      LevelNext(born, rps, ts, n - 1);
      AdmittedByLevel(born, rps, ts, n - 1);
      ElapsedNonNegative(ts[n - 1], ts[n]);
      ExchangeStep(Level(born, rps, ts, n - 1), ChosenLevel(born, rps, ts, choice, n - 1),
                   Count(born, rps, ts, 0, n - 1) - Chosen(choice, n - 1),
                   Admitted(born, rps, ts, n - 1), choice[n - 1], Elapsed(ts[n - 1], ts[n]), rps as real);
    }
  }

  /** Optimality: on every prefix, no policy that never overdraws the same refilling bucket
      admits more requests. */
  lemma GreedyIsOptimal(born: real, rps: nat, ts: seq<real>, choice: seq<bool>, n: nat)
    requires Monotone(born, ts) && |ts| == |choice| && NeverOverdraws(born, rps, ts, choice) && n <= |ts|
    ensures Chosen(choice, n) <= Count(born, rps, ts, 0, n)
  {
    hide Level, Admitted;
    if n > 0 {
      GreedyLeads(born, rps, ts, choice, n - 1);
      AdmittedByLevel(born, rps, ts, n - 1);
      assert choice[n - 1] ==> ChosenLevel(born, rps, ts, choice, n - 1) >= 1.0;
    }
  }

  // ----- the limiter over interleaved keys -----

  datatype Event = Check(key: string, rps: nat, now: real) | Forget(key: string)

  function Run(events: seq<Event>): map<string, Bucket> {
    if events == [] then map[]
    else
      var before := Run(events[..|events| - 1]);
      match events[|events| - 1]
      case Check(key, rps, now) => CheckStep(before, key, rps, now).1
      case Forget(key) => before - {key}
  }

  /** The key's own checks since it was last forgotten. */
  function Live(events: seq<Event>, key: string): seq<(nat, real)> {
    if events == [] then []
    else
      var before := Live(events[..|events| - 1], key);
      match events[|events| - 1]
      case Check(k, rps, now) => if k == key then before + [(rps, now)] else before
      case Forget(k) => if k == key then [] else before
  }

  function Times(checks: seq<(nat, real)>): seq<real> {
    seq(|checks|, i requires 0 <= i < |checks| => checks[i].1)
  }

  /** A key's bucket is that of a lone bucket fed only the key's live checks, and it keeps the
      rate of the first of them. */
  lemma {:induction false} LimiterRefinesLoneBucket(events: seq<Event>, key: string)
    ensures key in Run(events) <==> Live(events, key) != []
    ensures key in Run(events) ==>
              var live := Live(events, key);
              Run(events)[key] == After(live[0].1, live[0].0, Times(live))
  {
    hide Step;
    if events != [] {
      var before := events[..|events| - 1];
      LimiterRefinesLoneBucket(before, key);
      var last := events[|events| - 1];
      if last.Check? && last.key == key {
        var live := Live(before, key);
        var ts := Times(live + [(last.rps, last.now)]);
        assert ts[..|ts| - 1] == Times(live);
      }
    }
  }

  /** So the limiter's answer to a check is the lone bucket's, whatever other keys do. */
  lemma LimiterDecision(events: seq<Event>, key: string, rps: nat, now: real)
    ensures var live := Live(events, key) + [(rps, now)];
            CheckStep(Run(events), key, rps, now).0 == Admitted(live[0].1, live[0].0, Times(live), |live| - 1)
  {
    hide Step;
    LimiterRefinesLoneBucket(events, key);
    var live := Live(events, key) + [(rps, now)];
    assert Times(live)[..|live| - 1] == Times(Live(events, key));
  }
}
