/** The spend check as the proxy uses it: checked when a request is admitted, recorded when it
    completes, with any number of other requests in between. */
module Overspend {
  import opened Periods
  import opened Spend

  /** One atomic step at time `now`. A request that passes its check is pending until it is
      charged or aborts without a charge. */
  datatype Step =
    | Admit(key: string, now: int)
    | Complete(key: string, cost: real, now: int)
    | Abort(key: string, now: int)
    | Revoke(key: string, now: int)

  datatype Proxy = Proxy(entries: Entries, pending: map<string, nat>, clock: int)

  type Limits = map<string, SpendLimit>

  function Pending(s: Proxy, key: string): nat {
    if key in s.pending then s.pending[key] else 0
  }

  function WithPending(s: Proxy, key: string, n: nat): Proxy {
    s.(pending := s.pending[key := n])
  }

  predicate Enabled(s: Proxy, step: Step, limits: Limits) {
    && s.clock <= step.now && Timely(step.now)
    && step.key in limits
    && (step.Complete? || step.Abort? ==> Pending(s, step.key) > 0)
  }

  function Apply(s: Proxy, step: Step, limits: Limits): Proxy
    requires Enabled(s, step, limits)
  {
    var next := match step
      case Admit(key, now) =>
        if PreCheck(s.entries, key, limits[key], now) then WithPending(s, key, Pending(s, key) + 1) else s
      case Complete(key, cost, now) =>
        WithPending(s, key, Pending(s, key) - 1).(entries := Recorded(s.entries, key, limits[key].period, cost, now))
      case Abort(key, _) => WithPending(s, key, Pending(s, key) - 1)
      case Revoke(key, _) => s.(entries := s.entries - {key});
    next.(clock := step.now)
  }

  /** Runs from the empty tracker in which every step is enabled, costs lie between 0 and `c`,
      and no key ever has more than `k` requests pending. */
  predicate Legal(steps: seq<Step>, limits: Limits, k: nat, c: real)
    decreases |steps|, 0
  {
    steps == [] ||
    var before, last := steps[..|steps| - 1], steps[|steps| - 1];
    && Legal(before, limits, k, c)
    && Enabled(Exec(before, limits, k, c), last, limits)
    && (last.Complete? ==> 0.0 <= last.cost <= c)
    && Pending(Apply(Exec(before, limits, k, c), last, limits), last.key) <= k
  }

  function Exec(steps: seq<Step>, limits: Limits, k: nat, c: real): Proxy
    requires Legal(steps, limits, k, c)
    decreases |steps|, 1
  {
    if steps == [] then Proxy(map[], map[], 0)
    else Apply(Exec(steps[..|steps| - 1], limits, k, c), steps[|steps| - 1], limits)
  }

  function ClockOf(steps: seq<Step>): int {
    if steps == [] then 0 else steps[|steps| - 1].now
  }

  /** The moments of the key's own steps, and the last of them. */
  ghost function Own(steps: seq<Step>, key: string): iset<int> {
    if steps == [] then iset{}
    else
      var before, last := Own(steps[..|steps| - 1], key), steps[|steps| - 1];
      if last.key == key then before + iset{last.now} else before
  }

  function LastOwn(steps: seq<Step>, key: string): int {
    if steps == [] then 0
    else if steps[|steps| - 1].key == key then steps[|steps| - 1].now
    else LastOwn(steps[..|steps| - 1], key)
  }

  /** No period token comes back once it has been left. */
  ghost predicate Unreturning(period: Period, moments: iset<int>) {
    forall t0, t1, t2 | t0 in moments && t1 in moments && t2 in moments && t0 <= t1 <= t2 ::
      Token(period, t0) == Token(period, t2) ==> Token(period, t1) == Token(period, t2)
  }

  /** Room left by `m` pending requests out of `k`. */
  function Slack(k: nat, m: nat, c: real): real {
    (k - m) as real * c
  }

  lemma SlackStep(k: nat, m: nat, c: real)
    requires c >= 0.0
    ensures Slack(k, m, c) == Slack(k, m + 1, c) + c
    ensures m <= k ==> Slack(k, m, c) >= 0.0
    ensures Slack(k, k, c) == 0.0 && Slack(k, 0, c) == k as real * c
    ensures m <= k ==> Slack(k, m, c) <= k as real * c
  {
    assert (k - m) as real == (k - (m + 1)) as real + 1.0;
    assert m as real * c >= 0.0;
    assert (k - m) as real * c == k as real * c - m as real * c;
  }

  /** What every step keeps, seen from the key's latest own moment `last`: its entry carries the
      token of some own moment, and the total of the period leaves room for every pending
      request. */
  ghost predicate Inv(s: Proxy, limits: Limits, key: string, k: nat, c: real, own: iset<int>, last: int)
    requires key in limits
  {
    && last <= s.clock
    && (forall t | t in own :: last in own && t <= last)
    && Pending(s, key) <= k
    && (key in s.entries ==> exists t :: t in own && Token(limits[key].period, t) == s.entries[key].token)
    && CurrentUsd(s.entries, key, limits[key].period, last) < limits[key].amount + Slack(k, Pending(s, key), c)
  }

  /** Letting time pass keeps the bound: a new period starts from zero, and no old one returns. */
  lemma TimePasses(s: Proxy, limits: Limits, key: string, k: nat, c: real, own: iset<int>, last: int, now: int)
    requires key in limits && limits[key].amount > 0.0 && c >= 0.0
    requires Inv(s, limits, key, k, c, own, last)
    requires last <= now && Unreturning(limits[key].period, own + iset{now})
    ensures CurrentUsd(s.entries, key, limits[key].period, now) < limits[key].amount + Slack(k, Pending(s, key), c)
  {
    hide Token, Slack;
    SlackStep(k, Pending(s, key), c);
  }

  lemma StepKeepsInv(s: Proxy, step: Step, limits: Limits, key: string, k: nat, c: real, own: iset<int>, last: int)
    requires key in limits && limits[key].amount > 0.0 && c >= 0.0
    requires Inv(s, limits, key, k, c, own, last) && Enabled(s, step, limits)
    requires step.Complete? ==> 0.0 <= step.cost <= c
    requires Pending(Apply(s, step, limits), step.key) <= k
    requires step.key == key ==> Unreturning(limits[key].period, own + iset{step.now})
    ensures step.key == key ==> Inv(Apply(s, step, limits), limits, key, k, c, own + iset{step.now}, step.now)
    ensures step.key != key ==> Inv(Apply(s, step, limits), limits, key, k, c, own, last)
  {
    hide Token, Slack, Unreturning;
    if step.key == key {
      TimePasses(s, limits, key, k, c, own, last, step.now);
      assert step.now in own + iset{step.now};
      SlackStep(k, Pending(s, key), c);
      SlackStep(k, Pending(s, key) + 1, c);
      if Pending(s, key) > 0 {
        SlackStep(k, Pending(s, key) - 1, c);
      }
    }
  }

  lemma FewerMomentsUnreturning(period: Period, fewer: iset<int>, moments: iset<int>)
    requires fewer <= moments && Unreturning(period, moments)
    ensures Unreturning(period, fewer)
  {
    hide Token;
  }

  lemma {:induction false} LegalRunsKeepInv(steps: seq<Step>, limits: Limits, key: string, k: nat, c: real)
    requires key in limits && limits[key].amount > 0.0 && c >= 0.0 && Legal(steps, limits, k, c)
    requires Unreturning(limits[key].period, Own(steps, key))
    ensures Inv(Exec(steps, limits, k, c), limits, key, k, c, Own(steps, key), LastOwn(steps, key))
  {
    hide Token, Slack, Enabled, Apply, Unreturning, Inv;
    if steps == [] {
      InitialInv(limits, key, k, c);
    } else {
      var before, last := steps[..|steps| - 1], steps[|steps| - 1];
      FewerMomentsUnreturning(limits[key].period, Own(before, key), Own(steps, key));
      LegalRunsKeepInv(before, limits, key, k, c);
      StepKeepsInv(Exec(before, limits, k, c), last, limits, key, k, c, Own(before, key), LastOwn(before, key));
    }
  }

  lemma InitialInv(limits: Limits, key: string, k: nat, c: real)
    requires key in limits && limits[key].amount > 0.0 && c >= 0.0
    ensures Inv(Proxy(map[], map[], 0), limits, key, k, c, iset{}, 0)
  {
    SlackStep(k, 0, c);
  }

  lemma {:induction false} LegalClock(steps: seq<Step>, limits: Limits, k: nat, c: real)
    requires Legal(steps, limits, k, c)
    ensures Exec(steps, limits, k, c).clock == ClockOf(steps) && Timely(ClockOf(steps))
  {
    hide Token;
    if steps != [] {
      LegalClock(steps[..|steps| - 1], limits, k, c);
    }
  }

  /** The total that `BoundedOverspend` bounds. */
  function TotalAt(steps: seq<Step>, limits: Limits, key: string, k: nat, c: real, now: int): real
    requires key in limits && Legal(steps, limits, k, c)
  {
    CurrentUsd(Exec(steps, limits, k, c).entries, key, limits[key].period, now)
  }

  /** Bounded overspend: in every interleaving of checks, charges, aborts, revocations and period
      rollovers, at every later moment, the period total stays below the limit plus one maximal
      charge per request that may be pending at once, unless a token of the key's own steps has
      come back after being left. */
  lemma BoundedOverspend(steps: seq<Step>, limits: Limits, key: string, k: nat, c: real, now: int)
    requires key in limits && limits[key].amount > 0.0 && c >= 0.0 && Legal(steps, limits, k, c)
    requires ClockOf(steps) <= now && Unreturning(limits[key].period, Own(steps, key) + iset{now})
    ensures TotalAt(steps, limits, key, k, c, now) < limits[key].amount + k as real * c
  {
    var s := Exec(steps, limits, k, c);
    var own, last := Own(steps, key), LastOwn(steps, key);
    hide Token, Slack, Exec, Legal, Unreturning;
    FewerMomentsUnreturning(limits[key].period, own, own + iset{now});
    LegalRunsKeepInv(steps, limits, key, k, c);
    LegalClock(steps, limits, k, c);
    TimePasses(s, limits, key, k, c, own, last, now);
    SlackStep(k, Pending(s, key), c);
  }

  ghost predicate NothingSpent(s: Proxy, k: nat) {
    && (forall key | key in s.entries :: s.entries[key].usd == 0.0)
    && (k == 0 ==> forall key | key in s.pending :: s.pending[key] == 0)
  }

  lemma StepSpendsNothing(s: Proxy, step: Step, limits: Limits, k: nat)
    requires Enabled(s, step, limits) && NothingSpent(s, k)
    requires step.Complete? ==> k == 0 || step.cost == 0.0
    requires Pending(Apply(s, step, limits), step.key) <= k
    ensures NothingSpent(Apply(s, step, limits), k)
  {
    hide Token, PreCheck;
  }

  /** Where no request may be pending, or none costs anything, nothing is ever spent. */
  lemma {:induction false} NothingToSpend(steps: seq<Step>, limits: Limits, k: nat, c: real)
    requires Legal(steps, limits, k, c) && (k == 0 || c == 0.0)
    ensures NothingSpent(Exec(steps, limits, k, c), k)
  {
    if steps != [] {
      var before, last := steps[..|steps| - 1], steps[|steps| - 1];
      hide Apply, Enabled, NothingSpent;
      NothingToSpend(before, limits, k, c);
      StepSpendsNothing(Exec(before, limits, k, c), last, limits, k);
    }
  }

  /** The bound holds on every run whose steps on the key, and whose end, are at these moments. */
  ghost predicate AlwaysBounded(moments: iset<int>, limits: Limits, key: string, k: nat, c: real)
    requires key in limits
  {
    forall steps, now | Legal(steps, limits, k, c) && Own(steps, key) <= moments && now in moments
                        && ClockOf(steps) <= now ::
      TotalAt(steps, limits, key, k, c, now) < limits[key].amount + k as real * c
  }

  /** Exactly when spend is bounded: no token comes back among the moments at which the key is
      used, or nothing can be spent at all. */
  lemma OverspendExactly(moments: iset<int>, limits: Limits, key: string, k: nat, c: real)
    requires key in limits && limits[key].amount > 0.0 && c >= 0.0
    requires forall t | t in moments :: Timely(t)
    ensures AlwaysBounded(moments, limits, key, k, c) <==>
            k == 0 || c == 0.0 || Unreturning(limits[key].period, moments)
  {
    hide Token, Legal, Exec, Own, Unreturning, TotalAt;
    var period := limits[key].period;
    if k == 0 || c == 0.0 {
      forall steps, now | Legal(steps, limits, k, c)
        ensures TotalAt(steps, limits, key, k, c, now) < limits[key].amount + k as real * c
      {
        NoTotal(steps, limits, key, k, c, now);
      }
    } else if Unreturning(period, moments) {
      forall steps, now | Legal(steps, limits, k, c) && Own(steps, key) <= moments && now in moments
                          && ClockOf(steps) <= now
        ensures TotalAt(steps, limits, key, k, c, now) < limits[key].amount + k as real * c
      {
        FewerMomentsUnreturning(period, Own(steps, key) + iset{now}, moments);
        BoundedOverspend(steps, limits, key, k, c, now);
      }
    } else {
      var t0, t1, t2 := Returning(period, moments);
      var run := Overrun(limits, key, k, c, t0, t1, t2);
    }
  }

  lemma NoTotal(steps: seq<Step>, limits: Limits, key: string, k: nat, c: real, now: int)
    requires key in limits && limits[key].amount > 0.0 && Legal(steps, limits, k, c) && (k == 0 || c == 0.0)
    ensures TotalAt(steps, limits, key, k, c, now) < limits[key].amount + k as real * c
  {
    hide Token, Legal, Exec;
    NothingToSpend(steps, limits, k, c);
  }

  lemma Returning(period: Period, moments: iset<int>) returns (t0: int, t1: int, t2: int)
    requires !Unreturning(period, moments)
    ensures t0 in moments && t1 in moments && t2 in moments && t0 <= t1 <= t2
    ensures Token(period, t0) == Token(period, t2) != Token(period, t1)
  {
    hide Token;
    t0, t1, t2 :| t0 in moments && t1 in moments && t2 in moments && t0 <= t1 <= t2
      && Token(period, t0) == Token(period, t2) && Token(period, t1) != Token(period, t2);
  }

  lemma Returns(period: Period, t0: int, t1: int, t2: int)
    requires t0 <= t1 <= t2 && Token(period, t0) == Token(period, t2) != Token(period, t1)
    ensures !Unreturning(period, iset{t0, t1, t2})
  {
    hide Token;
    var moments := iset{t0, t1, t2};
    assert t0 in moments && t1 in moments && t2 in moments;
  }

  // ----- the proxy is the tracker plus a count -----

  /** What a run writes to the tracker: a charge per completion and a forget per revocation. */
  function Writes(steps: seq<Step>, limits: Limits): seq<Event> {
    if steps == [] then []
    else
      var before := Writes(steps[..|steps| - 1], limits);
      match steps[|steps| - 1]
      case Complete(key, cost, now) =>
        if key in limits then before + [Charge(key, limits[key].period, cost, now)] else before
      case Revoke(key, _) => before + [Forget(key)]
      case _ => before
  }

  /** Admitted requests of the key that have neither completed nor aborted: one more for every
      check at which the tracker, having seen the writes so far, had budget left. */
  function InFlight(steps: seq<Step>, limits: Limits, key: string): int {
    if steps == [] then 0
    else
      var before, last := steps[..|steps| - 1], steps[|steps| - 1];
      InFlight(before, limits, key) +
      if last.key != key then 0
      else
        match last
        case Admit(_, now) =>
          if key in limits && PreCheck(Run(Writes(before, limits)), key, limits[key], now) then 1 else 0
        case Complete(_, _, _) => -1
        case Abort(_, _) => -1
        case Revoke(_, _) => 0
  }

  lemma RunSnoc(events: seq<Event>, e: Event)
    ensures Run(events + [e]) == Wrote(Run(events), e)
  {
    hide Wrote;
    assert (events + [e])[..|events|] == events;
  }

  /** Over every run, the entries are those of a tracker that got exactly these writes, whatever
      was checked or aborted, and a request counts as pending from its check to its end. */
  lemma {:induction false} ProxyIsLedger(steps: seq<Step>, limits: Limits, key: string, k: nat, c: real)
    requires Legal(steps, limits, k, c)
    ensures Exec(steps, limits, k, c).entries == Run(Writes(steps, limits))
    ensures Pending(Exec(steps, limits, k, c), key) == InFlight(steps, limits, key)
  {
    hide Token, Recorded, PreCheck, Run;
    if steps == [] {
      EmptyLedger();
    } else {
      var before, last := steps[..|steps| - 1], steps[|steps| - 1];
      ProxyIsLedger(before, limits, key, k, c);
      match last
      case Complete(key, cost, now) => RunSnoc(Writes(before, limits), Charge(key, limits[key].period, cost, now));
      case Revoke(key, _) => RunSnoc(Writes(before, limits), Forget(key));
      case _ =>
    }
  }

  lemma EmptyLedger()
    ensures Run([]) == map[]
  {
  }

  // ----- which moments are safe -----

  /** Day and Month tokens never come back. */
  lemma DayMonthUnreturning(period: Period, moments: iset<int>)
    requires period != Week && forall t | t in moments :: Timely(t)
    ensures Unreturning(period, moments)
  {
    hide Token;
    forall t0, t1, t2 | t0 in moments && t1 in moments && t2 in moments && t0 <= t1 <= t2
      ensures Token(period, t0) == Token(period, t2) ==> Token(period, t1) == Token(period, t2)
    {
      DayMonthTokens(period, t0, t1);
      DayMonthTokens(period, t1, t2);
    }
  }

  /** Week tokens do not come back on regular days, nor within 358 days. */
  lemma WeekUnreturning(moments: iset<int>)
    requires forall t | t in moments :: Timely(t)
    requires (forall t | t in moments :: Regular(t))
          || (forall t, u | t in moments && u in moments :: DayNumber(u) < DayNumber(t) + 358)
    ensures Unreturning(Week, moments)
  {
    hide Token, Regular, DayNumber;
    forall t0, t1, t2 | t0 in moments && t1 in moments && t2 in moments && t0 <= t1 <= t2
      ensures Token(Week, t0) == Token(Week, t2) ==> Token(Week, t1) == Token(Week, t2)
    {
      if Regular(t0) && Regular(t1) && Regular(t2) {
        RegularTokensAdvance(t0, t1);
        RegularTokensAdvance(t1, t2);
      } else if Token(Week, t0) == Token(Week, t2) {
        WeekTokensReturnLate(t0, t2);
        SameYearSameToken(t0, t1, t2);
      }
    }
  }

  lemma {:induction false} OwnTimely(steps: seq<Step>, limits: Limits, key: string, k: nat, c: real)
    requires Legal(steps, limits, k, c)
    ensures forall t | t in Own(steps, key) :: Timely(t)
  {
    hide Token, Apply, Exec;
    if steps != [] {
      OwnTimely(steps[..|steps| - 1], limits, key, k, c);
    }
  }

  /** So for Day and Month limits the bound holds on every run. */
  lemma BoundedDayMonthOverspend(steps: seq<Step>, limits: Limits, key: string, k: nat, c: real, now: int)
    requires key in limits && limits[key].amount > 0.0 && limits[key].period != Week
    requires c >= 0.0 && Legal(steps, limits, k, c) && ClockOf(steps) <= now && Timely(now)
    ensures TotalAt(steps, limits, key, k, c, now) < limits[key].amount + k as real * c
  {
    hide Exec, Legal, Unreturning, Token;
    OwnTimely(steps, limits, key, k, c);
    DayMonthUnreturning(limits[key].period, Own(steps, key) + iset{now});
    BoundedOverspend(steps, limits, key, k, c, now);
  }

  // ----- one step at a time -----

  function Times(n: nat, step: Step): seq<Step> {
    if n == 0 then [] else Times(n - 1, step) + [step]
  }

  lemma AdmitOnce(s: Proxy, limits: Limits, key: string, now: int)
    requires key in limits && s.clock <= now && Timely(now) && PreCheck(s.entries, key, limits[key], now)
    ensures Enabled(s, Admit(key, now), limits)
    ensures var t := Apply(s, Admit(key, now), limits);
            t.clock == now && t.entries == s.entries && Pending(t, key) == Pending(s, key) + 1
  {
    hide PreCheck;
  }

  lemma CompleteOnce(s: Proxy, limits: Limits, key: string, cost: real, now: int)
    requires key in limits && s.clock <= now && Timely(now) && Pending(s, key) > 0
    ensures Enabled(s, Complete(key, cost, now), limits)
    ensures var t := Apply(s, Complete(key, cost, now), limits);
            && t.clock == now && Pending(t, key) == Pending(s, key) - 1
            && t.entries == Recorded(s.entries, key, limits[key].period, cost, now)
  {
    hide Recorded;
  }

  lemma RecordAdds(entries: Entries, key: string, period: Period, cost: real, now: int)
    ensures CurrentUsd(Recorded(entries, key, period, cost, now), key, period, now)
         == CurrentUsd(entries, key, period, now) + cost
  {
    hide Token;
  }

  lemma Extend(steps: seq<Step>, step: Step, limits: Limits, k: nat, c: real)
    requires Legal(steps, limits, k, c) && Enabled(Exec(steps, limits, k, c), step, limits)
    requires step.Complete? ==> 0.0 <= step.cost <= c
    requires Pending(Apply(Exec(steps, limits, k, c), step, limits), step.key) <= k
    ensures Legal(steps + [step], limits, k, c)
    ensures Exec(steps + [step], limits, k, c) == Apply(Exec(steps, limits, k, c), step, limits)
    ensures Own(steps + [step], step.key) == Own(steps, step.key) + iset{step.now}
  {
    assert (steps + [step])[..|steps|] == steps;
  }

  /** With no request pending and budget left, `n` admissions in a row all pass. */
  lemma {:induction false} AdmitMany(
    steps: seq<Step>, limits: Limits, key: string, k: nat, c: real, now: int, n: nat)
    requires Legal(steps, limits, k, c) && key in limits && n <= k
    requires Exec(steps, limits, k, c).clock <= now && Timely(now) && Pending(Exec(steps, limits, k, c), key) == 0
    requires PreCheck(Exec(steps, limits, k, c).entries, key, limits[key], now)
    ensures var run := steps + Times(n, Admit(key, now));
            && Legal(run, limits, k, c)
            && Exec(run, limits, k, c).entries == Exec(steps, limits, k, c).entries
            && Pending(Exec(run, limits, k, c), key) == n
            && Exec(run, limits, k, c).clock <= now
            && Own(run, key) <= Own(steps, key) + iset{now}
  {
    hide Token, PreCheck, Legal, Exec, Apply, Enabled, Pending, Own;
    if n == 0 {
      assert steps + Times(0, Admit(key, now)) == steps;
    } else {
      var shorter := steps + Times(n - 1, Admit(key, now));
      assert steps + Times(n, Admit(key, now)) == shorter + [Admit(key, now)];
      AdmitMany(steps, limits, key, k, c, now, n - 1);
      AdmitOnce(Exec(shorter, limits, k, c), limits, key, now);
      Extend(shorter, Admit(key, now), limits, k, c);
    }
  }

  lemma {:induction false} CompleteMany(
    steps: seq<Step>, limits: Limits, key: string, k: nat, c: real, now: int, n: nat)
    requires Legal(steps, limits, k, c) && key in limits && c >= 0.0
    requires Exec(steps, limits, k, c).clock <= now && Timely(now) && n <= Pending(Exec(steps, limits, k, c), key) <= k
    ensures var run := steps + Times(n, Complete(key, c, now));
            && Legal(run, limits, k, c)
            && Exec(run, limits, k, c).clock <= now
            && Pending(Exec(run, limits, k, c), key) == Pending(Exec(steps, limits, k, c), key) - n
            && TotalAt(run, limits, key, k, c, now) == TotalAt(steps, limits, key, k, c, now) + n as real * c
            && Own(run, key) <= Own(steps, key) + iset{now}
  {
    hide Token, Legal, Exec, Apply, Enabled, CurrentUsd, Pending, Own, Recorded;
    if n == 0 {
      assert steps + Times(0, Complete(key, c, now)) == steps;
    } else {
      var shorter := steps + Times(n - 1, Complete(key, c, now));
      assert steps + Times(n, Complete(key, c, now)) == shorter + [Complete(key, c, now)];
      CompleteMany(steps, limits, key, k, c, now, n - 1);
      CompleteOnce(Exec(shorter, limits, k, c), limits, key, c, now);
      Extend(shorter, Complete(key, c, now), limits, k, c);
      RecordAdds(Exec(shorter, limits, k, c).entries, key, limits[key].period, c, now);
      assert n as real * c == (n - 1) as real * c + c;
    }
  }

  /** `k` requests that pass their check at `t` and complete, at maximal cost, at `now`. */
  function Burst(key: string, k: nat, c: real, t: int, now: int): seq<Step> {
    Times(k, Admit(key, t)) + Times(k, Complete(key, c, now))
  }

  lemma BurstAdds(steps: seq<Step>, limits: Limits, key: string, k: nat, c: real, t: int, now: int)
    requires Legal(steps, limits, k, c) && key in limits && c >= 0.0 && t <= now && Timely(t) && Timely(now)
    requires Exec(steps, limits, k, c).clock <= t && Pending(Exec(steps, limits, k, c), key) == 0
    requires PreCheck(Exec(steps, limits, k, c).entries, key, limits[key], t)
    ensures var run := steps + Burst(key, k, c, t, now);
            && Legal(run, limits, k, c)
            && Exec(run, limits, k, c).clock <= now && Pending(Exec(run, limits, k, c), key) == 0
            && TotalAt(run, limits, key, k, c, now) == TotalAt(steps, limits, key, k, c, now) + k as real * c
            && Own(run, key) <= Own(steps, key) + iset{t, now}
  {
    hide Token, Legal, Exec, Pending, Own, PreCheck, CurrentUsd, Times;
    AdmitMany(steps, limits, key, k, c, t, k);
    CompleteMany(steps + Times(k, Admit(key, t)), limits, key, k, c, now, k);
    assert steps + Burst(key, k, c, t, now) == steps + Times(k, Admit(key, t)) + Times(k, Complete(key, c, now));
  }

  // ----- the bound is reached, and passed when a token comes back -----

  /** The bound cannot be lowered: from any total below the limit with nothing pending, `k`
      checks followed by `k` maximal charges add all of `k * c`. */
  lemma OverspendIsAttained(steps: seq<Step>, limits: Limits, key: string, k: nat, c: real, now: int)
    requires Legal(steps, limits, k, c) && key in limits && c >= 0.0
    requires Exec(steps, limits, k, c).clock <= now && Timely(now) && Pending(Exec(steps, limits, k, c), key) == 0
    requires TotalAt(steps, limits, key, k, c, now) < limits[key].amount
    ensures var run := steps + Burst(key, k, c, now, now);
            && Legal(run, limits, k, c)
            && TotalAt(run, limits, key, k, c, now) == TotalAt(steps, limits, key, k, c, now) + k as real * c
  {
    hide Token, Legal, Exec;
    BurstAdds(steps, limits, key, k, c, now, now);
  }

  lemma EmptyRun(limits: Limits, key: string, k: nat, c: real, now: int)
    requires key in limits
    ensures Legal([], limits, k, c) && Exec([], limits, k, c) == Proxy(map[], map[], 0) && Own([], key) == iset{}
    ensures TotalAt([], limits, key, k, c, now) == 0.0
  {
    hide Token;
  }

  /** Bursts at `t` until the limit is reached, or `n` of them. */
  lemma {:induction false} FillUp(limits: Limits, key: string, k: nat, c: real, t: int, n: nat) returns (run: seq<Step>)
    requires key in limits && limits[key].amount > 0.0 && k >= 1 && c > 0.0 && Timely(t)
    ensures Legal(run, limits, k, c) && Own(run, key) <= iset{t}
    ensures Exec(run, limits, k, c).clock <= t && Pending(Exec(run, limits, k, c), key) == 0
    ensures TotalAt(run, limits, key, k, c, t) >= limits[key].amount
         || TotalAt(run, limits, key, k, c, t) >= Slack(n, 0, c)
  {
    hide Token, Legal, Exec, Own, Burst, TotalAt, Slack;
    if n == 0 {
      run := [];
      EmptyRun(limits, key, k, c, t);
      SlackStep(n, 0, c);
    } else {
      run := FillUp(limits, key, k, c, t, n - 1);
      if TotalAt(run, limits, key, k, c, t) < limits[key].amount {
        HasBudget(run, limits, key, k, c, t);
        BurstAdds(run, limits, key, k, c, t, t);
        OneMoreCharge(n, k, c);
        run := run + Burst(key, k, c, t, t);
      }
    }
  }

  lemma HasBudget(steps: seq<Step>, limits: Limits, key: string, k: nat, c: real, now: int)
    requires key in limits && Legal(steps, limits, k, c) && TotalAt(steps, limits, key, k, c, now) < limits[key].amount
    ensures PreCheck(Exec(steps, limits, k, c).entries, key, limits[key], now)
  {
    hide Token, Legal, Exec;
  }

  lemma OneMoreCharge(n: nat, k: nat, c: real)
    requires n >= 1 && k >= 1 && c > 0.0
    ensures Slack(n, 0, c) <= Slack(n - 1, 0, c) + k as real * c
  {
    assert n as real * c == (n - 1) as real * c + c;
    assert k as real * c >= c;
  }

  lemma ManyCharges(amount: real, c: real) returns (n: nat)
    requires amount > 0.0 && c > 0.0
    ensures Slack(n, 0, c) >= amount
  {
    var q := amount / c;
    assert q * c == amount && q > 0.0;
    n := q.Floor + 1;
    assert n as real >= q;
    assert n as real * c >= q * c;
  }

  /** If a token comes back, the limit can be used up at `t0`, `k` more requests pass their check
      at `t1` while another token is current, and all are charged to the old total at `t2`. */
  lemma Overrun(limits: Limits, key: string, k: nat, c: real, t0: int, t1: int, t2: int) returns (run: seq<Step>)
    requires key in limits && limits[key].amount > 0.0 && k >= 1 && c > 0.0
    requires t0 <= t1 <= t2 && Timely(t0) && Timely(t1) && Timely(t2)
    requires Token(limits[key].period, t0) == Token(limits[key].period, t2) != Token(limits[key].period, t1)
    ensures Legal(run, limits, k, c) && Own(run, key) <= iset{t0, t1, t2} && ClockOf(run) <= t2
    ensures TotalAt(run, limits, key, k, c, t2) >= limits[key].amount + k as real * c
  {
    hide Token, Legal, Exec, Own, Burst, Pending;
    var n := ManyCharges(limits[key].amount, c);
    run := FillUp(limits, key, k, c, t0, n);
    assert TotalAt(run, limits, key, k, c, t2) == TotalAt(run, limits, key, k, c, t0) >= limits[key].amount;
    BurstAdds(run, limits, key, k, c, t1, t2);
    run := run + Burst(key, k, c, t1, t2);
    LegalClock(run, limits, k, c);
  }

  // ----- the year end of 2024 -----

  /** With a Week limit, spend of January 2024 returns on 30 December: whatever the limit and the
      costs, a request admitted the day before can push the total past the bound. */
  lemma WeekOverspend(limits: Limits, key: string, k: nat, c: real) returns (run: seq<Step>)
    requires key in limits && limits[key].period == Week && limits[key].amount > 0.0 && k >= 1 && c > 0.0
    ensures Legal(run, limits, k, c) && ClockOf(run) <= DEC_30_2024
    ensures TotalAt(run, limits, key, k, c, DEC_30_2024) >= limits[key].amount + k as real * c
    ensures !Unreturning(Week, iset{JAN_1_2024, DEC_29_2024, DEC_30_2024})
  {
    hide Token, Legal, Exec, TotalAt;
    WeekTokenAtYearEnd();
    Returns(Week, JAN_1_2024, DEC_29_2024, DEC_30_2024);
    run := Overrun(limits, key, k, c, JAN_1_2024, DEC_29_2024, DEC_30_2024);
  }
}
