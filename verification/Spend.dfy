/** The spend tracker: cumulative USD per key, reset when the period token changes. */
module Spend {
  import opened Periods

  datatype SpendLimit = SpendLimit(amount: real, period: Period)

  datatype SpendState = SpendState(token: int, usd: real)

  type Entries = map<string, SpendState>

  /** An absent or stale entry has budget. */
  predicate PreCheck(entries: Entries, key: string, limit: SpendLimit, now: int) {
    key in entries && entries[key].token == Token(limit.period, now) ==> entries[key].usd < limit.amount
  }

  function Recorded(entries: Entries, key: string, period: Period, cost: real, now: int): Entries {
    var token := Token(period, now);
    var carried := if key in entries && entries[key].token == token then entries[key].usd else 0.0;
    entries[key := SpendState(token, carried + cost)]
  }

  function CurrentUsd(entries: Entries, key: string, period: Period, now: int): real {
    if key in entries && entries[key].token == Token(period, now) then entries[key].usd else 0.0
  }

  class SpendTracker {
    var entries: Entries

    constructor ()
      ensures entries == map[]
    {
      entries := map[];
    }

    method Check(key: string, limit: SpendLimit, now: int) returns (ok: bool)
      ensures ok == PreCheck(entries, key, limit, now)
    {
      hide Token;
      var token := Token(limit.period, now);
      if key in entries && entries[key].token == token {
        return entries[key].usd < limit.amount;
      }
      return true;
    }

    method Record(key: string, period: Period, cost: real, now: int)
      modifies this
      ensures entries == Recorded(old(entries), key, period, cost, now)
    {
      hide Token;
      var token := Token(period, now);
      var state := if key in entries then entries[key] else SpendState(token, 0.0);
      if state.token != token {
        state := SpendState(token, 0.0);
      }
      entries := entries[key := state.(usd := state.usd + cost)];
    }

    method Forget(key: string)
      modifies this
      ensures entries == old(entries) - {key}
    {
      entries := entries - {key};
    }
  }

  // ----- the ledger: what the tracker remembers of a history -----

  datatype Event = Charge(key: string, period: Period, cost: real, now: int) | Forget(key: string)

  function Wrote(entries: Entries, e: Event): Entries {
    match e
    case Charge(key, period, cost, now) => Recorded(entries, key, period, cost, now)
    case Forget(key) => entries - {key}
  }

  function Run(events: seq<Event>): Entries {
    if events == [] then map[] else Wrote(Run(events[..|events| - 1]), events[|events| - 1])
  }

  /** The key's own charges since it was last forgotten. */
  function Live(events: seq<Event>, key: string): seq<Event> {
    if events == [] then []
    else
      var before, last := Live(events[..|events| - 1], key), events[|events| - 1];
      if last.key != key then before else if last.Forget? then [] else before + [last]
  }

  predicate Charges(live: seq<Event>) {
    forall e | e in live :: e.Charge?
  }

  lemma {:induction false} LiveAreCharges(events: seq<Event>, key: string)
    ensures Charges(Live(events, key))
    ensures forall e | e in Live(events, key) :: e in events && e.key == key
  {
    if events != [] {
      LiveAreCharges(events[..|events| - 1], key);
    }
  }

  /** The cost of the longest run of charges at the end that all carry `token`. */
  function RunSum(live: seq<Event>, token: int): real
    requires Charges(live)
  {
    if live == [] || Token(live[|live| - 1].period, live[|live| - 1].now) != token then 0.0
    else RunSum(live[..|live| - 1], token) + live[|live| - 1].cost
  }

  /** In every history, `current_usd` is the sum of the key's latest unbroken run of charges
      with the current token, whatever other keys did. */
  lemma {:induction false} TrackerIsLedger(events: seq<Event>, key: string)
    ensures Charges(Live(events, key))
    ensures key in Run(events) <==> Live(events, key) != []
    ensures key in Run(events) ==>
              var live := Live(events, key);
              var last := live[|live| - 1];
              Run(events)[key] == SpendState(Token(last.period, last.now), RunSum(live, Token(last.period, last.now)))
  {
    hide Token;
    LiveAreCharges(events, key);
    if events != [] {
      var before, last := events[..|events| - 1], events[|events| - 1];
      TrackerIsLedger(before, key);
      if last.Charge? && last.key == key {
        var live := Live(before, key);
        assert (live + [last])[..|live|] == live;
      }
    }
  }

  /** The cost of every charge that falls in the same period as `now`. */
  function PeriodSum(live: seq<Event>, period: Period, now: int): real
    requires Charges(live)
  {
    if live == [] then 0.0
    else
      PeriodSum(live[..|live| - 1], period, now)
      + if SamePeriod(period, live[|live| - 1].now, now) then live[|live| - 1].cost else 0.0
  }

  /** Charges of one period, at times that never decrease and end by `now`. */
  predicate Steady(live: seq<Event>, period: Period, now: int) {
    && Charges(live) && Timely(now)
    && (forall e | e in live :: e.period == period && Timely(e.now) && e.now <= now)
    && (forall i, j | 0 <= i <= j < |live| :: live[i].now <= live[j].now)
  }

  /** At `now`, the token of moment `t` tells whether `t` is in the current period. */
  predicate Tells(period: Period, t: int, now: int) {
    Token(period, t) == Token(period, now) <==> SamePeriod(period, t, now)
  }

  predicate AllTell(live: seq<Event>, period: Period, now: int)
    requires Charges(live)
  {
    forall e | e in live :: Tells(period, e.now, now)
  }

  lemma {:induction false} RunIsPeriod(live: seq<Event>, period: Period, now: int)
    requires Steady(live, period, now) && AllTell(live, period, now)
    ensures RunSum(live, Token(period, now)) == PeriodSum(live, period, now)
  {
    hide Token, SamePeriod;
    if live != [] {
      var before, last := live[..|live| - 1], live[|live| - 1];
      assert last in live;
      assert forall e | e in before :: e in live;
      if SamePeriod(period, last.now, now) {
        RunIsPeriod(before, period, now);
      } else {
        NothingEarlier(before, period, last.now, now);
      }
    }
  }

  lemma {:induction false} NothingEarlier(live: seq<Event>, period: Period, last: int, now: int)
    requires Steady(live, period, last) && Timely(now) && last <= now && !SamePeriod(period, last, now)
    ensures PeriodSum(live, period, now) == 0.0
  {
    hide SamePeriod;
    if live != [] {
      var e := live[|live| - 1];
      assert e in live;
      assert forall x | x in live[..|live| - 1] :: x in live;
      if SamePeriod(period, e.now, now) {
        PeriodsAreIntervals(period, e.now, last, now);
      }
      NothingEarlier(live[..|live| - 1], period, last, now);
    }
  }

  /** With one period per key and a monotone clock, `current_usd` is the sum of everything
      recorded for the key in the current calendar period since its last forget, as long as the
      tokens of its charges tell which of them are in that period. */
  lemma CurrentUsdIsPeriodSpend(events: seq<Event>, key: string, period: Period, now: int)
    requires Steady(Live(events, key), period, now) && AllTell(Live(events, key), period, now)
    ensures CurrentUsd(Run(events), key, period, now) == PeriodSum(Live(events, key), period, now)
  {
    hide Token;
    TrackerIsLedger(events, key);
    RunIsPeriod(Live(events, key), period, now);
  }

  predicate ChargedAmong(live: seq<Event>, moments: iset<int>)
    requires Charges(live)
  {
    forall e | e in live :: e.now in moments
  }

  /** At `now` the tracker is right about every history charged at these moments. */
  ghost predicate RightAt(period: Period, moments: iset<int>, now: int) {
    forall events, key | Steady(Live(events, key), period, now) && ChargedAmong(Live(events, key), moments) ::
      CurrentUsd(Run(events), key, period, now) == PeriodSum(Live(events, key), period, now)
  }

  lemma RunOne(e: Event)
    ensures Run([e]) == Wrote(map[], e)
  {
    hide Wrote;
    assert [e][..0] == [];
  }

  lemma LiveOne(e: Event)
    requires e.Charge?
    ensures Live([e], e.key) == [e]
  {
    assert [e][..0] == [];
    assert [] + [e] == [e];
  }

  lemma PeriodSumOne(e: Event, period: Period, now: int)
    requires e.Charge?
    ensures PeriodSum([e], period, now) == if SamePeriod(period, e.now, now) then e.cost else 0.0
  {
    hide SamePeriod;
    assert [e][..0] == [];
  }

  /** One charge is enough to find out. */
  lemma OneCharge(key: string, period: Period, t: int, now: int)
    requires Timely(t) && Timely(now) && t <= now
    ensures var events := [Charge(key, period, 1.0, t)];
            && Live(events, key) == events && Steady(events, period, now)
            && (CurrentUsd(Run(events), key, period, now) == PeriodSum(events, period, now) <==> Tells(period, t, now))
  {
    hide Token, SamePeriod, Run, Live, PeriodSum;
    var e := Charge(key, period, 1.0, t);
    RunOne(e);
    LiveOne(e);
    PeriodSumOne(e, period, now);
  }

  /** Exactly when `current_usd` is the period's spend: the tokens of the moments at which keys
      are charged tell which of them are in the current period. */
  lemma PeriodSpendExactly(period: Period, moments: iset<int>, now: int)
    requires Timely(now)
    ensures RightAt(period, moments, now) <==>
            forall t | t in moments && Timely(t) && t <= now :: Tells(period, t, now)
  {
    hide Token, SamePeriod, Tells, CurrentUsd, PeriodSum, Run, Live;
    if RightAt(period, moments, now) {
      forall t | t in moments && Timely(t) && t <= now
        ensures Tells(period, t, now)
      {
        OneCharge("", period, t, now);
        assert ChargedAmong([Charge("", period, 1.0, t)], moments);
      }
    } else {
      var events, key :| Steady(Live(events, key), period, now) && ChargedAmong(Live(events, key), moments)
        && CurrentUsd(Run(events), key, period, now) != PeriodSum(Live(events, key), period, now);
      if AllTell(Live(events, key), period, now) {
        CurrentUsdIsPeriodSpend(events, key, period, now);
      }
    }
  }

  ghost function AllTimes(): iset<int> {
    iset t | Timely(t)
  }

  ghost function RegularTimes(): iset<int> {
    iset t | Timely(t) && Regular(t)
  }

  /** So for Day and Month limits it always is. */
  lemma DayMonthSpend(period: Period, now: int)
    requires Timely(now) && period != Week
    ensures RightAt(period, AllTimes(), now)
  {
    hide Token, SamePeriod, RightAt;
    var moments := AllTimes();
    forall t | t in moments && Timely(t) && t <= now
      ensures Tells(period, t, now)
    {
      DayMonthTokens(period, t, now);
    }
    PeriodSpendExactly(period, moments, now);
  }

  /** And for Week limits, about charges made on regular days, exactly on regular days: not from
      29 to 31 December in the new year's first week, nor from 1 to 3 January in the old year's
      last. */
  lemma WeekSpendExactly(now: int)
    requires Timely(now)
    ensures RightAt(Week, RegularTimes(), now) <==> Regular(now)
  {
    hide Token, SamePeriod, RightAt, Regular, IsoWeek, IsoYear, DateAt, DayNumber;
    var moments := RegularTimes();
    PeriodSpendExactly(Week, moments, now);
    if Regular(now) {
      forall t | t in moments && Timely(t) && t <= now
        ensures Tells(Week, t, now)
      {
        WeekTokenIsIso(t);
        WeekTokenIsIso(now);
        RegularWeekTokens(t, now);
      }
    } else {
      IrregularMisleads(now);
      assert Misleading(now) in moments && !Tells(Week, Misleading(now), now);
    }
  }

  /** Such a day: spend of January 2024 blocks the key again in the last days of December. */
  lemma WeekSpendReturns(key: string, limit: SpendLimit, cost: real)
    requires limit.period == Week && 0.0 < limit.amount <= cost
    ensures var entries := Run([Charge(key, Week, cost, JAN_1_2024)]);
            !PreCheck(entries, key, limit, DEC_30_2024) && !SamePeriod(Week, JAN_1_2024, DEC_30_2024)
  {
    hide Token, SamePeriod;
    WeekTokenAtYearEnd();
    var events := [Charge(key, Week, cost, JAN_1_2024)];
    assert events[..0] == [];
    assert Run(events[..0]) == map[];
  }
}
