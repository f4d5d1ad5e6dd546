/** The two-level pricing table, the per-request cost, and the integer cents counter. */
module Pricing {
  import opened Wrappers

  datatype ModelPricing = ModelPricing(inputPer1k: real, outputPer1k: real)

  type Table = map<string, map<string, ModelPricing>>

  datatype Usage = Usage(promptTokens: nat, completionTokens: nat)

  function Models(t: Table, provider: string): map<string, ModelPricing> {
    if provider in t then t[provider] else map[]
  }

  function Lookup(t: Table, provider: string, model: string): Option<ModelPricing> {
    if provider in t && model in t[provider] then Some(t[provider][model]) else None
  }

  /** The right-biased pointwise merge of two tables. */
  function Overlay(base: Table, overrides: Table): Table {
    map p | p in base.Keys + overrides.Keys :: Models(base, p) + Models(overrides, p)
  }

  function Restrict<V>(t: map<string, V>, keys: set<string>): map<string, V> {
    map k | k in t && k in keys :: t[k]
  }

  method InsertAll(entry: map<string, ModelPricing>, models: map<string, ModelPricing>)
    returns (r: map<string, ModelPricing>)
    ensures r == entry + models
  {
    r := entry;
    var rest := models.Keys;
    while rest != {}
      invariant rest <= models.Keys
      invariant r == entry + Restrict(models, models.Keys - rest)
    {
      var m :| m in rest;
      r := r[m := models[m]];
      rest := rest - {m};
    }
    assert Restrict(models, models.Keys) == models;
  }

  lemma OverlayNothing(base: Table, overrides: Table)
    ensures Overlay(base, Restrict(overrides, {})) == base
  {
    var r := Overlay(base, Restrict(overrides, {}));
    assert Restrict(overrides, {}) == map[];
    assert r.Keys == base.Keys;
    forall p | p in base
      ensures r[p] == base[p]
    {
      assert base[p] + map[] == base[p];
    }
  }

  lemma RestrictAll<V>(t: map<string, V>)
    ensures Restrict(t, t.Keys) == t
  {
  }

  lemma RestrictOneMore<V>(t: map<string, V>, done: set<string>, p: string)
    requires p in t && p !in done
    ensures Restrict(t, done + {p}) == Restrict(t, done)[p := t[p]]
    ensures p !in Restrict(t, done)
  {
  }

  /** Tables with the same providers and the same models per provider are equal. */
  lemma SameTable(x: Table, y: Table)
    requires x.Keys == y.Keys && forall p | p in x :: Models(x, p) == Models(y, p)
    ensures x == y
  {
    assert forall p | p in x :: x[p] == Models(x, p) && y[p] == Models(y, p);
  }

  lemma OverlayModels(a: Table, b: Table, p: string)
    ensures Models(Overlay(a, b), p) == Models(a, p) + Models(b, p)
  {
  }

  lemma OverlayOneMore(base: Table, some: Table, p: string, models: map<string, ModelPricing>)
    requires p !in some
    ensures Overlay(base, some[p := models]) == Overlay(base, some)[p := Models(Overlay(base, some), p) + models]
  {
    var before := Overlay(base, some);
    var left, right := Overlay(base, some[p := models]), before[p := Models(before, p) + models];
    assert left.Keys == right.Keys;
    forall q | q in left
      ensures Models(left, q) == Models(right, q)
    {
      OverlayModels(base, some, q);
      OverlayModels(base, some[p := models], q);
      if q == p {
        assert Models(base, p) + map[] == Models(base, p);
      }
    }
    hide *;
    SameTable(left, right);
  }

  /** `overlaid_with`: both hash maps are walked in arbitrary order, and the order never shows. */
  method OverlaidWith(base: Table, overrides: Table) returns (r: Table)
    ensures r == Overlay(base, overrides)
  {
    hide Overlay, Restrict;
    r := base;
    OverlayNothing(base, overrides);
    var rest := overrides.Keys;
    assert overrides.Keys - rest == {};
    while rest != {}
      invariant rest <= overrides.Keys
      invariant r == Overlay(base, Restrict(overrides, overrides.Keys - rest))
    {
      var p :| p in rest;
      RestrictOneMore(overrides, overrides.Keys - rest, p);
      OverlayOneMore(base, Restrict(overrides, overrides.Keys - rest), p, overrides[p]);
      assert overrides.Keys - rest + {p} == overrides.Keys - (rest - {p});
      var entry := InsertAll(Models(r, p), overrides[p]);
      r := r[p := entry];
      rest := rest - {p};
    }
    assert overrides.Keys - rest == overrides.Keys;
    RestrictAll(overrides);
  }

  /** An override wins for its own provider/model pair and touches no other pair. */
  lemma OverlayLookup(base: Table, overrides: Table, provider: string, model: string)
    ensures var t := Overlay(base, overrides);
            var overridden := provider in overrides && model in overrides[provider];
            && (provider in t && model in t[provider] <==> overridden || (provider in base && model in base[provider]))
            && (overridden ==> t[provider][model] == overrides[provider][model])
            && (!overridden && provider in base && model in base[provider] ==>
                  t[provider][model] == base[provider][model])
            && (provider in t <==> provider in base || provider in overrides)
  {
  }

  lemma MergeAssociative<V>(x: map<string, V>, y: map<string, V>, z: map<string, V>)
    ensures (x + y) + z == x + (y + z)
    ensures (x + y) + y == x + y
  {
  }

  lemma OverlayAssociative(a: Table, b: Table, c: Table)
    ensures Overlay(Overlay(a, b), c) == Overlay(a, Overlay(b, c))
  {
    var l, r := Overlay(Overlay(a, b), c), Overlay(a, Overlay(b, c));
    forall p | p in l.Keys
      ensures l[p] == r[p]
    {
      OverlayModels(a, b, p);
      OverlayModels(b, c, p);
      MergeAssociative(Models(a, p), Models(b, p), Models(c, p));
    }
    assert l.Keys == r.Keys;
  }

  /** Applying the same overrides again changes nothing. */
  lemma OverlayIdempotent(a: Table, b: Table)
    ensures Overlay(Overlay(a, b), b) == Overlay(a, b)
  {
    var l, r := Overlay(Overlay(a, b), b), Overlay(a, b);
    forall p | p in l.Keys
      ensures l[p] == r[p]
    {
      OverlayModels(a, b, p);
      MergeAssociative(Models(a, p), Models(b, p), map[]);
    }
    assert l.Keys == r.Keys;
  }

  /** What `count` tokens cost at this rate per thousand. */
  function Part(count: nat, rate: real): real {
    count as real / 1000.0 * rate
  }

  /** Cost in USD; `None` when the pair is not priced. */
  function Compute(t: Table, provider: string, model: string, usage: Usage): Option<real> {
    match Lookup(t, provider, model)
    case None => None
    case Some(price) =>
      Some(Part(usage.promptTokens, price.inputPer1k) + Part(usage.completionTokens, price.outputPer1k))
  }

  /** A pair has a cost iff the table lists it; cost is additive in the token counts, and a
      thousand tokens of a kind cost the listed rate for that kind. */
  lemma CostIsLinear(t: Table, provider: string, model: string, u: Usage, v: Usage)
    ensures Compute(t, provider, model, u).Some? <==> provider in t && model in t[provider]
    ensures provider in t && model in t[provider] ==>
              var sum := Usage(u.promptTokens + v.promptTokens, u.completionTokens + v.completionTokens);
              && Compute(t, provider, model, sum)
                 == Some(Compute(t, provider, model, u).value + Compute(t, provider, model, v).value)
              && Compute(t, provider, model, Usage(1000, 0)) == Some(t[provider][model].inputPer1k)
              && Compute(t, provider, model, Usage(0, 1000)) == Some(t[provider][model].outputPer1k)
  {
    if provider in t && model in t[provider] {
      var price := t[provider][model];
      PerThousand(u.promptTokens, v.promptTokens, price.inputPer1k);
      PerThousand(u.completionTokens, v.completionTokens, price.outputPer1k);
      WholeRate(price.inputPer1k);
      WholeRate(price.outputPer1k);
      hide Part;
    }
  }

  lemma PerThousand(m: nat, n: nat, rate: real)
    ensures Part(m + n, rate) == Part(m, rate) + Part(n, rate)
  {
    var x, y := m as real / 1000.0, n as real / 1000.0;
    assert (m + n) as real / 1000.0 == x + y;
    assert (x + y) * rate == x * rate + y * rate;
  }

  lemma WholeRate(rate: real)
    ensures Part(0, rate) == 0.0
    ensures Part(1000, rate) == rate
  {
    assert 0 as real / 1000.0 == 0.0;
    assert 1000 as real / 1000.0 == 1.0;
  }

  // ----- the cents counter -----

  const U64_MAX: int := 0xFFFF_FFFF_FFFF_FFFF

  /** Rust's float-to-u64 `as` cast of a rounded, positive amount: it saturates. */
  function CentsOf(cost: real): nat
    requires cost > 0.0
  {
    var cents := (cost * 100.0 + 0.5).Floor;
    if cents > U64_MAX then U64_MAX else cents
  }

  /** One completed request, as the counters see it. */
  datatype Completion = Completion(provider: string, model: string, status: nat, cost: Option<real>)

  /** The request and cents counters, by label; an absent counter reads zero. */
  datatype Counters = Counters(requests: map<(string, string, nat), nat>, costCents: map<(string, string), nat>)

  function Count<L(==)>(m: map<L, nat>, key: L): nat {
    if key in m then m[key] else 0
  }

  /** What a counter increment leaves: counters are 64 bits wide and wrap. */
  function Increment<L(==)>(m: map<L, nat>, key: L, amount: nat): map<L, nat> {
    m[key := (Count(m, key) + amount) % (U64_MAX + 1)]
  }

  function RequestLabel(c: Completion): (string, string, nat) {
    (c.provider, c.model, c.status)
  }

  function CostLabel(c: Completion): (string, string) {
    (c.provider, c.model)
  }

  function Completed(s: Counters, c: Completion): Counters {
    Counters(Increment(s.requests, RequestLabel(c), 1),
             if c.cost.Some? && c.cost.value > 0.0 && CentsOf(c.cost.value) > 0 then
               Increment(s.costCents, CostLabel(c), CentsOf(c.cost.value))
             else s.costCents)
  }

  class Metrics {
    var counters: Counters

    constructor ()
      ensures counters == Counters(map[], map[])
    {
      counters := Counters(map[], map[]);
    }

    method RecordCompletion(c: Completion)
      modifies this
      ensures counters == Completed(old(counters), c)
    {
      counters := counters.(requests := Increment(counters.requests, RequestLabel(c), 1));
      if c.cost.Some? && c.cost.value > 0.0 {
        var cents := CentsOf(c.cost.value);
        if cents > 0 {
          counters := counters.(costCents := Increment(counters.costCents, CostLabel(c), cents));
        }
      }
    }
  }

  function CountersAfter(cs: seq<Completion>): Counters {
    if cs == [] then Counters(map[], map[]) else Completed(CountersAfter(cs[..|cs| - 1]), cs[|cs| - 1])
  }

  /** The completions of one provider, model and status. */
  function Matching(cs: seq<Completion>, key: (string, string, nat)): nat {
    if cs == [] then 0
    else
      var last := cs[|cs| - 1];
      var counts := last.provider == key.0 && last.model == key.1 && last.status == key.2;
      Matching(cs[..|cs| - 1], key) + if counts then 1 else 0
  }

  /** The costs of the completions of one provider and model, in order. */
  function CostsOf(cs: seq<Completion>, key: (string, string)): seq<Option<real>> {
    if cs == [] then []
    else
      var last := cs[|cs| - 1];
      CostsOf(cs[..|cs| - 1], key) + if last.provider == key.0 && last.model == key.1 then [last.cost] else []
  }

  lemma CompletedReads(s: Counters, c: Completion, request: (string, string, nat), model: (string, string))
    ensures Count(Completed(s, c).requests, request) ==
            if RequestLabel(c) == request then (Count(s.requests, request) + 1) % (U64_MAX + 1)
            else Count(s.requests, request)
    ensures Count(Completed(s, c).costCents, model) ==
            if CostLabel(c) == model then AddCents(Count(s.costCents, model), c.cost) else Count(s.costCents, model)
  {
    hide CentsOf;
  }

  lemma OneMoreRequest(n: nat)
    ensures (n % (U64_MAX + 1) + 1) % (U64_MAX + 1) == (n + 1) % (U64_MAX + 1)
  {
  }

  /** Each label's counters count that label's completions alone: the request counter is their
      number and the cents counter that of a single counter fed their costs. */
  lemma {:induction false} CountersAreByLabel(cs: seq<Completion>, provider: string, model: string, status: nat)
    ensures Count(CountersAfter(cs).requests, (provider, model, status))
         == Matching(cs, (provider, model, status)) % (U64_MAX + 1)
    ensures Count(CountersAfter(cs).costCents, (provider, model)) == CounterAfter(CostsOf(cs, (provider, model)))
  {
    if cs != [] {
      hide Completed, AddCents, Count;
      var before, last := cs[..|cs| - 1], cs[|cs| - 1];
      CountersAreByLabel(before, provider, model, status);
      CompletedReads(CountersAfter(before), last, (provider, model, status), (provider, model));
      OneMoreRequest(Matching(before, (provider, model, status)));
      var costs := CostsOf(before, (provider, model));
      assert (costs + [last.cost])[..|costs|] == costs;
      assert costs + [] == costs;
    }
  }

  /** So each model's cents counter is within half a cent per completion of that model's true
      total, while that fits 64 bits. */
  lemma ModelCentsDrift(cs: seq<Completion>, provider: string, model: string)
    ensures var costs := CostsOf(cs, (provider, model));
            var drift := Count(CountersAfter(cs).costCents, (provider, model)) as real - Total(costs) * 100.0;
            NonNegative(costs) && Total(costs) * 100.0 + (|costs| as real) / 2.0 < U64_MAX as real ==>
              -(|costs| as real) / 2.0 <= drift <= (|costs| as real) / 2.0
  {
    hide CountersAfter, CounterAfter, CostsOf, Total;
    CountersAreByLabel(cs, provider, model, 0);
    var costs := CostsOf(cs, (provider, model));
    if NonNegative(costs) && Total(costs) * 100.0 + (|costs| as real) / 2.0 < U64_MAX as real {
      CentsDrift(costs);
    }
  }

  // ----- rounding to cents -----

  function AddCents(counter: nat, cost: Option<real>): nat {
    if cost.Some? && cost.value > 0.0 && CentsOf(cost.value) > 0 then (counter + CentsOf(cost.value)) % (U64_MAX + 1)
    else counter
  }

  /** The counter after a run of completions. */
  function CounterAfter(costs: seq<Option<real>>): nat {
    if costs == [] then 0 else AddCents(CounterAfter(costs[..|costs| - 1]), costs[|costs| - 1])
  }

  function CostOf(cost: Option<real>): real {
    if cost.Some? then cost.value else 0.0
  }

  function Total(costs: seq<Option<real>>): real {
    if costs == [] then 0.0 else Total(costs[..|costs| - 1]) + CostOf(costs[|costs| - 1])
  }

  predicate NonNegative(costs: seq<Option<real>>) {
    forall c | c in costs :: CostOf(c) >= 0.0
  }

  lemma CentsRounding(cost: real)
    requires cost > 0.0 && cost * 100.0 + 0.5 <= U64_MAX as real
    ensures -0.5 < CentsOf(cost) as real - cost * 100.0 <= 0.5
  {
  }

  /** A single cost too large for 64 bits counts as the largest number of cents. */
  lemma CentsSaturate(cost: real)
    requires cost > 0.0 && cost * 100.0 >= U64_MAX as real
    ensures CentsOf(cost) == 0xFFFF_FFFF_FFFF_FFFF
  {
  }

  lemma {:induction false} TotalNonNegative(costs: seq<Option<real>>)
    requires NonNegative(costs)
    ensures Total(costs) >= 0.0
  {
    if costs != [] {
      TotalNonNegative(costs[..|costs| - 1]);
      assert CostOf(costs[|costs| - 1]) >= 0.0;
    }
  }

  lemma AddCentsRounding(counter: nat, cost: Option<real>)
    requires CostOf(cost) >= 0.0
    requires counter as real + CostOf(cost) * 100.0 + 0.5 < U64_MAX as real
    ensures -0.5 <= AddCents(counter, cost) as real - (counter as real + CostOf(cost) * 100.0) <= 0.5
  {
    if CostOf(cost) > 0.0 {
      CentsRounding(cost.value);
      assert counter + CentsOf(cost.value) <= U64_MAX;
    }
  }

  function CentsIn(cost: Option<real>): nat {
    if cost.Some? && cost.value > 0.0 then CentsOf(cost.value) else 0
  }

  function SumCents(costs: seq<Option<real>>): nat {
    if costs == [] then 0 else SumCents(costs[..|costs| - 1]) + CentsIn(costs[|costs| - 1])
  }

  lemma AddThenWrap(sum: nat, cost: Option<real>)
    ensures AddCents(sum % (U64_MAX + 1), cost) == (sum + CentsIn(cost)) % (U64_MAX + 1)
  {
    hide CentsOf;
  }

  /** No cost is too large for 64 bits on its own. */
  predicate Unsaturated(costs: seq<Option<real>>) {
    forall c | c in costs :: 0.0 <= CostOf(c) && CostOf(c) * 100.0 + 0.5 <= U64_MAX as real
  }

  lemma RoundedCents(cost: Option<real>)
    requires 0.0 <= CostOf(cost) && CostOf(cost) * 100.0 + 0.5 <= U64_MAX as real
    ensures -0.5 <= CentsIn(cost) as real - CostOf(cost) * 100.0 <= 0.5
  {
    if CostOf(cost) > 0.0 {
      CentsRounding(cost.value);
    }
  }

  /** The counter is the sum of the rounded cents, wrapped; the sum itself drifts from the true
      total by at most half a cent per completion. */
  lemma {:induction false} CounterIsSum(costs: seq<Option<real>>)
    ensures CounterAfter(costs) == SumCents(costs) % (U64_MAX + 1)
    ensures Unsaturated(costs) ==>
              var drift := SumCents(costs) as real - Total(costs) * 100.0;
              -(|costs| as real) / 2.0 <= drift <= (|costs| as real) / 2.0
  {
    hide AddCents, CentsIn;
    if costs != [] {
      var before, last := costs[..|costs| - 1], costs[|costs| - 1];
      CounterIsSum(before);
      AddThenWrap(SumCents(before), last);
      assert |costs| as real == |before| as real + 1.0;
      if Unsaturated(costs) {
        assert last in costs && Unsaturated(before);
        RoundedCents(last);
      }
    }
  }

  /** Rounding every completion to whole cents drifts by at most half a cent per completion,
      as long as the true total fits the 64-bit counter. */
  lemma {:induction false} CentsDrift(costs: seq<Option<real>>)
    requires NonNegative(costs)
    requires Total(costs) * 100.0 + (|costs| as real) / 2.0 < U64_MAX as real
    ensures var drift := CounterAfter(costs) as real - Total(costs) * 100.0;
            -(|costs| as real) / 2.0 <= drift <= (|costs| as real) / 2.0
  {
    hide AddCents, CentsOf;
    if costs != [] {
      var before, last := costs[..|costs| - 1], costs[|costs| - 1];
      assert CostOf(last) >= 0.0;
      assert |costs| as real == |before| as real + 1.0;
      TotalNonNegative(before);
      CentsDrift(before);
      AddCentsRounding(CounterAfter(before), last);
    }
  }
}
