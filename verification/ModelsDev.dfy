/** Turning the models.dev price list into local ratios. */
module ModelsDev {
  import opened Basics
  import opened PriceDiff
  import opened StringOrder

  /** Prices in USD per million tokens. */
  datatype Cost = Cost(input: Option<real>, output: Option<real>, cacheRead: Option<real>)

  datatype Candidate = Candidate(provider: string, input: real, output: Option<real>, cacheRead: Option<real>)

  /** Provider, then model. */
  type PriceList = map<string, map<string, Cost>>

  predicate Negative(v: Option<real>) {
    v.Some? && v.value < 0.0
  }

  function BuildCandidate(provider: string, cost: Cost): Option<Candidate> {
    if cost.input.None? || Negative(cost.input) || Negative(cost.output) then None
    else if cost.input.value == 0.0 && cost.output.Some? && cost.output.value > 0.0 then None
    else Some(Candidate(provider, cost.input.value, cost.output,
                        if Negative(cost.cacheRead) then None else cost.cacheRead))
  }

  predicate ShouldReplace(current: Candidate, next: Candidate) {
    if (current.input > 0.0) != (next.input > 0.0) then next.input > 0.0
    else if next.input > 0.0 && !Near(next.input, current.input) then next.input < current.input
    else Less(next.provider, current.provider)
  }

  /** What a provider offers for a model, if that is a valid price. */
  function Offer(prices: PriceList, p: string, m: string): Option<Candidate> {
    if p in prices && m in prices[p] then BuildCandidate(p, prices[p][m]) else None
  }

  function Better(current: Option<Candidate>, next: Option<Candidate>): Option<Candidate> {
    if next.None? then current
    else if current.None? || ShouldReplace(current.value, next.value) then next
    else current
  }

  /** The candidate left after the providers have been visited in the given order. */
  function Choose(prices: PriceList, ps: seq<string>, m: string): Option<Candidate> {
    if ps == [] then None
    else Better(Choose(prices, ps[..|ps| - 1], m), Offer(prices, ps[|ps| - 1], m))
  }

  // ---------------------------------------------------------------- the chosen price

  /** `c` is one of the offers, is free only if all are, is otherwise less than any positive price
      plus the tolerance, and comes from the first provider that asks this price. */
  ghost predicate Cheapest(c: Option<Candidate>, prices: PriceList, ps: seq<string>, m: string) {
    && (c.None? <==> forall i | 0 <= i < |ps| :: Offer(prices, ps[i], m).None?)
    && (c.Some? ==>
          && Offered(c.value, prices, ps, m)
          && forall i | 0 <= i < |ps| && Offer(prices, ps[i], m).Some? ::
               Beats(c.value, Offer(prices, ps[i], m).value))
  }

  ghost predicate Offered(c: Candidate, prices: PriceList, ps: seq<string>, m: string) {
    exists i :: 0 <= i < |ps| && Offer(prices, ps[i], m) == Some(c)
  }

  predicate Beats(c: Candidate, x: Candidate) {
    && 0.0 <= c.input
    && (c.input == 0.0 ==> x.input == 0.0)
    && (x.input > 0.0 ==> c.input < x.input + EPSILON)
    && (x.input == c.input ==> !Less(x.provider, c.provider))
  }

  lemma OfferIsValid(prices: PriceList, p: string, m: string)
    requires Offer(prices, p, m).Some?
    ensures var c := Offer(prices, p, m).value;
      c.provider == p && 0.0 <= c.input && (c.input == 0.0 && c.output.Some? ==> c.output.value == 0.0)
  {
  }

  /** A later provider never wins by name, so a replacement is a real drop in price. */
  lemma BetterBeats(c: Candidate, next: Candidate, x: Candidate)
    requires Beats(c, x) && 0.0 <= next.input && Less(c.provider, next.provider) && Less(x.provider, next.provider)
    ensures Beats(Better(Some(c), Some(next)).value, x)
  {
    LessAsymmetric(c.provider, next.provider);
    LessAsymmetric(x.provider, next.provider);
  }

  lemma BetterBeatsNext(c: Candidate, next: Candidate)
    requires 0.0 <= c.input && 0.0 <= next.input && Less(c.provider, next.provider)
    ensures Beats(Better(Some(c), Some(next)).value, next)
  {
    LessAsymmetric(c.provider, next.provider);
    if Less(next.provider, next.provider) {
      LessAsymmetric(next.provider, next.provider);
    }
  }

  lemma {:induction false} ChosenIsCheapest(prices: PriceList, ps: seq<string>, m: string)
    requires Ascending(ps)
    ensures Cheapest(Choose(prices, ps, m), prices, ps, m)
  {
    if ps != [] {
      var n := |ps| - 1;
      var rest := ps[..n];
      ChosenIsCheapest(prices, rest, m);
      CheapestStep(prices, ps, m, Choose(prices, rest, m));
    }
  }

  lemma CheapestStep(prices: PriceList, ps: seq<string>, m: string, before: Option<Candidate>)
    requires Ascending(ps) && ps != [] && Cheapest(before, prices, ps[..|ps| - 1], m)
    ensures Cheapest(Better(before, Offer(prices, ps[|ps| - 1], m)), prices, ps, m)
  {
    var n := |ps| - 1;
    var rest, next := ps[..n], Offer(prices, ps[n], m);
    assert forall i | 0 <= i < n :: rest[i] == ps[i];
    if next.Some? {
      OfferIsValid(prices, ps[n], m);
      if before.Some? {
        var k :| 0 <= k < |rest| && Offer(prices, rest[k], m) == before;
        OfferIsValid(prices, ps[k], m);
        BetterBeatsNext(before.value, next.value);
        forall i | 0 <= i < n && Offer(prices, ps[i], m).Some?
          ensures Beats(Better(before, next).value, Offer(prices, ps[i], m).value)
        {
          OfferIsValid(prices, ps[i], m);
          BetterBeats(before.value, next.value, Offer(prices, rest[i], m).value);
        }
      } else if Less(ps[n], ps[n]) {
        LessAsymmetric(ps[n], ps[n]);
      }
    }
  }

  /** In another order the tie-breaker can carry the choice away from the cheapest price, step by
      step, because the tolerance is not transitive. */
  lemma UnsortedOrderDrifts()
    ensures exists prices: PriceList, ps: seq<string> ::
      Choose(prices, ps, "m").Some? && !Cheapest(Choose(prices, ps, "m"), prices, ps, "m")
  {
    var c0, c1 := Cost(Some(1.0), None, None), Cost(Some(1.0000000009), None, None);
    var c2 := Cost(Some(1.0000000018), None, None);
    var prices: PriceList := map["a" := map["m" := c2], "b" := map["m" := c1], "c" := map["m" := c0]];
    var ps := ["c", "b", "a"];
    assert Less("b", "c") && Less("a", "b");
    assert ps[..2] == ["c", "b"] && ps[..2][..1] == ["c"] && ps[..2][..1][..0] == [];
    assert Choose(prices, ["c"], "m") == Offer(prices, "c", "m");
    assert Choose(prices, ["c", "b"], "m") == Offer(prices, "b", "m");
    assert Choose(prices, ps, "m") == Offer(prices, "a", "m");
    assert !Beats(Offer(prices, "a", "m").value, Offer(prices, ps[0], "m").value);
  }

  // ---------------------------------------------------------------- rounding

  const USD := 500.0
  const INPUT_COST_RATIO_BASE := 1000.0

  /** To the nearest integer, halves away from zero. */
  function Round(r: real): int {
    if r >= 0.0 then (r + 0.5).Floor else -((0.5 - r).Floor)
  }

  lemma RoundIsNearest(r: real, n: int)
    ensures n == Round(r) <==>
      if r >= 0.0 then n as real - 0.5 <= r < n as real + 0.5 else n as real - 0.5 < r <= n as real + 0.5
  {
  }

  function RoundRatio(v: real): real {
    Round(v * 1000000.0) as real / 1000000.0
  }

  predicate Within(published: real, exact: real) {
    exact - 0.0000005 <= published <= exact + 0.0000005
  }

  lemma RoundRatioWithin(v: real)
    ensures Within(RoundRatio(v), v)
  {
    var n := Round(v * 1000000.0) as real;
    assert v * 1000000.0 - 0.5 <= n <= v * 1000000.0 + 0.5;
  }

  /** Rounding a rounded ratio changes nothing. */
  lemma RoundRatioIdempotent(v: real)
    ensures RoundRatio(RoundRatio(v)) == RoundRatio(v)
  {
    var k := Round(v * 1000000.0);
    assert RoundRatio(v) * 1000000.0 == k as real;
    assert (k as real + 0.5).Floor == k && (0.5 - k as real).Floor == -k;
  }

  // ---------------------------------------------------------------- the conversion

  datatype Ratios = Ratios(model: map<string, real>, completion: map<string, real>, cache: map<string, real>)

  datatype Result = Ok(ratios: Ratios) | EmptyResponse | NoValidEntries

  function Lookup(selected: map<string, Candidate>, m: string): Option<Candidate> {
    if m in selected then Some(selected[m]) else None
  }

  /** Visiting one provider improves the selection of every model by that provider's offer. */
  method VisitProvider(selected: map<string, Candidate>, prices: PriceList, p: string)
    returns (after: map<string, Candidate>)
    requires p in prices
    ensures forall m :: Lookup(after, m) == Better(Lookup(selected, m), Offer(prices, p, m))
  {
    after := selected;
    var names := SortedKeys(prices[p].Keys);
    for i := 0 to |names|
      invariant forall m | exists j :: 0 <= j < i && names[j] == m ::
        Lookup(after, m) == Better(Lookup(selected, m), Offer(prices, p, m))
      invariant forall m | !exists j :: 0 <= j < i && names[j] == m :: Lookup(after, m) == Lookup(selected, m)
    {
      var m := names[i];
      DifferentNames(names, i);
      assert m in prices[p].Keys;
      var candidate := BuildCandidate(p, prices[p][m]);
      if candidate.Some? && (m !in after || ShouldReplace(after[m], candidate.value)) {
        after := after[m := candidate.value];
      }
    }
  }

  lemma DifferentNames(s: seq<string>, i: nat)
    requires Ascending(s) && i < |s|
    ensures forall j | 0 <= j < i :: s[j] != s[i]
  {
    forall j | 0 <= j < i ensures s[j] != s[i] {
      LessAsymmetric(s[j], s[i]);
    }
  }

  method SelectCandidates(prices: PriceList) returns (selected: map<string, Candidate>)
    ensures forall ps, m | Enumerates(ps, prices.Keys) :: Lookup(selected, m) == Choose(prices, ps, m)
  {
    var providers := SortedKeys(prices.Keys);
    selected := map[];
    for i := 0 to |providers|
      invariant forall m :: Lookup(selected, m) == Choose(prices, providers[..i], m)
    {
      assert providers[i] in prices.Keys;
      assert providers[..i + 1][..i] == providers[..i];
      selected := VisitProvider(selected, prices, providers[i]);
    }
    assert providers[..|providers|] == providers;
    forall ps | Enumerates(ps, prices.Keys) ensures ps == providers {
      EnumerationIsUnique(ps, providers, prices.Keys);
    }
  }

  /** The ratios published for a selection. */
  ghost predicate Publishes(r: Ratios, selected: map<string, Candidate>, models: set<string>) {
    && r.model.Keys == models
    && r.completion.Keys ==
         (set m | m in models && m in selected && selected[m].input != 0.0 && selected[m].output.Some?)
    && r.cache.Keys ==
         (set m | m in models && m in selected && selected[m].input != 0.0 && selected[m].cacheRead.Some?)
    && (forall m | m in models && m in selected :: Faithful(r, m, selected[m]))
  }

  /** Each ratio of a model is its exact value, rounded. */
  predicate Faithful(r: Ratios, m: string, c: Candidate) {
    && (m in r.model ==> r.model[m] == RoundRatio(c.input / 2.0))
    && (m in r.completion && c.input != 0.0 && c.output.Some? ==>
          r.completion[m] == RoundRatio(c.output.value / c.input))
    && (m in r.cache && c.input != 0.0 && c.cacheRead.Some? ==>
          r.cache[m] == RoundRatio(c.cacheRead.value / c.input))
  }

  method Publish(selected: map<string, Candidate>) returns (r: Ratios)
    ensures Publishes(r, selected, selected.Keys)
  {
    r := Ratios(map[], map[], map[]);
    var left := selected.Keys;
    while left != {}
      invariant left <= selected.Keys
      invariant Publishes(r, selected, selected.Keys - left)
    {
      var m :| m in left;
      var c := selected[m];
      var one := PublishOne(r, m, c);
      PublishesMore(r, one, selected, selected.Keys - left, m);
      r := one;
      assert selected.Keys - left + {m} == selected.Keys - (left - {m});
      left := left - {m};
    }
  }

  /** The ratios after one more model. */
  ghost predicate Adds(r: Ratios, after: Ratios, m: string, c: Candidate) {
    && after.model.Keys == r.model.Keys + {m}
    && after.completion.Keys == r.completion.Keys + (if c.input != 0.0 && c.output.Some? then {m} else {})
    && after.cache.Keys == r.cache.Keys + (if c.input != 0.0 && c.cacheRead.Some? then {m} else {})
    && (forall k | k in r.model && k != m :: after.model[k] == r.model[k])
    && (forall k | k in r.completion && k != m :: after.completion[k] == r.completion[k])
    && (forall k | k in r.cache && k != m :: after.cache[k] == r.cache[k])
    && Faithful(after, m, c)
  }

  method PublishOne(r: Ratios, m: string, c: Candidate) returns (after: Ratios)
    requires m !in r.model && m !in r.completion && m !in r.cache
    ensures Adds(r, after, m, c)
  {
    if c.input == 0.0 {
      after := r.(model := r.model[m := 0.0]);
      return;
    }
    var modelRatio := c.input * USD / INPUT_COST_RATIO_BASE;
    assert modelRatio == c.input / 2.0;
    after := r.(model := r.model[m := RoundRatio(modelRatio)]);
    if c.output.Some? {
      after := after.(completion := after.completion[m := RoundRatio(c.output.value / c.input)]);
    }
    if c.cacheRead.Some? {
      after := after.(cache := after.cache[m := RoundRatio(c.cacheRead.value / c.input)]);
    }
  }

  lemma PublishesMore(r: Ratios, after: Ratios, selected: map<string, Candidate>, models: set<string>, m: string)
    requires Publishes(r, selected, models) && m in selected && m !in models && Adds(r, after, m, selected[m])
    ensures Publishes(after, selected, models + {m})
  {
    forall k | k in models && k in selected ensures Faithful(after, k, selected[k]) {
      assert Faithful(r, k, selected[k]);
    }
  }

  /** What a successful conversion says about every model. */
  ghost predicate Converts(r: Ratios, prices: PriceList, ps: seq<string>) {
    forall m :: var c := Choose(prices, ps, m);
      && (m in r.model <==> c.Some?)
      && (m in r.completion <==> c.Some? && c.value.input != 0.0 && c.value.output.Some?)
      && (m in r.cache <==> c.Some? && c.value.input != 0.0 && c.value.cacheRead.Some?)
      && (c.Some? ==> Faithful(r, m, c.value))
  }

  /** The result is the same for every order in which the price list is read. */
  method Convert(prices: PriceList) returns (r: Result)
    ensures r.EmptyResponse? <==> prices == map[]
    ensures forall ps | Enumerates(ps, prices.Keys) ::
      && (r.NoValidEntries? <==> prices != map[] && forall m :: Choose(prices, ps, m).None?)
      && (r.Ok? ==> Converts(r.ratios, prices, ps))
  {
    if |prices| == 0 {
      return EmptyResponse;
    }
    var selected := SelectCandidates(prices);
    if |selected| == 0 {
      assert forall m :: Lookup(selected, m).None?;
      return NoValidEntries;
    }
    var ratios := Publish(selected);
    r := Ok(ratios);
    SelectedConverts(ratios, selected, prices);
    var one :| one in selected;
    assert Lookup(selected, one).Some?;
  }

  lemma SelectedConverts(r: Ratios, selected: map<string, Candidate>, prices: PriceList)
    requires Publishes(r, selected, selected.Keys)
    requires forall ps, m | Enumerates(ps, prices.Keys) :: Lookup(selected, m) == Choose(prices, ps, m)
    ensures forall ps | Enumerates(ps, prices.Keys) :: Converts(r, prices, ps)
  {
    forall ps, m | Enumerates(ps, prices.Keys) ensures Lookup(selected, m) == Choose(prices, ps, m) {
    }
  }

  /** Every published model has the cheapest price as its source, up to the tolerance of the
      selection and half a millionth of rounding. */
  lemma PublishedIsCheapest(r: Ratios, prices: PriceList, ps: seq<string>, m: string) returns (c: Candidate)
    requires Converts(r, prices, ps) && Enumerates(ps, prices.Keys) && m in r.model
    ensures Offer(prices, c.provider, m) == Some(c)
    ensures forall p | Offer(prices, p, m).Some? :: Beats(c, Offer(prices, p, m).value)
    ensures Within(r.model[m], c.input / 2.0) && (c.input == 0.0 ==> r.model[m] == 0.0)
    ensures m in r.completion ==> c.input > 0.0 && c.output.Some? && Within(r.completion[m], c.output.value / c.input)
    ensures m in r.cache ==> c.input > 0.0 && c.cacheRead.Some? && Within(r.cache[m], c.cacheRead.value / c.input)
  {
    ChosenIsCheapest(prices, ps, m);
    c := Choose(prices, ps, m).value;
    var i :| 0 <= i < |ps| && Offer(prices, ps[i], m) == Some(c);
    OfferIsValid(prices, ps[i], m);
    forall p | Offer(prices, p, m).Some? ensures Beats(c, Offer(prices, p, m).value) {
      assert p in prices.Keys;
      var j :| 0 <= j < |ps| && ps[j] == p;
    }
    PublishedWithin(r, m, c);
  }

  lemma PublishedWithin(r: Ratios, m: string, c: Candidate)
    requires Faithful(r, m, c) && m in r.model
    ensures Within(r.model[m], c.input / 2.0) && (c.input == 0.0 ==> r.model[m] == 0.0)
    ensures m in r.completion && c.input != 0.0 && c.output.Some? ==> Within(r.completion[m], c.output.value / c.input)
    ensures m in r.cache && c.input != 0.0 && c.cacheRead.Some? ==> Within(r.cache[m], c.cacheRead.value / c.input)
  {
    RoundRatioWithin(c.input / 2.0);
    if c.input != 0.0 {
      if c.output.Some? {
        RoundRatioWithin(c.output.value / c.input);
      }
      if c.cacheRead.Some? {
        RoundRatioWithin(c.cacheRead.value / c.input);
      }
    }
  }
}
