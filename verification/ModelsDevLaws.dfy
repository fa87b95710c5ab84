/** The published ratios in terms of the price list. */
module ModelsDevLaws {
  import opened Basics
  import opened StringOrder
  import opened ModelsDev

  /** An entry with a usable price: an input price, nothing negative, and no free input with a paid output. */
  predicate Usable(cost: Cost) {
    && cost.input.Some? && cost.input.value >= 0.0
    && (cost.output.Some? ==> cost.output.value >= 0.0)
    && (cost.input.value == 0.0 && cost.output.Some? ==> cost.output.value == 0.0)
  }

  predicate Sells(prices: PriceList, p: string, m: string) {
    p in prices && m in prices[p] && Usable(prices[p][m])
  }

  lemma OfferMeans(prices: PriceList, p: string, m: string)
    ensures Offer(prices, p, m).Some? <==> Sells(prices, p, m)
    ensures Sells(prices, p, m) ==>
      var c, cost := Offer(prices, p, m).value, prices[p][m];
      && c.provider == p && c.input == cost.input.value && c.output == cost.output
      && c.cacheRead == if cost.cacheRead.Some? && cost.cacheRead.value >= 0.0 then cost.cacheRead else None
  {
  }

  /** Provider `p` sells the model cheapest: free only if everybody gives it away, otherwise for less than
      anybody's positive price plus a billionth, and no provider before it asks the same. */
  ghost predicate SellsCheapest(prices: PriceList, p: string, m: string) {
    && Sells(prices, p, m)
    && forall q | Sells(prices, q, m) ::
         var mine, theirs := prices[p][m].input.value, prices[q][m].input.value;
         && (mine == 0.0 ==> theirs == 0.0)
         && (theirs > 0.0 ==> mine < theirs + 0.000000001)
         && (theirs == mine ==> !Less(q, p))
  }

  /** The value is a whole number of millionths, and a nearest one. */
  predicate Rounded(published: real, exact: real) {
    && (published * 1000000.0).Floor as real == published * 1000000.0
    && exact - 0.0000005 <= published <= exact + 0.0000005
  }

  lemma RoundRatioRounds(v: real)
    ensures Rounded(RoundRatio(v), v)
  {
    RoundRatioWithin(v);
    assert RoundRatio(v) * 1000000.0 == Round(v * 1000000.0) as real;
  }

  /** The ratios of a model come from one entry: half its input price, and output and cache prices relative to
      the input price where there are any. */
  ghost predicate Comes(r: Ratios, m: string, cost: Cost)
    requires cost.input.Some?
  {
    && m in r.model && Rounded(r.model[m], cost.input.value / 2.0)
    && (m in r.completion <==> cost.input.value > 0.0 && cost.output.Some?)
    && (m in r.completion ==> Rounded(r.completion[m], cost.output.value / cost.input.value))
    && (m in r.cache <==> cost.input.value > 0.0 && cost.cacheRead.Some? && cost.cacheRead.value >= 0.0)
    && (m in r.cache ==> Rounded(r.cache[m], cost.cacheRead.value / cost.input.value))
  }

  lemma SellsIsOffered(prices: PriceList, ps: seq<string>, m: string)
    requires Enumerates(ps, prices.Keys)
    ensures (exists p :: Sells(prices, p, m)) <==> exists i :: 0 <= i < |ps| && Offer(prices, ps[i], m).Some?
  {
    if p :| Sells(prices, p, m) {
      OfferMeans(prices, p, m);
      assert p in prices.Keys;
      var i :| 0 <= i < |ps| && ps[i] == p;
    }
    if i :| 0 <= i < |ps| && Offer(prices, ps[i], m).Some? {
      OfferMeans(prices, ps[i], m);
    }
  }

  /** A model is published exactly if some provider sells it, and its ratios come from the entry of a provider
      that sells it cheapest. */
  lemma PublishedComesFromCheapest(r: Ratios, prices: PriceList, ps: seq<string>, m: string)
    requires Converts(r, prices, ps) && Enumerates(ps, prices.Keys)
    ensures m in r.model <==> exists p :: Sells(prices, p, m)
    ensures m in r.model ==> exists p :: SellsCheapest(prices, p, m) && Comes(r, m, prices[p][m])
    ensures m !in r.model ==> m !in r.completion && m !in r.cache
  {
    ChosenIsCheapest(prices, ps, m);
    SellsIsOffered(prices, ps, m);
    if m in r.model {
      var c := PublishedIsCheapest(r, prices, ps, m);
      ChosenComes(r, prices, ps, m);
    }
  }

  lemma ChosenComes(r: Ratios, prices: PriceList, ps: seq<string>, m: string)
    requires Converts(r, prices, ps) && Enumerates(ps, prices.Keys) && Choose(prices, ps, m).Some?
    ensures exists p :: SellsCheapest(prices, p, m) && Comes(r, m, prices[p][m])
  {
    ChosenIsCheapest(prices, ps, m);
    var c := Choose(prices, ps, m).value;
    var i :| 0 <= i < |ps| && Offer(prices, ps[i], m) == Some(c);
    var p := ps[i];
    OfferMeans(prices, p, m);
    forall q | Sells(prices, q, m)
      ensures Beats(c, Offer(prices, q, m).value) && q == Offer(prices, q, m).value.provider
    {
      OfferMeans(prices, q, m);
      assert q in prices.Keys;
      var j :| 0 <= j < |ps| && ps[j] == q;
    }
    forall q | Sells(prices, q, m) ensures Offer(prices, q, m).value.input == prices[q][m].input.value {
      OfferMeans(prices, q, m);
    }
    CandidateComes(r, m, c, prices[p][m]);
    assert SellsCheapest(prices, p, m);
  }

  lemma CandidateComes(r: Ratios, m: string, c: Candidate, cost: Cost)
    requires Faithful(r, m, c) && m in r.model && Usable(cost) && c.input == cost.input.value && c.output == cost.output
    requires c.cacheRead == if cost.cacheRead.Some? && cost.cacheRead.value >= 0.0 then cost.cacheRead else None
    requires m in r.completion <==> c.input != 0.0 && c.output.Some?
    requires m in r.cache <==> c.input != 0.0 && c.cacheRead.Some?
    ensures Comes(r, m, cost)
  {
    RoundRatioRounds(c.input / 2.0);
    if c.input != 0.0 {
      if c.output.Some? { RoundRatioRounds(c.output.value / c.input); }
      if c.cacheRead.Some? { RoundRatioRounds(c.cacheRead.value / c.input); }
    }
  }
}
