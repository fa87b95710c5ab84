/** The result of the price comparison in terms of the fetched values, with the tolerance written out. */
module PriceDiffMeaning {
  import opened Basics
  import opened PriceDiff
  import opened PriceDiffLaws

  predicate Has(d: Data, f: Field, m: string) {
    f in d && m in d[f]
  }

  /** The value counts as the number `x`: a number does in every field, an integer or a number kept as text
      only in the numeric ones. */
  predicate CountsAs(f: Field, v: Value, x: real) {
    || v == Num(x)
    || (f != BillingMode && f != BillingExpr && ((v.Whole? && v.n as real == x) || (v.Literal? && v.parsed == Some(x))))
  }

  /** Two values are the same if they are equal or count as numbers less than a billionth apart. */
  ghost predicate SameValue(f: Field, v: Value, w: Value) {
    v == w || exists x, y :: CountsAs(f, v, x) && CountsAs(f, w, y) && x - y < 0.000000001 && y - x < 0.000000001
  }

  /** The channel has a value that local lacks or that is not the same. */
  ghost predicate Disagrees(local: Data, d: Data, f: Field, m: string) {
    Has(d, f, m) && !(Has(local, f, m) && SameValue(f, local[f][m], d[f][m]))
  }

  lemma NormalizedNumber(f: Field, v: Value, x: real)
    ensures Normalize(f, v) == Num(x) <==> CountsAs(f, v, x)
  {
  }

  lemma NormalizedOther(f: Field, v: Value)
    ensures !Normalize(f, v).Num? ==> Normalize(f, v) == v && forall x :: !CountsAs(f, v, x)
  {
    if !Normalize(f, v).Num? {
      forall x ensures !CountsAs(f, v, x) { NormalizedNumber(f, v, x); }
    }
  }

  lemma EqualMeans(f: Field, v: Value, w: Value)
    ensures Equal(Normalize(f, v), Normalize(f, w)) <==> SameValue(f, v, w)
  {
    var a, b := Normalize(f, v), Normalize(f, w);
    NormalizedOther(f, v);
    NormalizedOther(f, w);
    if a.Num? { NormalizedNumber(f, v, a.r); }
    if b.Num? { NormalizedNumber(f, w, b.r); }
    if x, y :| CountsAs(f, v, x) && CountsAs(f, w, y) && x - y < 0.000000001 && y - x < 0.000000001 {
      NormalizedNumber(f, v, x);
      NormalizedNumber(f, w, y);
    }
  }

  lemma GetMeans(d: Data, f: Field, m: string)
    ensures Present(d, f, m) <==> Has(d, f, m)
    ensures Get(d, f, m) == if Has(d, f, m) then Normalize(f, d[f][m]) else Nil
  {
  }

  lemma DifferingMeans(local: Data, d: Data, f: Field, m: string)
    requires Has(d, f, m) ==> d[f][m] != Nil
    ensures Differing(local, d, f, m) <==> Disagrees(local, d, f, m)
  {
    GetMeans(local, f, m);
    GetMeans(d, f, m);
    if Has(d, f, m) {
      assert Normalize(f, d[f][m]) != Nil;
      if Has(local, f, m) { EqualMeans(f, local[f][m], d[f][m]); }
    }
  }

  lemma PlainHasNoNil(cs: seq<Channel>, i: nat, f: Field, m: string)
    requires Plain(cs) && i < |cs| && Has(cs[i].data, f, m)
    ensures cs[i].data[f][m] != Nil && cs[i].data[f][m] != SAME
  {
    assert Present(cs[i].data, f, m);
    assert Telling(Get(cs[i].data, f, m));
  }

  lemma ChannelMeans(local: Data, cs: seq<Channel>, i: nat, f: Field, m: string)
    requires Plain(cs) && i < |cs|
    ensures Differing(local, cs[i].data, f, m) <==> Disagrees(local, cs[i].data, f, m)
  {
    if Has(cs[i].data, f, m) { PlainHasNoNil(cs, i, f, m); }
    DifferingMeans(local, cs[i].data, f, m);
  }

  /** On data without nulls and the text "same", from channels with distinct names, a pair is listed exactly if
      some channel disagrees with local about it. */
  lemma ListsDisagreements(r: Listing, local: Data, cs: seq<Channel>, f: Field, m: string)
    requires IsResult(r, local, cs) && DistinctNames(cs) && Plain(cs)
    ensures Listed(r, f, m) <==> exists i :: 0 <= i < |cs| && Disagrees(local, cs[i].data, f, m)
  {
    ListsTheDifferences(r, local, cs, f, m);
    forall i | 0 <= i < |cs| ensures Differing(local, cs[i].data, f, m) <==> Disagrees(local, cs[i].data, f, m) {
      ChannelMeans(local, cs, i, f, m);
    }
  }

  /** In particular two numbers are listed exactly if they are a billionth apart or more. */
  lemma ListsNumbersApart(r: Listing, local: Data, c: Channel, f: Field, m: string, l: real, u: real)
    requires IsResult(r, local, [c]) && Plain([c]) && Has(local, f, m) && Has(c.data, f, m)
    requires CountsAs(f, local[f][m], l) && CountsAs(f, c.data[f][m], u)
    ensures Listed(r, f, m) <==> u - l >= 0.000000001 || l - u >= 0.000000001
  {
    ListsDisagreements(r, local, [c], f, m);
    NormalizedNumber(f, local[f][m], l);
    NormalizedNumber(f, c.data[f][m], u);
    EqualMeans(f, local[f][m], c.data[f][m]);
    assert [c][0].data == c.data;
  }

  /** And two texts exactly if they are not equal. */
  lemma ListsUnequalTexts(r: Listing, local: Data, c: Channel, f: Field, m: string, a: string, b: string)
    requires IsResult(r, local, [c]) && Plain([c]) && Has(local, f, m) && Has(c.data, f, m)
    requires local[f][m] == Text(a) && c.data[f][m] == Text(b)
    ensures Listed(r, f, m) <==> a != b
  {
    ListsDisagreements(r, local, [c], f, m);
    assert [c][0].data == c.data;
    assert SameValue(f, Text(a), Text(b)) <==> a == b by { EqualMeans(f, Text(a), Text(b)); }
  }

  // ---------------------------------------------------------------- what an item shows

  /** The price 37.5 with completion ratio 1 is a placeholder. */
  ghost predicate Placeholder(d: Data, m: string) {
    exists p, c ::
      && Has(d, ModelRatio, m) && CountsAs(ModelRatio, d[ModelRatio][m], p)
      && p - 37.5 < 0.000000001 && 37.5 - p < 0.000000001
      && Has(d, CompletionRatio, m) && CountsAs(CompletionRatio, d[CompletionRatio][m], c)
      && c - 1.0 < 0.000000001 && 1.0 - c < 0.000000001
  }

  lemma AsNumberMeans(f: Field, v: Value, x: real)
    requires f == ModelRatio || f == CompletionRatio
    ensures AsNumber(v) == Some(x) <==> CountsAs(f, v, x)
  {
  }

  lemma ConfidentMeans(d: Data, m: string)
    ensures Confident(d, m) <==> !Placeholder(d, m)
  {
    if !Confident(d, m) {
      var v, w := d[ModelRatio][m], d[CompletionRatio][m];
      AsNumberMeans(ModelRatio, v, AsNumber(v).value);
      AsNumberMeans(CompletionRatio, w, AsNumber(w).value);
    }
    if Placeholder(d, m) {
      var p, c :|
        && Has(d, ModelRatio, m) && CountsAs(ModelRatio, d[ModelRatio][m], p)
        && p - 37.5 < 0.000000001 && 37.5 - p < 0.000000001
        && Has(d, CompletionRatio, m) && CountsAs(CompletionRatio, d[CompletionRatio][m], c)
        && c - 1.0 < 0.000000001 && 1.0 - c < 0.000000001;
      AsNumberMeans(ModelRatio, d[ModelRatio][m], p);
      AsNumberMeans(CompletionRatio, d[CompletionRatio][m], c);
    }
  }

  /** The value as it is shown: numbers as such, anything else as it was sent. */
  ghost predicate ShownAs(f: Field, v: Value, shown: Value) {
    if shown.Num? then CountsAs(f, v, shown.r) else shown == v && forall x :: !CountsAs(f, v, x)
  }

  lemma NormalizedIsShown(f: Field, v: Value)
    ensures ShownAs(f, v, Normalize(f, v))
  {
    var a := Normalize(f, v);
    NormalizedOther(f, v);
    if a.Num? { NormalizedNumber(f, v, a.r); }
  }

  /** What an item shows of a channel: nothing where only local has a value, `SAME` where they are the same or
      neither has one, and otherwise the value of the channel. */
  ghost predicate ShowsChannel(local: Data, d: Data, f: Field, m: string, shown: Value) {
    if !Has(d, f, m) then shown == if Has(local, f, m) && local[f][m] != Nil then Nil else SAME
    else if Has(local, f, m) && SameValue(f, local[f][m], d[f][m]) then shown == SAME
    else ShownAs(f, d[f][m], shown)
  }

  lemma MarkShows(local: Data, d: Data, f: Field, m: string)
    requires Has(d, f, m) ==> d[f][m] != Nil
    ensures ShowsChannel(local, d, f, m, Mark(local, d, f, m))
  {
    GetMeans(local, f, m);
    GetMeans(d, f, m);
    if Has(d, f, m) {
      NormalizedIsShown(f, d[f][m]);
      if Has(local, f, m) { EqualMeans(f, local[f][m], d[f][m]); }
    }
  }

  ghost predicate DisagreesSomewhere(local: Data, d: Data) {
    exists f, m :: Disagrees(local, d, f, m)
  }

  lemma SomewhereMeans(local: Data, cs: seq<Channel>, i: nat)
    requires Plain(cs) && i < |cs|
    ensures DiffersSomewhere(local, cs[i].data) <==> DisagreesSomewhere(local, cs[i].data)
  {
    if m, f :| Differing(local, cs[i].data, f, m) { ChannelMeans(local, cs, i, f, m); }
    if f, m :| Disagrees(local, cs[i].data, f, m) { ChannelMeans(local, cs, i, f, m); }
  }

  /** A listed item shows the local value, names exactly the channels that disagree about something, and shows
      and judges each of them. */
  lemma ItemShows(r: Listing, local: Data, cs: seq<Channel>, f: Field, m: string, i: nat)
    requires IsResult(r, local, cs) && DistinctNames(cs) && Plain(cs)
    requires Listed(r, f, m) && i < |cs|
    ensures if Has(local, f, m) then ShownAs(f, local[f][m], r[m][f].current) else r[m][f].current == Nil
    ensures r[m][f].confidence.Keys == r[m][f].upstreams.Keys
    ensures cs[i].name in r[m][f].upstreams <==> DisagreesSomewhere(local, cs[i].data)
    ensures cs[i].name in r[m][f].upstreams ==>
      && ShowsChannel(local, cs[i].data, f, m, r[m][f].upstreams[cs[i].name])
      && r[m][f].confidence[cs[i].name] == !Placeholder(cs[i].data, m)
  {
    ItemNamesTheDiffering(r, local, cs, f, m, i);
    SomewhereMeans(local, cs, i);
    GetMeans(local, f, m);
    if Has(local, f, m) { NormalizedIsShown(f, local[f][m]); }
    if Has(cs[i].data, f, m) { PlainHasNoNil(cs, i, f, m); }
    MarkShows(local, cs[i].data, f, m);
    ConfidentMeans(cs[i].data, m);
  }
}
