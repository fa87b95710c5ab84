/** What the price comparison promises, and exactly when it keeps the promise. */
module PriceDiffLaws {
  import opened PriceDiff

  predicate DistinctNames(cs: seq<Channel>) {
    forall i, j | 0 <= i < j < |cs| :: cs[i].name != cs[j].name
  }

  /** The channel carries a value that local lacks, or that is not equal to the local one. */
  predicate Differing(local: Data, d: Data, f: Field, m: string) {
    Get(d, f, m) != Nil && !Equal(Get(local, f, m), Get(d, f, m))
  }

  ghost predicate SomeDiffering(local: Data, cs: seq<Channel>, f: Field, m: string) {
    exists i :: 0 <= i < |cs| && Differing(local, cs[i].data, f, m)
  }

  predicate TellsHere(local: Data, d: Data, f: Field, m: string) {
    Differing(local, d, f, m) && Get(d, f, m) != SAME
  }

  /** The channel shows a difference for some model and field. */
  ghost predicate TellsSomewhere(local: Data, d: Data) {
    exists m, f :: TellsHere(local, d, f, m)
  }

  // ---------------------------------------------------------------- names and channels

  lemma {:induction false} ByNameAt(cs: seq<Channel>, i: nat)
    requires DistinctNames(cs) && i < |cs|
    ensures cs[i].name in ByName(cs) && ByName(cs)[cs[i].name] == cs[i].data
  {
    if i < |cs| - 1 {
      ByNameAt(cs[..|cs| - 1], i);
    }
  }

  lemma {:induction false} NamedBy(cs: seq<Channel>, n: string) returns (i: nat)
    requires DistinctNames(cs) && n in ByName(cs)
    ensures i < |cs| && cs[i].name == n && ByName(cs)[n] == cs[i].data
  {
    i := |cs| - 1;
    if cs[i].name != n {
      i := NamedBy(cs[..|cs| - 1], n);
    }
  }

  lemma DifferingIsIncluded(local: Data, cs: seq<Channel>, f: Field, m: string)
    requires SomeDiffering(local, cs, f, m)
    ensures Included(local, cs, f, m)
  {
    SomePresentIff(cs, f, m);
    SomeDiffersIff(local, cs, f, m);
    var i :| 0 <= i < |cs| && Differing(local, cs[i].data, f, m);
    if Get(local, f, m) != Nil {
      assert Differs(local, cs[i].data, f, m);
    } else {
      assert Present(cs[i].data, f, m);
    }
  }

  lemma MarkTells(local: Data, d: Data, f: Field, m: string)
    ensures Telling(Mark(local, d, f, m)) <==> TellsHere(local, d, f, m)
  {
  }

  lemma NoisyIff(local: Data, cs: seq<Channel>, i: nat)
    requires DistinctNames(cs) && i < |cs|
    ensures Noisy(local, cs, cs[i].name) <==> TellsSomewhere(local, cs[i].data)
  {
    ByNameAt(cs, i);
    if Noisy(local, cs, cs[i].name) {
      var m, f :| Included(local, cs, f, m) && Telling(Mark(local, cs[i].data, f, m));
      MarkTells(local, cs[i].data, f, m);
    }
    if m, f :| TellsHere(local, cs[i].data, f, m) {
      assert Differing(local, cs[i].data, f, m);
      DifferingIsIncluded(local, cs, f, m);
      MarkTells(local, cs[i].data, f, m);
    }
  }

  // ---------------------------------------------------------------- which pairs survive

  /** The channel keeps a surviving item alive: its own difference, or a missing value of a channel
      that differs elsewhere. */
  ghost predicate Keeps(local: Data, d: Data, f: Field, m: string) {
    TellsHere(local, d, f, m) || (Get(local, f, m) != Nil && Get(d, f, m) == Nil && TellsSomewhere(local, d))
  }

  lemma KeepsIff(local: Data, d: Data, f: Field, m: string)
    ensures Keeps(local, d, f, m) <==> TellsSomewhere(local, d) && Mark(local, d, f, m) != SAME
  {
  }

  lemma KeptExactly(local: Data, cs: seq<Channel>, f: Field, m: string)
    requires DistinctNames(cs)
    ensures Kept(local, cs, f, m) <==>
      Included(local, cs, f, m) && exists i :: 0 <= i < |cs| && Keeps(local, cs[i].data, f, m)
  {
    if Kept(local, cs, f, m) {
      var n :| n in ByName(cs) && Noisy(local, cs, n) && Mark(local, ByName(cs)[n], f, m) != SAME;
      var i := NamedBy(cs, n);
      NoisyIff(local, cs, i);
      KeepsIff(local, cs[i].data, f, m);
    }
    if i :| 0 <= i < |cs| && Keeps(local, cs[i].data, f, m) {
      KeepsIff(local, cs[i].data, f, m);
      NoisyIff(local, cs, i);
      ByNameAt(cs, i);
    }
  }

  /** A null counts as a difference in the first pass although it carries no value, and the item
      stays because a channel that differs elsewhere has no value here. */
  ghost predicate NullArtefact(local: Data, cs: seq<Channel>, f: Field, m: string) {
    && Get(local, f, m) != Nil
    && (exists i :: 0 <= i < |cs| && Present(cs[i].data, f, m) && Get(cs[i].data, f, m) == Nil)
    && (exists i :: 0 <= i < |cs| && Get(cs[i].data, f, m) == Nil && TellsSomewhere(local, cs[i].data))
  }

  /** Every differing value is the text that also stands for equality, and nothing else keeps the item. */
  ghost predicate SameArtefact(local: Data, cs: seq<Channel>, f: Field, m: string) {
    && (forall i | 0 <= i < |cs| && Differing(local, cs[i].data, f, m) :: Get(cs[i].data, f, m) == SAME)
    && (Get(local, f, m) != Nil ==>
          forall i | 0 <= i < |cs| && Get(cs[i].data, f, m) == Nil :: !TellsSomewhere(local, cs[i].data))
  }

  lemma NothingKeepsIff(local: Data, cs: seq<Channel>, f: Field, m: string)
    ensures SameArtefact(local, cs, f, m) <==> forall i | 0 <= i < |cs| :: !Keeps(local, cs[i].data, f, m)
  {
    if forall i | 0 <= i < |cs| :: !Keeps(local, cs[i].data, f, m) {
      forall i | 0 <= i < |cs| && Differing(local, cs[i].data, f, m) ensures Get(cs[i].data, f, m) == SAME {
        assert !Keeps(local, cs[i].data, f, m);
      }
    }
  }

  lemma DifferingSurvivesIff(local: Data, cs: seq<Channel>, f: Field, m: string)
    requires DistinctNames(cs) && SomeDiffering(local, cs, f, m)
    ensures Kept(local, cs, f, m) <==> !SameArtefact(local, cs, f, m)
  {
    KeptExactly(local, cs, f, m);
    DifferingIsIncluded(local, cs, f, m);
    NothingKeepsIff(local, cs, f, m);
  }

  lemma EqualSurvivesIff(local: Data, cs: seq<Channel>, f: Field, m: string)
    requires DistinctNames(cs) && !SomeDiffering(local, cs, f, m)
    ensures Kept(local, cs, f, m) <==> NullArtefact(local, cs, f, m)
  {
    KeptExactly(local, cs, f, m);
    SomeDiffersIff(local, cs, f, m);
    if NullArtefact(local, cs, f, m) {
      var i :| 0 <= i < |cs| && Present(cs[i].data, f, m) && Get(cs[i].data, f, m) == Nil;
      assert Differs(local, cs[i].data, f, m);
      var j :| 0 <= j < |cs| && Get(cs[j].data, f, m) == Nil && TellsSomewhere(local, cs[j].data);
      assert Keeps(local, cs[j].data, f, m);
    }
    if Kept(local, cs, f, m) {
      var j :| 0 <= j < |cs| && Keeps(local, cs[j].data, f, m);
      assert Get(local, f, m) != Nil;
      var i :| 0 <= i < |cs| && Differs(local, cs[i].data, f, m);
      assert Get(cs[i].data, f, m) == Nil;
    }
  }

  /** With distinct names, a pair survives iff some channel differs on it, except for exactly the two
      artefacts of null values and of the literal text "same". */
  lemma SurvivesAsPromisedIff(local: Data, cs: seq<Channel>, f: Field, m: string)
    requires DistinctNames(cs)
    ensures (Kept(local, cs, f, m) <==> SomeDiffering(local, cs, f, m)) <==>
      !(if SomeDiffering(local, cs, f, m) then SameArtefact(local, cs, f, m) else NullArtefact(local, cs, f, m))
  {
    if SomeDiffering(local, cs, f, m) {
      DifferingSurvivesIff(local, cs, f, m);
    } else {
      EqualSurvivesIff(local, cs, f, m);
    }
  }

  // ---------------------------------------------------------------- plain data

  /** No channel sends a null or the literal text "same". */
  ghost predicate Plain(cs: seq<Channel>) {
    forall i, f, m | 0 <= i < |cs| && Present(cs[i].data, f, m) :: Telling(Get(cs[i].data, f, m))
  }

  ghost predicate DiffersSomewhere(local: Data, d: Data) {
    exists m, f :: Differing(local, d, f, m)
  }

  lemma PlainSurvives(local: Data, cs: seq<Channel>, f: Field, m: string)
    requires DistinctNames(cs) && Plain(cs)
    ensures Kept(local, cs, f, m) <==> SomeDiffering(local, cs, f, m)
  {
    if SomeDiffering(local, cs, f, m) {
      DifferingSurvivesIff(local, cs, f, m);
      var i :| 0 <= i < |cs| && Differing(local, cs[i].data, f, m);
      assert Present(cs[i].data, f, m);
      assert !SameArtefact(local, cs, f, m);
    } else {
      EqualSurvivesIff(local, cs, f, m);
    }
  }

  lemma PlainTells(local: Data, cs: seq<Channel>, i: nat)
    requires Plain(cs) && i < |cs|
    ensures TellsSomewhere(local, cs[i].data) <==> DiffersSomewhere(local, cs[i].data)
  {
    if m, f :| Differing(local, cs[i].data, f, m) {
      assert Present(cs[i].data, f, m);
      assert TellsHere(local, cs[i].data, f, m);
    }
  }

  /** On plain data with distinct names the result lists exactly the differing pairs. */
  lemma ListsTheDifferences(r: Listing, local: Data, cs: seq<Channel>, f: Field, m: string)
    requires IsResult(r, local, cs) && DistinctNames(cs) && Plain(cs)
    ensures Listed(r, f, m) <==> SomeDiffering(local, cs, f, m)
  {
    PlainSurvives(local, cs, f, m);
    assert Listed(r, f, m) <==> Kept(local, cs, f, m);
  }

  /** A listed item names exactly the channels that differ somewhere, and says of each what it has:
      its value where it differs, `SAME` where it agrees, nil where only local has a value. */
  lemma ItemNamesTheDiffering(r: Listing, local: Data, cs: seq<Channel>, f: Field, m: string, i: nat)
    requires IsResult(r, local, cs) && DistinctNames(cs) && Plain(cs)
    requires Listed(r, f, m) && i < |cs|
    ensures r[m][f].current == Get(local, f, m)
    ensures cs[i].name in r[m][f].upstreams <==> DiffersSomewhere(local, cs[i].data)
    ensures forall n | n in r[m][f].upstreams :: exists j :: 0 <= j < |cs| && cs[j].name == n
    ensures r[m][f].confidence.Keys == r[m][f].upstreams.Keys
    ensures cs[i].name in r[m][f].upstreams ==>
      && r[m][f].upstreams[cs[i].name] ==
           (if Equal(Get(local, f, m), Get(cs[i].data, f, m)) then SAME else Get(cs[i].data, f, m))
      && r[m][f].confidence[cs[i].name] == Confident(cs[i].data, m)
  {
    ByNameAt(cs, i);
    NoisyIff(local, cs, i);
    PlainTells(local, cs, i);
    var item := Restrict(FullItem(local, cs, f, m), NoisyNames(local, cs));
    assert r[m][f] == item;
    forall n | n in item.upstreams ensures exists j :: 0 <= j < |cs| && cs[j].name == n {
      var j := NamedBy(cs, n);
    }
  }

  // ---------------------------------------------------------------- the two artefacts occur

  /** A null and an unrelated difference of another channel list an agreeing pair. */
  lemma NullListsAgreement()
    ensures exists local: Data, cs: seq<Channel> ::
      && DistinctNames(cs) && Kept(local, cs, ModelRatio, "a") && !SomeDiffering(local, cs, ModelRatio, "a")
  {
    var local: Data := map[ModelRatio := map["a" := Num(1.0)]];
    var one: Data := map[ModelRatio := map["a" := Nil, "b" := Num(2.0)]];
    var cs := [Channel("x", one)];
    assert Get(one, ModelRatio, "b") == Num(2.0) && Get(local, ModelRatio, "b") == Nil;
    assert TellsHere(local, one, ModelRatio, "b");
    assert TellsSomewhere(local, one);
    assert Present(cs[0].data, ModelRatio, "a") && Get(cs[0].data, ModelRatio, "a") == Nil;
    assert !SomeDiffering(local, cs, ModelRatio, "a");
    EqualSurvivesIff(local, cs, ModelRatio, "a");
  }

  /** An upstream billing mode spelled "same" hides a real difference. */
  lemma SameHidesDifference()
    ensures exists local: Data, cs: seq<Channel> ::
      && DistinctNames(cs) && !Kept(local, cs, BillingMode, "a") && SomeDiffering(local, cs, BillingMode, "a")
  {
    var local: Data := map[BillingMode := map["a" := Text("ratio")]];
    var one: Data := map[BillingMode := map["a" := SAME]];
    var cs := [Channel("x", one)];
    assert "ratio"[0] != "same"[0];
    assert Get(local, BillingMode, "a") == Text("ratio");
    assert Differing(local, cs[0].data, BillingMode, "a");
    assert SameArtefact(local, cs, BillingMode, "a");
    DifferingSurvivesIff(local, cs, BillingMode, "a");
  }
}
