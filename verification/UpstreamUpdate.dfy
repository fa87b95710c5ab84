/**
  Reconciling a channel's model list with its upstream: detection of pending additions and
  removals, application of a selection of them, and automatic synchronisation.
*/
module UpstreamUpdate {
  import opened Basics
  import opened Text
  import opened ModelNames

  /** The regular-expression matcher is a parameter: (pattern, name) to whether it matches without
      error. */
  type Matcher = (string, string) -> bool

  /** The columns of a channel row that reconciliation reads and writes. */
  datatype Row = Row(models: string, ignored: seq<string>, detected: seq<string>, removed: seq<string>,
                     autoSync: bool, lastCheck: int)

  function LocalModels(row: Row): seq<string> {
    Normalize(ReadList(row.models, ','))
  }

  const REGEX_PREFIX := "regex:"

  predicate Hides(pattern: string, name: string, matches: Matcher) {
    if REGEX_PREFIX <= pattern then matches(TrimSpace(pattern[|REGEX_PREFIX|..]), name) else pattern == name
  }

  predicate Ignored(patterns: seq<string>, name: string, matches: Matcher) {
    exists i :: 0 <= i < |patterns| && Hides(patterns[i], name, matches)
  }

  /** Upstream names that are neither local nor a redirect target, and are not ignored. */
  function PendingAdds(local: seq<string>, upstream: seq<string>, targets: set<string>,
                       ignored: seq<string>, matches: Matcher): seq<string> {
    if upstream == [] then []
    else
      var prior := PendingAdds(local, upstream[..|upstream| - 1], targets, ignored, matches);
      var name := upstream[|upstream| - 1];
      if name in local || name in targets || Ignored(ignored, name, matches) then prior else prior + [name]
  }

  /** Local names that are not a redirect source and are absent upstream. */
  function PendingRemoves(local: seq<string>, upstream: seq<string>, sources: set<string>): seq<string> {
    if local == [] then []
    else
      var prior := PendingRemoves(local[..|local| - 1], upstream, sources);
      var name := local[|local| - 1];
      if name in sources || name in upstream then prior else prior + [name]
  }

  datatype Pending = Pending(adds: seq<string>, removes: seq<string>)

  /** collectPendingUpstreamModelChangesFromModels. */
  function Collect(local: seq<string>, upstream: seq<string>, ignored: seq<string>,
                   mapping: map<string, string>, matches: Matcher): Pending {
    Pending(
      Normalize(PendingAdds(Normalize(local), Normalize(upstream), mapping.Values, Normalize(ignored), matches)),
      Normalize(PendingRemoves(Normalize(local), Normalize(upstream), mapping.Keys)))
  }

  // ---------------------------------------------------------------- what detection finds

  lemma {:induction false} PendingAddsProperties(local: seq<string>, upstream: seq<string>, targets: set<string>,
                                                 ignored: seq<string>, matches: Matcher)
    requires Normal(upstream)
    ensures var adds := PendingAdds(local, upstream, targets, ignored, matches);
      && Normal(adds)
      && forall x :: x in adds <==>
           x in upstream && x !in local && x !in targets && !Ignored(ignored, x, matches)
  {
    if upstream != [] {
      var n := |upstream| - 1;
      assert upstream == upstream[..n] + [upstream[n]];
      assert forall x :: x in upstream <==> x in upstream[..n] || x == upstream[n];
      assert upstream[n] !in upstream[..n];
      PendingAddsProperties(local, upstream[..n], targets, ignored, matches);
    }
  }

  lemma {:induction false} PendingRemovesProperties(local: seq<string>, upstream: seq<string>, sources: set<string>)
    requires Normal(local)
    ensures var removes := PendingRemoves(local, upstream, sources);
      Normal(removes) && forall x :: x in removes <==> x in local && x !in sources && x !in upstream
  {
    if local != [] {
      var n := |local| - 1;
      assert local == local[..n] + [local[n]];
      assert forall x :: x in local <==> x in local[..n] || x == local[n];
      assert local[n] !in local[..n];
      PendingRemovesProperties(local[..n], upstream, sources);
    }
  }

  /** Detection finds exactly the upstream names to add and the local names to remove, each once. */
  lemma CollectFinds(local: seq<string>, upstream: seq<string>, ignored: seq<string>,
                     mapping: map<string, string>, matches: Matcher)
    ensures var p := Collect(local, upstream, ignored, mapping, matches);
      && Normal(p.adds) && Normal(p.removes)
      && p.removes == PendingRemoves(Normalize(local), Normalize(upstream), mapping.Keys)
      && (forall x :: x in p.adds <==>
            x in Normalize(upstream) && x !in Normalize(local) && x !in mapping.Values
            && !Ignored(Normalize(ignored), x, matches))
      && (forall x :: x in p.removes <==>
            x in Normalize(local) && x !in mapping.Keys && x !in Normalize(upstream))
  {
    NormalizeNormal(local);
    NormalizeNormal(upstream);
    PendingAddsProperties(Normalize(local), Normalize(upstream), mapping.Values, Normalize(ignored), matches);
    PendingRemovesProperties(Normalize(local), Normalize(upstream), mapping.Keys);
    NormalIsNormalized(PendingAdds(Normalize(local), Normalize(upstream), mapping.Values, Normalize(ignored), matches));
    NormalIsNormalized(PendingRemoves(Normalize(local), Normalize(upstream), mapping.Keys));
  }

  // ---------------------------------------------------------------- operations on a row

  function Detect(row: Row, upstream: seq<string>, mapping: map<string, string>, matches: Matcher): Pending {
    Collect(ReadList(row.models, ','), upstream, row.ignored, mapping, matches)
  }

  /** A detection pass without automatic application. */
  function AfterDetect(row: Row, upstream: seq<string>, mapping: map<string, string>, matches: Matcher, now: int): Row {
    Staged(row, Detect(row, upstream, mapping, matches), now)
  }

  function Staged(row: Row, p: Pending, now: int): Row {
    row.(detected := p.adds, removed := p.removes, lastCheck := now)
  }

  /** A detection pass that adds what it finds. */
  function AfterAutoSync(row: Row, upstream: seq<string>, mapping: map<string, string>, matches: Matcher,
                         now: int): Row
  {
    Added(row, Detect(row, upstream, mapping, matches), now)
  }

  function Added(row: Row, p: Pending, now: int): Row {
    if p.adds == [] then Staged(row, p, now)
    else
      var merged := Merge(LocalModels(row), p.adds);
      row.(models := if |merged| > |LocalModels(row)| then Join(merged, ',') else row.models,
           detected := [], removed := p.removes, lastCheck := now)
  }

  /** By how much merging makes a list longer. */
  function Growth(origin: seq<string>, adds: seq<string>): int {
    var merged := Merge(origin, adds);
    if |merged| > |origin| then |merged| - |origin| else 0
  }

  datatype Applied = Applied(added: seq<string>, removed: seq<string>, ignored: seq<string>,
                             remaining: seq<string>, remainingRemoves: seq<string>)

  const NOTHING_APPLIED := Applied([], [], [], [], [])

  /** The part of a user's selection that is staged; add wins over remove. */
  function Selection(row: Row, adds: seq<string>, ignores: seq<string>, removes: seq<string>): Applied {
    var stagedAdds := Normalize(row.detected);
    var stagedRemoves := Normalize(row.removed);
    var added := Intersect(adds, stagedAdds);
    var ignored := Intersect(ignores, stagedAdds);
    var removed := Subtract(Intersect(removes, stagedRemoves), added);
    Applied(added, removed, ignored,
            Subtract(stagedAdds, added + ignored), Subtract(stagedRemoves, removed))
  }

  /** applyChannelUpstreamModelUpdates. */
  function AfterApply(row: Row, adds: seq<string>, ignores: seq<string>, removes: seq<string>, now: int): Row {
    AfterSelection(row, Selection(row, adds, ignores, removes), now)
  }

  /** What is stored once the selection is made. */
  function AfterSelection(row: Row, sel: Applied, now: int): Row {
    Row(ModelsAfter(row.models, sel), IgnoredAfter(row.ignored, sel),
        sel.remaining, sel.remainingRemoves, row.autoSync, now)
  }

  /** The column is only rewritten when the list of names changes. */
  function ModelsAfter(models: string, sel: Applied): string {
    var origin := Normalize(ReadList(models, ','));
    var next := ApplySelected(origin, sel.added, sel.removed);
    if origin != next then Join(next, ',') else models
  }

  function IgnoredAfter(ignored: seq<string>, sel: Applied): seq<string> {
    var merged := Merge(ignored, sel.ignored);
    if sel.added != [] then Subtract(merged, sel.added) else merged
  }

  /** ApplyAllChannelUpstreamModelUpdates on one channel: everything staged is selected. */
  function AfterApplyAll(row: Row, now: int): Row {
    AfterApply(row, Normalize(row.detected), [], Normalize(row.removed), now)
  }

  // ---------------------------------------------------------------- the text column

  predicate CommaFree(xs: seq<string>) {
    forall x | x in xs :: ',' !in x
  }

  lemma LocalsAreCommaFree(row: Row)
    ensures Normal(LocalModels(row)) && CommaFree(LocalModels(row))
  {
    var parts := ReadList(row.models, ',');
    ReadListShape(row.models, ',');
    NormalizeNormal(parts);
    forall x | x in LocalModels(row) ensures ',' !in x {
      var y :| y in parts && TrimSpace(y) == x;
      TrimWithTight(y, IsSpace);
    }
  }

  /** A normal comma-free list is read back as it was written. */
  lemma StoredModelsReadBack(row: Row, ms: seq<string>)
    requires Normal(ms) && CommaFree(ms) && row.models == Join(ms, ',')
    ensures LocalModels(row) == ms
  {
    assert forall i | 0 <= i < |ms| :: ms[i] in ms;
    ReadBackIff(ms, ',');
    NormalIsNormalized(ms);
  }

  lemma EmptyIff(xs: seq<string>)
    ensures xs == [] <==> forall x :: x !in xs
  {
    if xs != [] { assert xs[0] in xs; }
  }

  // ---------------------------------------------------------------- applying a selection

  /** Whatever the user asked for: only staged models are added or removed; added, ignored and
      remaining cover the staged additions and remaining is disjoint from the other two; an added
      model is neither removed nor left on the ignore list. */
  lemma SelectionLaws(row: Row, adds: seq<string>, ignores: seq<string>, removes: seq<string>, now: int)
    ensures var sel := Selection(row, adds, ignores, removes);
      var staged := Normalize(row.detected);
      && Normal(sel.added) && Normal(sel.removed)
      && (forall x :: x in sel.added <==> x in Normalize(adds) && x in staged)
      && (forall x :: x in sel.ignored <==> x in Normalize(ignores) && x in staged)
      && (forall x :: x in sel.removed <==>
            x in Normalize(removes) && x in Normalize(row.removed) && x !in sel.added)
      && (forall x :: x in sel.remaining <==> x in staged && x !in sel.added && x !in sel.ignored)
      && (forall x :: x in sel.remainingRemoves <==> x in Normalize(row.removed) && x !in sel.removed)
      && (forall x | x in sel.added :: x !in AfterApply(row, adds, ignores, removes, now).ignored)
  {
    var sel := Selection(row, adds, ignores, removes);
    var staged, stagedRemoves := Normalize(row.detected), Normalize(row.removed);
    NormalizeNormal(row.detected);
    NormalizeNormal(row.removed);
    NormalizeNormal(adds);
    NormalizeNormal(ignores);
    NormalizeNormal(removes);
    NormalIsNormalized(staged);
    NormalIsNormalized(stagedRemoves);
    KeepProperties(Normalize(adds), staged);
    KeepProperties(Normalize(ignores), staged);
    KeepProperties(Normalize(removes), stagedRemoves);
    NormalParts(Normalize(adds), staged);
    NormalParts(Normalize(ignores), staged);
    NormalParts(Normalize(removes), stagedRemoves);
    SubtractMembers(Intersect(removes, stagedRemoves), sel.added);
    SubtractMembers(stagedRemoves, sel.removed);
    RemainingMembers(staged, sel.added, sel.ignored);
    if sel.added != [] {
      MergeNormal(row.ignored, sel.ignored);
      SubtractMembers(Merge(row.ignored, sel.ignored), sel.added);
    }
  }

  /** On normal lists subtraction is plain difference. */
  lemma SubtractMembers(xs: seq<string>, ys: seq<string>)
    requires Normal(xs) && Normal(ys)
    ensures Normal(Subtract(xs, ys)) && Subtract(xs, ys) == Drop(xs, ys)
    ensures forall x :: x in Subtract(xs, ys) <==> x in xs && x !in ys
  {
    NormalIsNormalized(xs);
    NormalIsNormalized(ys);
    DropProperties(xs, ys);
    NormalParts(xs, ys);
  }

  lemma RemainingMembers(staged: seq<string>, added: seq<string>, ignored: seq<string>)
    requires Normal(staged) && (forall x | x in added :: Clean(x)) && (forall x | x in ignored :: Clean(x))
    ensures forall x :: x in Subtract(staged, added + ignored) <==> x in staged && x !in added && x !in ignored
  {
    var both := added + ignored;
    NormalIsNormalized(staged);
    TrimAllProperties(both);
    UniqProperties(both);
    DropProperties(staged, Normalize(both));
  }

  lemma MergeNormal(base: seq<string>, appended: seq<string>)
    requires Normal(appended)
    ensures Normal(Merge(base, appended))
    ensures forall x :: x in Merge(base, appended) <==> x in Normalize(base) || x in appended
  {
    NormalizeNormal(base);
    NormalIsNormalized(appended);
    DropProperties(appended, Normalize(base));
    NormalParts(appended, Normalize(base));
    NormalConcat(Normalize(base), Drop(appended, Normalize(base)));
  }

  /** The model list after an application is the surviving old models in order followed by the newly
      added ones in request order - exactly when no added name contains a comma. */
  lemma AppliedListIff(row: Row, adds: seq<string>, ignores: seq<string>, removes: seq<string>, now: int)
    ensures var sel := Selection(row, adds, ignores, removes);
      var origin := LocalModels(row);
      (LocalModels(AfterApply(row, adds, ignores, removes, now))
         == Drop(origin, sel.removed) + Drop(sel.added, origin)) <==> CommaFree(sel.added)
  {
    var sel := Selection(row, adds, ignores, removes);
    var origin := LocalModels(row);
    var row' := AfterApply(row, adds, ignores, removes, now);
    var next := ApplySelected(origin, sel.added, sel.removed);
    SelectionLaws(row, adds, ignores, removes, now);
    LocalsAreCommaFree(row);
    LocalsAreCommaFree(row');
    ApplySelectedShape(origin, sel.added, sel.removed);
    DropProperties(sel.removed, sel.added);
    assert Drop(sel.removed, sel.added) == sel.removed;
    if CommaFree(sel.added) {
      if origin != next { StoredModelsReadBack(row', next); }
    } else {
      var x :| x in sel.added && ',' in x;
      assert x in next;
    }
  }

  // ---------------------------------------------------------------- detect, apply all, detect again

  /** Some upstream name, neither local nor a redirect target, is hidden only by ignore patterns that
      are themselves staged for addition (names starting with "regex:"). */
  ghost predicate Unhides(row: Row, upstream: seq<string>, mapping: map<string, string>, matches: Matcher) {
    var patterns := Normalize(row.ignored);
    var adds := Detect(row, upstream, mapping, matches).adds;
    exists x :: x in Normalize(upstream) && x !in LocalModels(row) && x !in mapping.Values
      && Ignored(patterns, x, matches) && !Ignored(Drop(patterns, adds), x, matches)
  }

  lemma IgnoredSubset(ps: seq<string>, qs: seq<string>, x: string, matches: Matcher)
    requires (forall p | p in ps :: p in qs) && Ignored(ps, x, matches)
    ensures Ignored(qs, x, matches)
  {
    var i :| 0 <= i < |ps| && Hides(ps[i], x, matches);
    assert ps[i] in qs;
    var j :| 0 <= j < |qs| && qs[j] == ps[i];
  }

  /** The row after staging and applying everything. */
  lemma ApplyAllEffect(row: Row, upstream: seq<string>, mapping: map<string, string>, matches: Matcher,
                       now: int, later: int)
    ensures var p := Detect(row, upstream, mapping, matches);
      var row2 := AfterApplyAll(AfterDetect(row, upstream, mapping, matches, now), later);
      && row2.ignored == Drop(Normalize(row.ignored), p.adds)
      && (CommaFree(p.adds) ==>
            forall x :: x in LocalModels(row2) <==> x in p.adds || (x in LocalModels(row) && x !in p.removes))
  {
    var row1 := AfterDetect(row, upstream, mapping, matches, now);
    var p := Detect(row, upstream, mapping, matches);
    CollectFinds(ReadList(row.models, ','), upstream, row.ignored, mapping, matches);
    NormalIsNormalized(p.adds);
    NormalIsNormalized(p.removes);
    var sel := Selection(row1, p.adds, [], p.removes);
    KeepProperties(p.adds, p.adds);
    KeepProperties(p.removes, p.removes);
    assert sel.added == p.adds && sel.ignored == [];
    SubtractMembers(p.removes, p.adds);
    DropProperties(p.removes, p.adds);
    assert sel.removed == p.removes;
    ApplyAllIgnored(row.ignored, p.adds);
    AppliedListIff(row1, p.adds, [], p.removes, later);
    DropProperties(LocalModels(row), p.removes);
    DropProperties(p.adds, LocalModels(row));
  }

  lemma ApplyAllIgnored(ignored: seq<string>, adds: seq<string>)
    requires Normal(adds)
    ensures Merge(ignored, []) == Normalize(ignored)
    ensures Subtract(Merge(ignored, []), adds) == Drop(Normalize(ignored), adds)
    ensures adds == [] ==> Drop(Normalize(ignored), adds) == Normalize(ignored)
  {
    NormalizeNormal(ignored);
    assert Normalize([]) == [];
    SubtractMembers(Normalize(ignored), adds);
    DropProperties(Normalize(ignored), adds);
  }

  /** Detect-then-apply-all is a fixpoint against the same upstream and mapping exactly when no staged
      name contains a comma and adding the staged names unhides nothing. */
  lemma ApplyAllFixpointIff(row: Row, upstream: seq<string>, mapping: map<string, string>, matches: Matcher,
                            now: int, later: int)
    ensures var p := Detect(row, upstream, mapping, matches);
      var row2 := AfterApplyAll(AfterDetect(row, upstream, mapping, matches, now), later);
      Detect(row2, upstream, mapping, matches) == Pending([], []) <==>
        CommaFree(p.adds) && !Unhides(row, upstream, mapping, matches)
  {
    var p := Detect(row, upstream, mapping, matches);
    var row2 := AfterApplyAll(AfterDetect(row, upstream, mapping, matches, now), later);
    var q := Detect(row2, upstream, mapping, matches);
    var patterns := Normalize(row.ignored);
    NormalizeNormal(row.ignored);
    NormalParts(patterns, p.adds);
    NormalIsNormalized(Drop(patterns, p.adds));
    DropProperties(patterns, p.adds);
    CollectFinds(ReadList(row.models, ','), upstream, row.ignored, mapping, matches);
    CollectFinds(ReadList(row2.models, ','), upstream, row2.ignored, mapping, matches);
    ApplyAllEffect(row, upstream, mapping, matches, now, later);
    LocalsAreCommaFree(row2);
    if CommaFree(p.adds) {
      EmptyIff(q.removes);
      EmptyIff(q.adds);
      if Unhides(row, upstream, mapping, matches) {
        var x :| x in Normalize(upstream) && x !in LocalModels(row) && x !in mapping.Values
          && Ignored(patterns, x, matches) && !Ignored(Drop(patterns, p.adds), x, matches);
        assert x in q.adds;
      }
    } else {
      var x :| x in p.adds && ',' in x;
      CommaStays(row, upstream, mapping, matches, now, later, x);
    }
  }

  /** One round of detecting and applying everything. */
  function AfterRound(row: Row, upstream: seq<string>, mapping: map<string, string>, matches: Matcher,
                      now: int, later: int): Row
  {
    AfterApplyAll(AfterDetect(row, upstream, mapping, matches, now), later)
  }

  /** The row after rounds at the given times. */
  function AfterRounds(row: Row, upstream: seq<string>, mapping: map<string, string>, matches: Matcher,
                       times: seq<(int, int)>): Row
    decreases times
  {
    if times == [] then row
    else AfterRounds(AfterRound(row, upstream, mapping, matches, times[0].0, times[0].1), upstream, mapping, matches,
                     times[1..])
  }

  /** One round does not get rid of a staged name with a comma. */
  lemma CommaStays(row: Row, upstream: seq<string>, mapping: map<string, string>, matches: Matcher,
                   now: int, later: int, x: string)
    requires ',' in x && x in Detect(row, upstream, mapping, matches).adds
    ensures x in Detect(AfterRound(row, upstream, mapping, matches, now, later), upstream, mapping, matches).adds
  {
    var p := Detect(row, upstream, mapping, matches);
    var row2 := AfterApplyAll(AfterDetect(row, upstream, mapping, matches, now), later);
    var patterns := Normalize(row.ignored);
    NormalizeNormal(row.ignored);
    NormalParts(patterns, p.adds);
    NormalIsNormalized(Drop(patterns, p.adds));
    DropProperties(patterns, p.adds);
    CollectFinds(ReadList(row.models, ','), upstream, row.ignored, mapping, matches);
    CollectFinds(ReadList(row2.models, ','), upstream, row2.ignored, mapping, matches);
    ApplyAllEffect(row, upstream, mapping, matches, now, later);
    LocalsAreCommaFree(row2);
    if Ignored(Drop(patterns, p.adds), x, matches) {
      IgnoredSubset(Drop(patterns, p.adds), patterns, x, matches);
    }
  }

  /** A staged name with a comma is staged again by every later detection. */
  lemma {:induction false} CommaIsStagedForEver(row: Row, upstream: seq<string>, mapping: map<string, string>,
                                                matches: Matcher, times: seq<(int, int)>, x: string)
    requires ',' in x && x in Detect(row, upstream, mapping, matches).adds
    ensures x in Detect(AfterRounds(row, upstream, mapping, matches, times), upstream, mapping, matches).adds
    decreases times
  {
    if times != [] {
      CommaStays(row, upstream, mapping, matches, times[0].0, times[0].1, x);
      var next := AfterRound(row, upstream, mapping, matches, times[0].0, times[0].1);
      CommaIsStagedForEver(next, upstream, mapping, matches, times[1..], x);
    }
  }

  /** Such a name exists: "a,b", offered to a channel without models. */
  lemma CommaBreaksFixpoint(matches: Matcher, times: seq<(int, int)>)
    ensures var row := Row("", [], [], [], false, 0);
      "a,b" in Detect(AfterRounds(row, ["a,b"], map[], matches, times), ["a,b"], map[], matches).adds
  {
    var row := Row("", [], [], [], false, 0);
    TightIsTrimmed("a,b", IsSpace);
    NormalizeNormal(["a,b"]);
    assert "a,b" in ["a,b"] && TrimSpace("a,b") in Normalize(["a,b"]);
    CollectFinds([], ["a,b"], [], map[], matches);
    assert "a,b"[1] == ',';
    CommaIsStagedForEver(row, ["a,b"], map[], matches, times, "a,b");
  }

  /** An upstream model named like an ignore pattern: adding it drops the pattern, and the names the
      pattern hid are staged by the next detection. */
  lemma RegexNameBreaksFixpoint()
    ensures var row := Row("", ["regex:^y"], [], [], false, 0);
      var matches := (p, n) => p == "^y" && n == "y";
      var row2 := AfterApplyAll(AfterDetect(row, ["regex:^y", "y"], map[], matches, 1), 2);
      Detect(row2, ["regex:^y", "y"], map[], matches) != Pending([], [])
  {
    var pattern, upstream := "regex:^y", ["regex:^y", "y"];
    var row := Row("", [pattern], [], [], false, 0);
    var matches := (p, n) => p == "^y" && n == "y";
    PatternIsNormal(pattern);
    PatternUnhides(row, upstream, matches, pattern);
    ApplyAllFixpointIff(row, upstream, map[], matches, 1, 2);
  }

  lemma PatternIsNormal(pattern: string)
    requires pattern == "regex:^y"
    ensures Normal([pattern]) && Normal([pattern, "y"]) && TrimSpace("^y") == "^y" && pattern[|REGEX_PREFIX|..] == "^y"
  {
    TightIsTrimmed("^y", IsSpace);
    TightIsTrimmed("y", IsSpace);
    TightIsTrimmed(pattern, IsSpace);
    assert |pattern| == 8 && |"y"| == 1;
  }

  lemma PatternUnhides(row: Row, upstream: seq<string>, matches: Matcher, pattern: string)
    requires row == Row("", [pattern], [], [], false, 0) && upstream == [pattern, "y"] && pattern == "regex:^y"
    requires matches("^y", "y") && !matches("^y", pattern)
    requires Normal([pattern]) && Normal(upstream) && TrimSpace("^y") == "^y" && pattern[|REGEX_PREFIX|..] == "^y"
    ensures Unhides(row, upstream, map[], matches)
  {
    var p := Detect(row, upstream, map[], matches);
    NormalIsNormalized([pattern]);
    NormalIsNormalized(upstream);
    CollectFinds([], upstream, [pattern], map[], matches);
    assert pattern in upstream && "y" in upstream;
    assert pattern in p.adds;
    DropProperties([pattern], p.adds);
    assert Hides([pattern][0], "y", matches);
    assert Drop([pattern], p.adds) == [];
    assert "y" in Normalize(upstream) && Ignored([pattern], "y", matches);
  }

  // ---------------------------------------------------------------- automatic synchronisation

  lemma {:induction false} PendingRemovesConcat(local: seq<string>, more: seq<string>, upstream: seq<string>,
                                                sources: set<string>)
    requires forall x | x in more :: x in upstream
    ensures PendingRemoves(local + more, upstream, sources) == PendingRemoves(local, upstream, sources)
  {
    if more == [] {
      assert local + more == local;
    } else {
      var n := |more| - 1;
      assert (local + more)[..|local + more| - 1] == local + more[..n];
      assert more[n] in more && forall x | x in more[..n] :: x in more;
      PendingRemovesConcat(local, more[..n], upstream, sources);
    }
  }

  /** Automatic synchronisation adds exactly the pending names; the next detection has nothing to add
      exactly when no added name contains a comma, and then finds the same removals again. */
  lemma AutoSyncFixpointIff(row: Row, upstream: seq<string>, mapping: map<string, string>, matches: Matcher, now: int)
    ensures var p := Detect(row, upstream, mapping, matches);
      var row2 := AfterAutoSync(row, upstream, mapping, matches, now);
      var q := Detect(row2, upstream, mapping, matches);
      && |Merge(LocalModels(row), p.adds)| - |LocalModels(row)| == |p.adds|
      && (q.adds == [] <==> CommaFree(p.adds))
      && (CommaFree(p.adds) ==> LocalModels(row2) == LocalModels(row) + p.adds && q.removes == p.removes)
  {
    var p := Detect(row, upstream, mapping, matches);
    var row2 := AfterAutoSync(row, upstream, mapping, matches, now);
    var q := Detect(row2, upstream, mapping, matches);
    var local := LocalModels(row);
    LocalsAreCommaFree(row);
    LocalsAreCommaFree(row2);
    CollectFinds(ReadList(row.models, ','), upstream, row.ignored, mapping, matches);
    CollectFinds(ReadList(row2.models, ','), upstream, row2.ignored, mapping, matches);
    NormalIsNormalized(local);
    NormalIsNormalized(p.adds);
    DropProperties(p.adds, local);
    assert Merge(local, p.adds) == local + p.adds;
    NormalConcat(local, p.adds);
    EmptyIff(q.adds);
    if CommaFree(p.adds) {
      if p.adds == [] {
        assert local + p.adds == local;
      } else {
        StoredModelsReadBack(row2, local + p.adds);
      }
      PendingRemovesConcat(local, p.adds, Normalize(upstream), mapping.Keys);
    } else {
      var x :| x in p.adds && ',' in x;
      assert x in q.adds;
    }
  }

  // ---------------------------------------------------------------- the channel

  datatype CheckResult =
    | Skipped
    | FetchFailed
    | StoreFailed
    | Checked(modelsChanged: bool, autoAdded: int, refreshed: bool)

  /** The persisted channel row. */
  class Channel {
    var models: string
    var ignored: seq<string>
    var detected: seq<string>
    var removed: seq<string>
    var autoSync: bool
    var lastCheck: int

    ghost function Snapshot(): Row
      reads this
    {
      Row(models, ignored, detected, removed, autoSync, lastCheck)
    }

    constructor (row: Row)
      ensures Snapshot() == row
    {
      models, ignored, detected := row.models, row.ignored, row.detected;
      removed, autoSync, lastCheck := row.removed, row.autoSync, row.lastCheck;
    }

    /** collectPendingUpstreamModelChangesFromModels, filling its two lists name by name. */
    static method CollectPending(local: seq<string>, upstream: seq<string>, ignoredModels: seq<string>,
                                 mapping: map<string, string>, matches: Matcher)
      returns (adds: seq<string>, removes: seq<string>)
      ensures Pending(adds, removes) == Collect(local, upstream, ignoredModels, mapping, matches)
    {
      var localModels, upstreamModels := Normalize(local), Normalize(upstream);
      var patterns := Normalize(ignoredModels);
      var covered := (set m | m in localModels) + mapping.Values;
      adds := [];
      for i := 0 to |upstreamModels|
        invariant adds == PendingAdds(localModels, upstreamModels[..i], mapping.Values, patterns, matches)
      {
        assert upstreamModels[..i + 1][..i] == upstreamModels[..i];
        if upstreamModels[i] !in covered && !Ignored(patterns, upstreamModels[i], matches) {
          adds := adds + [upstreamModels[i]];
        }
      }
      assert upstreamModels[..|upstreamModels|] == upstreamModels;
      removes := [];
      for i := 0 to |localModels|
        invariant removes == PendingRemoves(localModels[..i], upstreamModels, mapping.Keys)
      {
        assert localModels[..i + 1][..i] == localModels[..i];
        if localModels[i] !in mapping && localModels[i] !in upstreamModels {
          removes := removes + [localModels[i]];
        }
      }
      assert localModels[..|localModels|] == localModels;
      adds, removes := Normalize(adds), Normalize(removes);
    }

    /** checkAndPersistChannelUpstreamModelUpdates: a pass is skipped within the minimum interval, a
        failed fetch only records the time, and otherwise the findings are staged or added.  When the
        list changed, the ability table is refreshed after the row was stored, which may fail. */
    method CheckAndPersist(force: bool, allowAutoApply: bool, now: int, minInterval: int,
                           fetched: Option<seq<string>>, mapping: map<string, string>, matches: Matcher,
                           storeOk: bool, abilitiesOk: bool)
      returns (result: CheckResult)
      modifies this
      ensures result == Skipped <==> !force && old(lastCheck) > 0 && now - old(lastCheck) < minInterval
      ensures result == Skipped || result == StoreFailed ==> Snapshot() == old(Snapshot())
      ensures result == StoreFailed <==> result != Skipped && !storeOk
      ensures result == FetchFailed <==> result != Skipped && storeOk && fetched.None?
      ensures result == FetchFailed ==> Snapshot() == old(Snapshot()).(lastCheck := now)
      ensures result.Checked? ==>
        var row := old(Snapshot());
        var p := Detect(row, fetched.value, mapping, matches);
        if allowAutoApply && row.autoSync then
          Snapshot() == AfterAutoSync(row, fetched.value, mapping, matches, now)
          && result.autoAdded == |p.adds| && (result.modelsChanged <==> p.adds != [])
        else
          Snapshot() == AfterDetect(row, fetched.value, mapping, matches, now)
          && !result.modelsChanged && result.autoAdded == 0
      ensures result.Checked? ==> (result.refreshed <==> result.modelsChanged ==> abilitiesOk)
    {
      if !force && lastCheck > 0 && now - lastCheck < minInterval {
        return Skipped;
      }
      if !storeOk {
        return StoreFailed;
      }
      if fetched.None? {
        lastCheck := now;
        return FetchFailed;
      }
      AutoSyncFixpointIff(Snapshot(), fetched.value, mapping, matches, now);
      var adds, removes := CollectPending(ReadList(models, ','), fetched.value, ignored, mapping, matches);
      var modelsChanged, autoAdded := StoreFindings(allowAutoApply, adds, removes, now);
      return Checked(modelsChanged, autoAdded, modelsChanged ==> abilitiesOk);
    }

    /** Adds or stages what a detection found. */
    method StoreFindings(allowAutoApply: bool, adds: seq<string>, removes: seq<string>, now: int)
      returns (modelsChanged: bool, autoAdded: int)
      modifies this
      ensures Snapshot() ==
        if allowAutoApply && old(autoSync) then Added(old(Snapshot()), Pending(adds, removes), now)
        else Staged(old(Snapshot()), Pending(adds, removes), now)
      ensures autoAdded ==
        (if allowAutoApply && old(autoSync) && adds != [] then Growth(LocalModels(old(Snapshot())), adds) else 0)
      ensures modelsChanged <==> autoAdded > 0
    {
      modelsChanged, autoAdded := false, 0;
      if allowAutoApply && autoSync && |adds| > 0 {
        var origin := Normalize(ReadList(models, ','));
        var merged := MergeModelNames(origin, adds);
        if |merged| > |origin| {
          models := Join(merged, ',');
          autoAdded := |merged| - |origin|;
          modelsChanged := true;
        }
        detected := [];
      } else {
        detected := adds;
      }
      removed := removes;
      lastCheck := now;
    }

    /** applyChannelUpstreamModelUpdates: `stored` says that the row was written, `failed` that an error is
        reported - also when the row was written and refreshing the ability table failed. */
    method Apply(addInput: seq<string>, ignoreInput: seq<string>, removeInput: seq<string>, now: int,
                 storeOk: bool, abilitiesOk: bool)
      returns (stored: bool, failed: bool, applied: Applied, modelsChanged: bool)
      modifies this
      ensures stored == storeOk
      ensures failed <==> !stored || (modelsChanged && !abilitiesOk)
      ensures stored ==> Snapshot() == AfterApply(old(Snapshot()), addInput, ignoreInput, removeInput, now)
      ensures stored ==> applied == Selection(old(Snapshot()), addInput, ignoreInput, removeInput)
      ensures stored ==>
        (modelsChanged <==>
           LocalModels(old(Snapshot())) != ApplySelected(LocalModels(old(Snapshot())), applied.added, applied.removed))
      ensures !stored ==> Snapshot() == old(Snapshot()) && applied == NOTHING_APPLIED && !modelsChanged
    {
      applied := Select(addInput, ignoreInput, removeInput);
      if !storeOk {
        return false, true, NOTHING_APPLIED, false;
      }
      modelsChanged := StoreSelection(applied, now);
      stored, failed := true, modelsChanged && !abilitiesOk;
    }

    /** Cuts the request down to the staged names, with the loops of intersectModelNames and
        subtractModelNames. */
    method Select(addInput: seq<string>, ignoreInput: seq<string>, removeInput: seq<string>) returns (applied: Applied)
      ensures applied == Selection(Snapshot(), addInput, ignoreInput, removeInput)
    {
      var stagedAdds, stagedRemoves := Normalize(detected), Normalize(removed);
      var adds := IntersectModelNames(addInput, stagedAdds);
      var ignores := IntersectModelNames(ignoreInput, stagedAdds);
      var removes := IntersectModelNames(removeInput, stagedRemoves);
      removes := SubtractModelNames(removes, adds);
      var remaining := SubtractModelNames(stagedAdds, adds + ignores);
      var remainingRemoves := SubtractModelNames(stagedRemoves, removes);
      applied := Applied(adds, removes, ignores, remaining, remainingRemoves);
    }

    method StoreSelection(applied: Applied, now: int) returns (modelsChanged: bool)
      modifies this
      ensures Snapshot() == AfterSelection(old(Snapshot()), applied, now)
      ensures modelsChanged <==>
        LocalModels(old(Snapshot())) != ApplySelected(LocalModels(old(Snapshot())), applied.added, applied.removed)
    {
      var origin := Normalize(ReadList(models, ','));
      var next := ApplySelected(origin, applied.added, applied.removed);
      modelsChanged := origin != next;
      if modelsChanged {
        models := Join(next, ',');
      }
      ignored := MergeIgnored(ignored, applied);
      detected := applied.remaining;
      removed := applied.remainingRemoves;
      lastCheck := now;
    }

    static method MergeIgnored(ignored: seq<string>, applied: Applied) returns (r: seq<string>)
      ensures r == IgnoredAfter(ignored, applied)
    {
      r := MergeModelNames(ignored, applied.ignored);
      if |applied.added| > 0 {
        r := SubtractModelNames(r, applied.added);
      }
    }
  }
}
