/** What reconciliation leaves in a row, said of the requests, and what an ignored name is worth later on. */
module UpstreamLaws {
  import opened Basics
  import opened Text
  import opened ModelNames
  import opened UpstreamUpdate

  // ---------------------------------------------------------------- detection

  /** A name is hidden by an ignore entry: the entry is a regular expression that matches it, or the name. */
  predicate HiddenBy(entry: string, x: string, matches: Matcher) {
    if "regex:" <= entry then matches(TrimSpace(entry[6..]), x) else entry == x
  }

  lemma IgnoredMeans(entries: seq<string>, x: string, matches: Matcher)
    ensures Ignored(entries, x, matches) <==> exists e :: e in entries && HiddenBy(e, x, matches)
  {
    assert |REGEX_PREFIX| == 6;
    if i :| 0 <= i < |entries| && Hides(entries[i], x, matches) {
      assert entries[i] in entries && HiddenBy(entries[i], x, matches);
    }
    if e :| e in entries && HiddenBy(e, x, matches) {
      var i :| 0 <= i < |entries| && entries[i] == e;
      assert Hides(entries[i], x, matches);
    }
  }

  /** Detection stages exactly the upstream names that are neither local nor a redirect target and that no
      ignore entry hides, and the local names that are neither upstream nor a redirect source. */
  lemma DetectionFinds(row: Row, upstream: seq<string>, mapping: map<string, string>, matches: Matcher, now: int,
                       x: string)
    ensures var row' := AfterDetect(row, upstream, mapping, matches, now);
      && (x in row'.detected <==>
            x in Normalize(upstream) && x !in LocalModels(row) && x !in mapping.Values
            && !exists e :: e in Normalize(row.ignored) && HiddenBy(e, x, matches))
      && (x in row'.removed <==> x in LocalModels(row) && x !in Normalize(upstream) && x !in mapping.Keys)
      && row' == row.(detected := row'.detected, removed := row'.removed, lastCheck := now)
  {
    CollectFinds(ReadList(row.models, ','), upstream, row.ignored, mapping, matches);
    IgnoredMeans(Normalize(row.ignored), x, matches);
  }

  // ---------------------------------------------------------------- application

  /** The request adds (removes) the name: it is staged, and adding wins. */
  predicate Adds(row: Row, adds: seq<string>, x: string) {
    x in Normalize(adds) && x in Normalize(row.detected)
  }

  predicate Removes(row: Row, adds: seq<string>, removes: seq<string>, x: string) {
    x in Normalize(removes) && x in Normalize(row.removed) && !Adds(row, adds, x)
  }

  /** Whatever was requested: a name is on the ignore list afterwards iff it was there or is staged and was to
      be ignored, and is not added; staged remain the names that were neither added nor ignored (not
      removed); and if no added name has a comma, the models are the old ones without the removed ones,
      and the added ones. */
  lemma ApplicationStores(row: Row, adds: seq<string>, ignores: seq<string>, removes: seq<string>, now: int, x: string)
    ensures var row' := AfterApply(row, adds, ignores, removes, now);
      && (x in row'.ignored <==>
            (x in Normalize(row.ignored) || (x in Normalize(ignores) && x in Normalize(row.detected)))
            && !Adds(row, adds, x))
      && (x in row'.detected <==>
            x in Normalize(row.detected) && x !in Normalize(adds) && x !in Normalize(ignores))
      && (x in row'.removed <==> x in Normalize(row.removed) && !Removes(row, adds, removes, x))
      && Normal(row'.ignored) && row'.autoSync == row.autoSync && row'.lastCheck == now
  {
    var sel := Selection(row, adds, ignores, removes);
    SelectionLaws(row, adds, ignores, removes, now);
    StagedIsNormal(row, ignores);
    MergeNormal(row.ignored, sel.ignored);
    if sel.added != [] {
      SubtractMembers(Merge(row.ignored, sel.ignored), sel.added);
    }
  }

  lemma StagedIsNormal(row: Row, ignores: seq<string>)
    ensures Normal(Intersect(ignores, Normalize(row.detected)))
  {
    NormalizeNormal(ignores);
    NormalizeNormal(row.detected);
    NormalIsNormalized(Normalize(row.detected));
    KeepProperties(Normalize(ignores), Normalize(row.detected));
    NormalParts(Normalize(ignores), Normalize(row.detected));
  }

  lemma ApplicationModels(row: Row, adds: seq<string>, ignores: seq<string>, removes: seq<string>, now: int, x: string)
    requires forall y | Adds(row, adds, y) :: ',' !in y
    ensures x in LocalModels(AfterApply(row, adds, ignores, removes, now)) <==>
      Adds(row, adds, x) || (x in LocalModels(row) && !Removes(row, adds, removes, x))
  {
    var sel := Selection(row, adds, ignores, removes);
    SelectionLaws(row, adds, ignores, removes, now);
    AppliedListIff(row, adds, ignores, removes, now);
    DropProperties(LocalModels(row), sel.removed);
    DropProperties(sel.added, LocalModels(row));
  }

  // ---------------------------------------------------------------- an ignored name stays away

  /** What can happen to a row later on: a detection, an automatic synchronisation, an application. */
  datatype Act =
    | Detecting(upstream: seq<string>, mapping: map<string, string>, now: int)
    | Synchronising(upstream: seq<string>, mapping: map<string, string>, now: int)
    | Applying(adds: seq<string>, ignores: seq<string>, removes: seq<string>, now: int)

  function AfterAct(row: Row, act: Act, matches: Matcher): Row {
    match act
    case Detecting(upstream, mapping, now) => AfterDetect(row, upstream, mapping, matches, now)
    case Synchronising(upstream, mapping, now) => AfterAutoSync(row, upstream, mapping, matches, now)
    case Applying(adds, ignores, removes, now) => AfterApply(row, adds, ignores, removes, now)
  }

  function AfterActs(row: Row, acts: seq<Act>, matches: Matcher): Row {
    if acts == [] then row else AfterAct(AfterActs(row, acts[..|acts| - 1], matches), acts[|acts| - 1], matches)
  }

  /** The name is ignored for good: it is on the ignore list, as a plain name, and not staged. */
  predicate Shunned(row: Row, x: string) {
    x in Normalize(row.ignored) && !("regex:" <= x) && x !in Normalize(row.detected)
  }

  lemma ShunnedIsNotDetected(row: Row, upstream: seq<string>, mapping: map<string, string>, matches: Matcher, x: string)
    requires x in Normalize(row.ignored) && !("regex:" <= x)
    ensures x !in Detect(row, upstream, mapping, matches).adds
    ensures x !in Normalize(Detect(row, upstream, mapping, matches).adds)
  {
    DetectionFinds(row, upstream, mapping, matches, 0, x);
    assert HiddenBy(x, x, matches);
    CollectFinds(ReadList(row.models, ','), upstream, row.ignored, mapping, matches);
    NormalIsNormalized(Detect(row, upstream, mapping, matches).adds);
  }

  lemma ActKeepsShunned(row: Row, act: Act, matches: Matcher, x: string)
    requires Shunned(row, x)
    ensures Shunned(AfterAct(row, act, matches), x)
  {
    match act
    case Detecting(upstream, mapping, now) => ShunnedIsNotDetected(row, upstream, mapping, matches, x);
    case Synchronising(upstream, mapping, now) =>
      ShunnedIsNotDetected(row, upstream, mapping, matches, x);
      assert Normalize([]) == [];
    case Applying(adds, ignores, removes, now) =>
      ApplicationStores(row, adds, ignores, removes, now, x);
      StoredListsAreNormal(row, adds, ignores, removes, now);
  }

  lemma StoredListsAreNormal(row: Row, adds: seq<string>, ignores: seq<string>, removes: seq<string>, now: int)
    ensures var row' := AfterApply(row, adds, ignores, removes, now);
      Normalize(row'.ignored) == row'.ignored && Normalize(row'.detected) == row'.detected
  {
    var sel := Selection(row, adds, ignores, removes);
    ApplicationStores(row, adds, ignores, removes, now, "");
    NormalIsNormalized(AfterApply(row, adds, ignores, removes, now).ignored);
    var staged := Normalize(row.detected);
    NormalizeNormal(row.detected);
    NormalIsNormalized(staged);
    DropProperties(staged, Normalize(sel.added + sel.ignored));
    NormalParts(staged, Normalize(sel.added + sel.ignored));
    NormalIsNormalized(sel.remaining);
  }

  lemma {:induction false} ActsKeepShunned(row: Row, acts: seq<Act>, matches: Matcher, x: string)
    requires Shunned(row, x)
    ensures Shunned(AfterActs(row, acts, matches), x)
  {
    if acts != [] {
      ActsKeepShunned(row, acts[..|acts| - 1], matches, x);
      ActKeepsShunned(AfterActs(row, acts[..|acts| - 1], matches), acts[|acts| - 1], matches, x);
    }
  }

  /** A staged plain name that is ignored and not added is never staged again, whatever happens to the row
      and whatever the upstream offers. */
  lemma IgnoredForGood(row: Row, adds: seq<string>, ignores: seq<string>, removes: seq<string>, now: int, x: string,
                       acts: seq<Act>, upstream: seq<string>, mapping: map<string, string>, matches: Matcher)
    requires x in Normalize(row.detected) && x in Normalize(ignores) && x !in Normalize(adds) && !("regex:" <= x)
    ensures var later := AfterActs(AfterApply(row, adds, ignores, removes, now), acts, matches);
      x in later.ignored && x !in Detect(later, upstream, mapping, matches).adds
  {
    var applied := AfterApply(row, adds, ignores, removes, now);
    ApplicationStores(row, adds, ignores, removes, now, x);
    StoredListsAreNormal(row, adds, ignores, removes, now);
    ActsKeepShunned(applied, acts, matches, x);
    var later := AfterActs(applied, acts, matches);
    ShunnedIsNotDetected(later, upstream, mapping, matches, x);
    ActsKeepIgnored(applied, acts, matches, x);
  }

  lemma {:induction false} ActsKeepIgnored(row: Row, acts: seq<Act>, matches: Matcher, x: string)
    requires Shunned(row, x) && x in row.ignored
    ensures x in AfterActs(row, acts, matches).ignored
  {
    if acts != [] {
      var before := AfterActs(row, acts[..|acts| - 1], matches);
      ActsKeepIgnored(row, acts[..|acts| - 1], matches, x);
      ActsKeepShunned(row, acts[..|acts| - 1], matches, x);
      var act := acts[|acts| - 1];
      if act.Applying? {
        ApplicationStores(before, act.adds, act.ignores, act.removes, act.now, x);
      }
    }
  }

  /** Exactly when a name that is not local is never staged, whatever the upstream offers: some ignore entry
      hides it.  A name that starts like a regular expression is not hidden by standing on the list. */
  lemma NeverStagedIff(row: Row, matches: Matcher, x: string)
    requires Clean(x) && x !in LocalModels(row)
    ensures (forall upstream, mapping :: x !in Detect(row, upstream, mapping, matches).adds) <==>
      exists e :: e in Normalize(row.ignored) && HiddenBy(e, x, matches)
  {
    forall upstream, mapping
      ensures x in Detect(row, upstream, mapping, matches).adds <==>
        x in Normalize(upstream) && x !in mapping.Values
        && !exists e :: e in Normalize(row.ignored) && HiddenBy(e, x, matches)
    {
      DetectionFinds(row, upstream, mapping, matches, 0, x);
    }
    var none: map<string, string> := map[];
    var upstream := [x];
    assert Normal(upstream);
    NormalIsNormalized(upstream);
    assert x in Normalize(upstream) && x !in none.Values;
    assert x in Detect(row, upstream, none, matches).adds
      <==> !exists e :: e in Normalize(row.ignored) && HiddenBy(e, x, matches);
  }

  /** A name that starts like a regular expression and that nothing matches: ignored, and staged again at once. */
  lemma IgnoredPatternComesBack(row: Row, name: string, now: int, none: Matcher)
    requires row == Row("", [], [name], [], false, 0) && Clean(name) && "regex:" <= name
    requires forall p, n :: !none(p, n)
    ensures var row' := AfterApply(row, [], [name], [], now);
      name in row'.ignored && name in Detect(row', [name], map[], none).adds
  {
    var row' := AfterApply(row, [], [name], [], now);
    assert Normal([name]);
    NormalIsNormalized([name]);
    assert Normalize([]) == [];
    ApplicationStores(row, [], [name], [], now, name);
    ApplicationModels(row, [], [name], [], now, name);
    assert LocalModels(row) == [];
    DetectionFinds(row', [name], map[], none, 0, name);
    OnlyPatterns(row, name, now, none);
  }

  lemma OnlyPatterns(row: Row, name: string, now: int, none: Matcher)
    requires row == Row("", [], [name], [], false, 0) && Normalize([name]) == [name] && "regex:" <= name
    requires forall p, n :: !none(p, n)
    ensures forall e | e in Normalize(AfterApply(row, [], [name], [], now).ignored) :: !HiddenBy(e, name, none)
  {
    StoredListsAreNormal(row, [], [name], [], now);
    forall e | e in Normalize(AfterApply(row, [], [name], [], now).ignored) ensures !HiddenBy(e, name, none) {
      ApplicationStores(row, [], [name], [], now, e);
      assert Normalize([]) == [];
    }
  }
}
