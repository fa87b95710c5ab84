/** The order-preserving set algebra on model names behind upstream reconciliation. */
module ModelNames {
  import opened Basics
  import opened Text

  /** lo.Uniq: the first occurrence of each element. */
  function Uniq(xs: seq<string>): seq<string> {
    if xs == [] then []
    else
      var prior := Uniq(xs[..|xs| - 1]);
      if xs[|xs| - 1] in prior then prior else prior + [xs[|xs| - 1]]
  }

  /** The trimmed, non-blank names in order. */
  function TrimAll(xs: seq<string>): seq<string> {
    if xs == [] then []
    else
      var prior := TrimAll(xs[..|xs| - 1]);
      var name := TrimSpace(xs[|xs| - 1]);
      if name == "" then prior else prior + [name]
  }

  /** normalizeModelNames. */
  function Normalize(xs: seq<string>): seq<string> {
    Uniq(TrimAll(xs))
  }

  /** The elements of xs that are (not) in ys, in order. */
  function Keep(xs: seq<string>, ys: seq<string>): seq<string> {
    if xs == [] then []
    else if xs[|xs| - 1] in ys then Keep(xs[..|xs| - 1], ys) + [xs[|xs| - 1]]
    else Keep(xs[..|xs| - 1], ys)
  }

  function Drop(xs: seq<string>, ys: seq<string>): seq<string> {
    if xs == [] then []
    else if xs[|xs| - 1] in ys then Drop(xs[..|xs| - 1], ys)
    else Drop(xs[..|xs| - 1], ys) + [xs[|xs| - 1]]
  }

  /** mergeModelNames, subtractModelNames, intersectModelNames. */
  function Merge(base: seq<string>, appended: seq<string>): seq<string> {
    Normalize(base) + Drop(Normalize(appended), Normalize(base))
  }

  function Subtract(base: seq<string>, removed: seq<string>): seq<string> {
    Drop(Normalize(base), Normalize(removed))
  }

  function Intersect(base: seq<string>, allowed: seq<string>): seq<string> {
    Keep(Normalize(base), Normalize(allowed))
  }

  /** applySelectedModelChanges: an added model is never removed. */
  function ApplySelected(origin: seq<string>, adds: seq<string>, removes: seq<string>): seq<string> {
    var toAdd := Normalize(adds);
    var toRemove := Subtract(Normalize(removes), toAdd);
    Subtract(Merge(origin, toAdd), toRemove)
  }

  // ---------------------------------------------------------------- normal lists

  predicate Clean(name: string) {
    name != "" && TrimSpace(name) == name
  }

  /** What normalizeModelNames produces: distinct, trimmed, non-blank. */
  predicate Normal(xs: seq<string>) {
    NoDuplicates(xs) && forall x | x in xs :: Clean(x)
  }

  lemma {:induction false} UniqProperties(xs: seq<string>)
    ensures NoDuplicates(Uniq(xs)) && forall x :: x in Uniq(xs) <==> x in xs
    ensures NoDuplicates(xs) ==> Uniq(xs) == xs
  {
    if xs != [] {
      var n := |xs| - 1;
      UniqProperties(xs[..n]);
      assert xs == xs[..n] + [xs[n]];
      assert forall x :: x in xs <==> x in xs[..n] || x == xs[n];
      if NoDuplicates(xs) {
        assert xs[n] !in xs[..n];
      }
    }
  }

  lemma {:induction false} TrimAllFrom(xs: seq<string>, x: string) returns (y: string)
    requires x in TrimAll(xs)
    ensures Clean(x) && y in xs && TrimSpace(y) == x
  {
    var n := |xs| - 1;
    if x in TrimAll(xs[..n]) {
      y := TrimAllFrom(xs[..n], x);
    } else {
      y := xs[n];
      TrimWithTight(y, IsSpace);
      TightIsTrimmed(TrimSpace(y), IsSpace);
    }
  }

  lemma {:induction false} TrimAllHas(xs: seq<string>, y: string)
    requires y in xs && TrimSpace(y) != ""
    ensures TrimSpace(y) in TrimAll(xs)
  {
    var n := |xs| - 1;
    if y in xs[..n] {
      TrimAllHas(xs[..n], y);
    } else {
      LastOrBefore(xs, y);
    }
  }

  lemma {:induction false} TrimAllClean(xs: seq<string>)
    requires forall x | x in xs :: Clean(x)
    ensures TrimAll(xs) == xs
  {
    if xs != [] {
      var n := |xs| - 1;
      assert forall x | x in xs[..n] :: x in xs;
      TrimAllClean(xs[..n]);
      assert xs[n] in xs && xs == xs[..n] + [xs[n]];
    }
  }

  lemma TrimAllProperties(xs: seq<string>)
    ensures forall x | x in TrimAll(xs) :: Clean(x)
    ensures forall x | x in TrimAll(xs) :: exists y :: y in xs && TrimSpace(y) == x
    ensures forall y | y in xs && TrimSpace(y) != "" :: TrimSpace(y) in TrimAll(xs)
    ensures (forall x | x in xs :: Clean(x)) ==> TrimAll(xs) == xs
  {
    forall x | x in TrimAll(xs) ensures Clean(x) && exists y :: y in xs && TrimSpace(y) == x {
      var y := TrimAllFrom(xs, x);
    }
    forall y | y in xs && TrimSpace(y) != "" ensures TrimSpace(y) in TrimAll(xs) {
      TrimAllHas(xs, y);
    }
    if forall x | x in xs :: Clean(x) {
      TrimAllClean(xs);
    }
  }

  /** The result holds exactly the trimmed non-blank names, each once. */
  lemma NormalizeNormal(xs: seq<string>)
    ensures Normal(Normalize(xs))
    ensures forall x | x in Normalize(xs) :: exists y :: y in xs && TrimSpace(y) == x
    ensures forall y | y in xs && TrimSpace(y) != "" :: TrimSpace(y) in Normalize(xs)
  {
    TrimAllProperties(xs);
    UniqProperties(TrimAll(xs));
  }

  /** Normalizing is idempotent. */
  lemma NormalIsNormalized(xs: seq<string>)
    requires Normal(xs)
    ensures Normalize(xs) == xs
  {
    TrimAllProperties(xs);
    UniqProperties(xs);
  }

  // ---------------------------------------------------------------- names on lines

  lemma {:induction false} TrimAllFront(xs: seq<string>)
    ensures TrimAll([""] + xs) == TrimAll(xs)
  {
    if xs == [] {
      assert ([""] + xs)[..0] == [];
    } else {
      assert ([""] + xs)[..|xs|] == [""] + xs[..|xs| - 1];
      TrimAllFront(xs[..|xs| - 1]);
    }
  }

  /** Line breaks at the ends of a text make no names. */
  lemma {:induction false} LeftTrimmedLines(s: string, cut: char -> bool)
    requires forall i | 0 <= i < |s| && cut(s[i]) :: s[i] == '\n'
    ensures TrimAll(Split(TrimLeft(s, cut), '\n')) == TrimAll(Split(s, '\n'))
  {
    if s != "" && cut(s[0]) {
      assert forall i | 0 <= i < |s| - 1 :: s[1..][i] == s[i + 1];
      LeftTrimmedLines(s[1..], cut);
      TrimAllFront(Split(s[1..], '\n'));
    }
  }

  lemma {:induction false} RightTrimmedLines(s: string, cut: char -> bool)
    requires forall i | 0 <= i < |s| && cut(s[i]) :: s[i] == '\n'
    ensures TrimAll(Split(TrimRight(s, cut), '\n')) == TrimAll(Split(s, '\n'))
  {
    if s != "" && cut(s[|s| - 1]) {
      var shorter := s[..|s| - 1];
      RightTrimmedLines(shorter, cut);
      assert s == shorter + ['\n'];
      SplitLonger(shorter, '\n');
      assert (Split(shorter, '\n') + [""])[..|Split(shorter, '\n')|] == Split(shorter, '\n');
    }
  }

  lemma NormalizedLines(text: string)
    requires text != ""
    ensures Normalize(Split(text, '\n')) == Normalize(ReadList(text, '\n'))
  {
    var cut := (x: char) => x == '\n';
    LeftTrimmedLines(text, cut);
    RightTrimmedLines(TrimLeft(text, cut), cut);
    assert Trim(text, '\n') == TrimWith(text, (x: char) => x == '\n');
  }

  lemma NothingNamed()
    ensures Normalize([""]) == []
  {
    assert [""][..0] == [] && TrimSpace("") == "";
  }

  // ---------------------------------------------------------------- Keep and Drop

  lemma LastOrBefore(xs: seq<string>, x: string)
    requires xs != []
    ensures x in xs <==> x in xs[..|xs| - 1] || x == xs[|xs| - 1]
  {
    assert xs == xs[..|xs| - 1] + [xs[|xs| - 1]];
  }

  lemma {:induction false} DropMembers(xs: seq<string>, ys: seq<string>, x: string)
    ensures x in Drop(xs, ys) <==> x in xs && x !in ys
  {
    if xs != [] {
      DropMembers(xs[..|xs| - 1], ys, x);
      LastOrBefore(xs, x);
    }
  }

  lemma {:induction false} KeepMembers(xs: seq<string>, ys: seq<string>, x: string)
    ensures x in Keep(xs, ys) <==> x in xs && x in ys
  {
    if xs != [] {
      KeepMembers(xs[..|xs| - 1], ys, x);
      LastOrBefore(xs, x);
    }
  }

  lemma NoDuplicatesMore(xs: seq<string>, x: string)
    requires NoDuplicates(xs) && x !in xs
    ensures NoDuplicates(xs + [x])
  {
  }

  lemma {:induction false} PartsNoDuplicates(xs: seq<string>, ys: seq<string>)
    requires NoDuplicates(xs)
    ensures NoDuplicates(Drop(xs, ys)) && NoDuplicates(Keep(xs, ys))
  {
    if xs != [] {
      var rest, x := xs[..|xs| - 1], xs[|xs| - 1];
      PartsNoDuplicates(rest, ys);
      DropMembers(rest, ys, x);
      KeepMembers(rest, ys, x);
      if x in ys {
        NoDuplicatesMore(Keep(rest, ys), x);
      } else {
        NoDuplicatesMore(Drop(rest, ys), x);
      }
    }
  }

  lemma {:induction false} PartsWhole(xs: seq<string>, ys: seq<string>)
    ensures (forall x | x in xs :: x !in ys) ==> Drop(xs, ys) == xs
    ensures (forall x | x in xs :: x in ys) ==> Drop(xs, ys) == [] && Keep(xs, ys) == xs
  {
    if xs != [] {
      var n := |xs| - 1;
      PartsWhole(xs[..n], ys);
      assert xs == xs[..n] + [xs[n]];
      assert xs[n] in xs;
    }
  }

  lemma DropProperties(xs: seq<string>, ys: seq<string>)
    ensures forall x :: x in Drop(xs, ys) <==> x in xs && x !in ys
    ensures NoDuplicates(xs) ==> NoDuplicates(Drop(xs, ys))
    ensures (forall x | x in xs :: x !in ys) ==> Drop(xs, ys) == xs
    ensures (forall x | x in xs :: x in ys) ==> Drop(xs, ys) == []
  {
    forall x ensures x in Drop(xs, ys) <==> x in xs && x !in ys {
      DropMembers(xs, ys, x);
    }
    if NoDuplicates(xs) {
      PartsNoDuplicates(xs, ys);
    }
    PartsWhole(xs, ys);
  }

  lemma KeepProperties(xs: seq<string>, ys: seq<string>)
    ensures forall x :: x in Keep(xs, ys) <==> x in xs && x in ys
    ensures NoDuplicates(xs) ==> NoDuplicates(Keep(xs, ys))
    ensures (forall x | x in xs :: x in ys) ==> Keep(xs, ys) == xs
  {
    forall x ensures x in Keep(xs, ys) <==> x in xs && x in ys {
      KeepMembers(xs, ys, x);
    }
    if NoDuplicates(xs) {
      PartsNoDuplicates(xs, ys);
    }
    PartsWhole(xs, ys);
  }

  lemma {:induction false} DropConcat(a: seq<string>, b: seq<string>, ys: seq<string>)
    ensures Drop(a + b, ys) == Drop(a, ys) + Drop(b, ys)
  {
    if b == [] {
      assert a + b == a;
    } else {
      assert (a + b)[..|a + b| - 1] == a + b[..|b| - 1];
      DropConcat(a, b[..|b| - 1], ys);
    }
  }

  lemma NormalParts(xs: seq<string>, ys: seq<string>)
    requires Normal(xs)
    ensures Normal(Drop(xs, ys)) && Normal(Keep(xs, ys))
  {
    DropProperties(xs, ys);
    KeepProperties(xs, ys);
  }

  lemma NormalConcat(xs: seq<string>, ys: seq<string>)
    requires Normal(xs) && Normal(ys) && forall y | y in ys :: y !in xs
    ensures Normal(xs + ys)
  {
    forall i, j | 0 <= i < j < |xs + ys| ensures (xs + ys)[i] != (xs + ys)[j] {
      if i < |xs| <= j {
        assert ys[j - |xs|] in ys && xs[i] in xs;
      }
    }
  }

  /** On normal lists the result is the surviving old models in order, then the new ones in request
      order, without duplicates; an added model always survives. */
  lemma ApplySelectedShape(origin: seq<string>, adds: seq<string>, removes: seq<string>)
    requires Normal(origin) && Normal(adds) && Normal(removes)
    ensures var next := ApplySelected(origin, adds, removes);
      && Normal(next)
      && next == Drop(origin, Drop(removes, adds)) + Drop(adds, origin)
      && (forall x :: x in next <==> x in adds || (x in origin && x !in removes))
  {
    var gone := Drop(removes, adds);
    var added := Drop(adds, origin);
    var merged := origin + added;
    NormalIsNormalized(origin);
    NormalIsNormalized(adds);
    NormalIsNormalized(removes);
    NormalParts(removes, adds);
    NormalParts(adds, origin);
    NormalIsNormalized(gone);
    DropProperties(adds, origin);
    DropProperties(removes, adds);
    NormalConcat(origin, added);
    NormalIsNormalized(merged);
    DropConcat(origin, added, gone);
    DropProperties(added, gone);
    DropProperties(merged, gone);
    NormalParts(merged, gone);
  }

  // ---------------------------------------------------------------- the loops

  /** mergeModelNames, with its growing seen set. */
  method MergeModelNames(base: seq<string>, appended: seq<string>) returns (merged: seq<string>)
    ensures merged == Merge(base, appended)
  {
    merged := Normalize(base);
    var seen := set x | x in merged;
    var extra := Normalize(appended);
    NormalizeNormal(appended);
    for i := 0 to |extra|
      invariant merged == Normalize(base) + Drop(extra[..i], Normalize(base))
      invariant seen == (set x | x in Normalize(base)) + (set x | x in extra[..i])
    {
      assert extra[..i + 1][..i] == extra[..i];
      assert extra[i] !in extra[..i];
      forall x ensures x in extra[..i + 1] <==> x in extra[..i] || x == extra[i] {
        LastOrBefore(extra[..i + 1], x);
      }
      if extra[i] !in seen {
        seen := seen + {extra[i]};
        merged := merged + [extra[i]];
      }
    }
    assert extra[..|extra|] == extra;
  }

  /** subtractModelNames: the names of the base whose name is not in the set of removed ones. */
  method SubtractModelNames(base: seq<string>, removed: seq<string>) returns (rest: seq<string>)
    ensures rest == Subtract(base, removed)
  {
    var names := Normalize(removed);
    var removedSet := set x | x in names;
    var from := Normalize(base);
    rest := [];
    for i := 0 to |from|
      invariant rest == Drop(from[..i], names)
    {
      assert from[..i + 1][..i] == from[..i];
      if from[i] !in removedSet {
        rest := rest + [from[i]];
      }
    }
    assert from[..|from|] == from;
  }

  /** intersectModelNames: the names of the base that are in the set of allowed ones. */
  method IntersectModelNames(base: seq<string>, allowed: seq<string>) returns (both: seq<string>)
    ensures both == Intersect(base, allowed)
  {
    var names := Normalize(allowed);
    var allowedSet := set x | x in names;
    var from := Normalize(base);
    both := [];
    for i := 0 to |from|
      invariant both == Keep(from[..i], names)
    {
      assert from[..i + 1][..i] == from[..i];
      if from[i] in allowedSet {
        both := both + [from[i]];
      }
    }
    assert from[..|from|] == from;
  }
}
