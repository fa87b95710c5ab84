/** Append mode of a multi-key channel: which columns and inputs keep every record and gain the new keys. */
module MultiKeyAppend {
  import opened Basics
  import opened Text
  import opened ModelNames
  import opened MultiKey

  // ---------------------------------------------------------------- appending keys

  /** The keys append mode starts from: a column that begins like a JSON array but is not one yields
      none. */
  function ExistingKeys(text: string, json: JsonKeys): seq<string> {
    if "[" <= TrimSpace(text) then
      if json(TrimSpace(text)).Some? then json(TrimSpace(text)).value else []
    else ReadList(text, '\n')
  }

  /** The trimmed, non-blank lines of the input that are not yet present, each once. */
  function NewKeys(existing: seq<string>, input: string): seq<string> {
    Drop(Normalize(Split(input, '\n')), TrimAll(existing))
  }

  /** The column UpdateChannel submits in append mode. */
  function AppendedText(text: string, input: string, json: JsonKeys): string {
    if text == "" then input
    else Join(ExistingKeys(text, json) + NewKeys(ExistingKeys(text, json), input), '\n')
  }

  lemma NewKeysClean(existing: seq<string>, input: string)
    ensures Normal(NewKeys(existing, input)) && AllFree(NewKeys(existing, input), '\n')
    ensures forall k :: k in NewKeys(existing, input) <==>
      k in Normalize(Split(input, '\n')) && k !in TrimAll(existing)
  {
    var names := Normalize(Split(input, '\n'));
    NormalizeNormal(Split(input, '\n'));
    DropProperties(names, TrimAll(existing));
    NormalParts(names, TrimAll(existing));
    var added := NewKeys(existing, input);
    forall i | 0 <= i < |added| ensures '\n' !in added[i] {
      assert added[i] in added && added[i] in names;
      NameIsLine(input, added[i]);
    }
  }

  lemma NameIsLine(input: string, k: string)
    requires k in Normalize(Split(input, '\n'))
    ensures '\n' !in k
  {
    var lines := Split(input, '\n');
    UniqProperties(TrimAll(lines));
    var y := TrimAllFrom(lines, k);
    SplitFree(input, '\n');
    TrimWithTight(y, IsSpace);
    var j :| 0 <= j < |lines| && lines[j] == y;
  }

  lemma NormalNotEmpty(xs: seq<string>)
    requires Normal(xs)
    ensures "" !in xs
  {
  }

  lemma StorableMore(keys: seq<string>, added: seq<string>, sep: char)
    requires Storable(keys, sep) && AllFree(added, sep) && "" !in added
    ensures Storable(keys + added, sep)
  {
    var all := keys + added;
    assert forall i | 0 <= i < |all| :: all[i] == if i < |keys| then keys[i] else added[i - |keys|];
    if added != [] {
      assert added[0] in added && added[|added| - 1] in added;
    }
  }

  /** Appending to a list that is read back keeps it readable; only the one-blank-key column is not. */
  lemma AppendedStorable(keys: seq<string>, input: string)
    requires Storable(keys, '\n')
    ensures Storable(keys + NewKeys(keys, input), '\n')
  {
    NewKeysClean(keys, input);
    NormalNotEmpty(NewKeys(keys, input));
    StorableMore(keys, NewKeys(keys, input), '\n');
  }

  /** Some character of a newline-form column is not white space: the column is then never mistaken
      for a JSON array after appending. */
  lemma AppendNotJson(text: string, input: string, json: JsonKeys)
    requires TrimSpace(text) != "" && !("[" <= TrimSpace(text))
    ensures !("[" <= TrimSpace(AppendedText(text, input, json)))
  {
    TrimWithTight(text, IsSpace);
    var i := FirstNonSpace(text);
    TrimWithFirst(text, IsSpace, i);
    assert text[i] != '[';
    var t := Trim(text, '\n');
    TrimKeepsFirst(text, '\n', i);
    var j := FirstNonSpace(t);
    TrimWithFirst(t, IsSpace, j);
    var keys := ReadList(text, '\n');
    var all := keys + NewKeys(keys, input);
    JoinSplit(t, '\n');
    JoinPrefix(keys, NewKeys(keys, input), '\n');
    var joined := Join(all, '\n');
    assert t <= joined;
    assert joined[..|t|] == t;
    assert forall k | 0 <= k <= j :: joined[k] == t[k];
    TrimWithFirst(joined, IsSpace, j);
  }

  lemma FirstNonSpace(s: string) returns (i: nat)
    requires TrimSpace(s) != ""
    ensures i < |s| && !IsSpace(s[i]) && forall j | 0 <= j < i :: IsSpace(s[j])
  {
    TrimWithTight(s, IsSpace);
    i := 0;
    while IsSpace(s[i])
      invariant i < |s| && forall j | 0 <= j < i :: IsSpace(s[j])
      decreases |s| - i
    {
      i := i + 1;
    }
  }

  /** Trimming newlines keeps the first visible character first. */
  lemma TrimKeepsFirst(text: string, c: char, i: nat)
    requires IsSpace(c) && i < |text| && !IsSpace(text[i]) && forall j | 0 <= j < i :: IsSpace(text[j])
    ensures var t := Trim(text, c);
      TrimSpace(t) != "" && TrimSpace(t)[0] == text[i]
  {
    var cut := (x: char) => x == c;
    var l := TrimLeft(text, cut);
    var k := TrimLeftDrops(text, cut, i);
    var t := TrimRight(l, cut);
    TrimRightKeeps(l, cut, i - k);
    TrimWithFirst(t, IsSpace, i - k);
  }

  lemma {:induction false} TrimLeftDrops(s: string, cut: char -> bool, i: nat) returns (k: nat)
    requires i < |s| && !cut(s[i])
    ensures k <= i && TrimLeft(s, cut) == s[k..]
  {
    if cut(s[0]) {
      k := TrimLeftDrops(s[1..], cut, i - 1);
      k := k + 1;
    } else {
      k := 0;
    }
  }

  lemma {:induction false} TrimRightKeeps(s: string, cut: char -> bool, i: nat)
    requires i < |s| && !cut(s[i])
    ensures i < |TrimRight(s, cut)| && TrimRight(s, cut) <= s
  {
    if cut(s[|s| - 1]) {
      TrimRightKeeps(s[..|s| - 1], cut, i);
    }
  }

  lemma {:induction false} JoinPrefix(a: seq<string>, b: seq<string>, sep: char)
    requires a != []
    ensures Join(a, sep) <= Join(a + b, sep)
  {
    if |a| == 1 {
      if b == [] { assert a + b == a; }
    } else {
      assert (a + b)[1..] == a[1..] + b;
      JoinPrefix(a[1..], b, sep);
    }
  }

  /** Freshly appended keys are enabled. */
  function FreshRecords(keys: seq<string>): seq<Record> {
    seq(|keys|, i requires 0 <= i < |keys| => Record(keys[i], ENABLED, None, None))
  }

  lemma RecordsOfExtended(keys: seq<string>, added: seq<string>, info: Info)
    requires InfoOk(info, |keys|)
    ensures Records(keys + added, info) == Records(keys, info) + FreshRecords(added)
    ensures InfoOk(info, |keys + added|)
  {
  }

  /** An empty column takes the input as it is, and has stored its new keys exactly if every line of it is
      trimmed, visible and distinct, line breaks at the ends aside, or it is a JSON array of them. */
  predicate FirstKeysOk(input: string, json: JsonKeys) {
    if input == "" then true
    else if ReadsAsJson(input, json) then
      json(TrimSpace(input)).value == NewKeys([], input) && NewKeys([], input) != []
    else Normal(ReadList(input, '\n'))
  }

  lemma FirstKeys(input: string)
    ensures NewKeys([], input) == Normalize(Split(input, '\n'))
  {
    DropProperties(Normalize(Split(input, '\n')), []);
    assert TrimAll([]) == [];
  }

  lemma FirstKeysIff(input: string, json: JsonKeys)
    ensures FirstKeysOk(input, json) <==> ReadsAs(input, NewKeys([], input), json)
  {
    var lines := Split(input, '\n');
    FirstKeys(input);
    if input == "" {
      NothingNamed();
    } else {
      NormalizedLines(input);
      NormalizeNormal(lines);
      if Normal(ReadList(input, '\n')) { NormalIsNormalized(ReadList(input, '\n')); }
    }
  }

  /** The column begins like a JSON array but is none: it is read as lines, and append mode starts from no
      keys at all. */
  predicate OnlyLooksLikeJson(text: string, json: JsonKeys) {
    "[" <= TrimSpace(text) && json(TrimSpace(text)).None?
  }

  /** When appending to a non-empty column does what it promises.  A column that only looks like a JSON
      array is overwritten by the input unless that has no visible line, so its keys survive only if
      the input begins with all of them. */
  predicate AppendOk(text: string, input: string, json: JsonKeys)
    requires text != ""
  {
    var keys := GetKeys(text, json);
    if OnlyLooksLikeJson(text, json) then
      var names := Normalize(Split(input, '\n'));
      || names == []
      || if ReadsAsJson(Join(names, '\n'), json)
         then json(TrimSpace(Join(names, '\n'))).value == keys + NewKeys(keys, input)
         else keys <= names
    else Writable(text, keys + NewKeys(keys, input), json)
  }

  lemma NamesStorable(input: string)
    ensures var names := Normalize(Split(input, '\n'));
      Normal(names) && Storable(names, '\n') && (names != [] ==> Join(names, '\n') != "")
    ensures NewKeys([], input) == Normalize(Split(input, '\n'))
  {
    var names := Normalize(Split(input, '\n'));
    NewKeysClean([], input);
    PartsWhole(names, TrimAll([]));
    assert NewKeys([], input) == names;
    if names != [] {
      assert names[0] in names && names[|names| - 1] in names;
      JoinEnds(names, '\n');
    }
  }

  /** A list without duplicates is some keys followed by its other names exactly when it begins with them. */
  lemma BeginsWithIff(names: seq<string>, keys: seq<string>)
    requires Normal(names)
    ensures names == keys + Drop(names, TrimAll(keys)) <==> keys <= names
  {
    if keys <= names {
      var rest := names[|keys|..];
      assert names == keys + rest;
      PrefixNormal(names, keys);
      CleanIsTrimmed(keys);
      DropPrefix(keys, rest);
    }
  }

  lemma DropPrefix(keys: seq<string>, rest: seq<string>)
    requires forall x | x in rest :: x !in keys
    ensures Drop(keys + rest, keys) == rest
  {
    DropConcat(keys, rest, keys);
    PartsWhole(keys, keys);
    PartsWhole(rest, keys);
  }

  lemma PrefixNormal(names: seq<string>, keys: seq<string>)
    requires Normal(names) && keys <= names
    ensures Normal(keys) && forall x | x in names[|keys|..] :: x !in keys
  {
    var rest := names[|keys|..];
    assert names == keys + rest;
    forall x | x in rest ensures x !in keys {
      var j :| 0 <= j < |rest| && rest[j] == x;
      assert names[|keys| + j] == x;
    }
    assert forall x | x in keys :: x in names;
  }

  lemma CleanIsTrimmed(keys: seq<string>)
    requires Normal(keys)
    ensures TrimAll(keys) == keys
  {
    TrimAllProperties(keys);
  }

  /** The column after appending to one that only looks like a JSON array. */
  lemma StoredOverBracket(text: string, input: string, json: JsonKeys)
    requires text != "" && OnlyLooksLikeJson(text, json)
    ensures var names := Normalize(Split(input, '\n'));
      StoredKey(text, AppendedText(text, input, json)) == if names == [] then text else Join(names, '\n')
  {
    NamesStorable(input);
    AppendedToBracket(text, input, json);
  }

  /** Appending to a column that only looks like a JSON array. */
  lemma AppendToBracketIff(text: string, input: string, json: JsonKeys)
    requires text != "" && OnlyLooksLikeJson(text, json)
    ensures var keys := GetKeys(text, json);
      AppendOk(text, input, json) <==>
        ReadsAs(StoredKey(text, AppendedText(text, input, json)), keys + NewKeys(keys, input), json)
  {
    var keys, names := GetKeys(text, json), Normalize(Split(input, '\n'));
    var added := NewKeys(keys, input);
    StoredOverBracket(text, input, json);
    ReadListShape(text, '\n');
    if names == [] {
      assert keys + added == keys;
    } else {
      NamesStorable(input);
      ReplacedIff(keys, names, added, json);
    }
  }

  lemma AppendedToBracket(text: string, input: string, json: JsonKeys)
    requires text != "" && OnlyLooksLikeJson(text, json)
    ensures AppendedText(text, input, json) == Join(Normalize(Split(input, '\n')), '\n')
  {
    NamesStorable(input);
    assert [] + NewKeys([], input) == NewKeys([], input);
  }

  lemma ReplacedIff(keys: seq<string>, names: seq<string>, added: seq<string>, json: JsonKeys)
    requires keys != [] && Normal(names) && Storable(names, '\n') && Join(names, '\n') != ""
    requires added == Drop(names, TrimAll(keys))
    ensures ReadsAs(Join(names, '\n'), keys + added, json) <==>
      if ReadsAsJson(Join(names, '\n'), json) then json(TrimSpace(Join(names, '\n'))).value == keys + added
      else keys <= names
  {
    ReadBackIff(names, '\n');
    BeginsWithIff(names, keys);
  }

  /** Over every non-empty column, appending keeps every record at its position and adds the new keys
      enabled after them, exactly when `AppendOk` says so. */
  lemma AppendIff(text: string, info: Info, input: string, json: JsonKeys)
    requires text != "" && InfoOk(info, |GetKeys(text, json)|)
    ensures var keys := GetKeys(text, json);
      var all := keys + NewKeys(keys, input);
      var stored := StoredKey(text, AppendedText(text, input, json));
      && (AppendOk(text, input, json) <==> ReadsAs(stored, all, json))
      && (AppendOk(text, input, json) ==>
            && InfoOk(info, |all|) && GetKeys(stored, json) == all
            && Records(GetKeys(stored, json), info) == Records(keys, info) + FreshRecords(NewKeys(keys, input)))
  {
    var keys := GetKeys(text, json);
    var all := keys + NewKeys(keys, input);
    if OnlyLooksLikeJson(text, json) {
      AppendToBracketIff(text, input, json);
    } else {
      assert ExistingKeys(text, json) == keys;
      WritableIff(text, all, json);
    }
    ReadsAsIff(StoredKey(text, AppendedText(text, input, json)), all, json);
    RecordsOfExtended(keys, NewKeys(keys, input), info);
  }

  /** A newline-form column with any visible character: appending always does what it promises. */
  lemma AppendToVisible(text: string, info: Info, input: string, json: JsonKeys)
    requires TrimSpace(text) != "" && !("[" <= TrimSpace(text)) && InfoOk(info, |GetKeys(text, json)|)
    ensures var keys := GetKeys(text, json);
      var text' := AppendedText(text, input, json);
      && text' != "" && GetKeys(text', json) == keys + NewKeys(keys, input)
      && CountKeys(text', json) == |keys + NewKeys(keys, input)|
      && Records(GetKeys(text', json), info) == Records(keys, info) + FreshRecords(NewKeys(keys, input))
  {
    var keys := GetKeys(text, json);
    var all := keys + NewKeys(keys, input);
    TrimWithTight(text, IsSpace);
    assert text != "";
    ReadListShape(text, '\n');
    var i := FirstNonSpace(text);
    TrimKeepsFirst(text, '\n', i);
    AppendedStorable(keys, input);
    AppendNotJson(text, input, json);
    JoinEnds(all, '\n');
    AppendIff(text, info, input, json);
    ReadsAsIff(AppendedText(text, input, json), all, json);
  }

  /** A column of one blank line: its blank key is lost and the new key takes its position. */
  lemma AppendToBlankLosesPosition(text: string, input: string, json: JsonKeys)
    requires text == "\n" && input == "x"
    ensures GetKeys(text, json) == [""]
    ensures GetKeys(AppendedText(text, input, json), json) == [input]
  {
    ReadBlank(text, json);
    NewKeysOfOne();
    JoinBlank([""] + [input]);
    ReadNewKey(AppendedText(text, input, json), input, json);
  }

  lemma ReadBlank(text: string, json: JsonKeys)
    requires text == "\n"
    ensures GetKeys(text, json) == ExistingKeys(text, json) == [""]
  {
    var cut := (x: char) => x == '\n';
    assert text[1..] == "";
    assert TrimLeft(text, cut) == "" && Trim(text, '\n') == "";
    assert TrimLeft(text, IsSpace) == "";
    assert TrimRight("", IsSpace) == "";
    assert TrimSpace(text) == TrimWith(text, IsSpace) == "";
  }

  lemma JoinBlank(parts: seq<string>)
    requires parts == ["", "x"]
    ensures Join(parts, '\n') == "\nx"
  {
    assert parts[1..] == ["x"];
  }

  lemma ReadNewKey(t: string, key: string, json: JsonKeys)
    requires t == "\nx" && key == "x"
    ensures GetKeys(t, json) == [key]
  {
    var cut := (x: char) => x == '\n';
    TrimmedNewKey(t, cut);
    SplitWhole(key, '\n');
  }

  lemma NewKeysOfOne()
    ensures NewKeys([""], "x") == ["x"]
  {
    SplitWhole("x", '\n');
    TightIsTrimmed("x", IsSpace);
    assert Split("x", '\n') == ["x"] && Normal(["x"]);
    NormalIsNormalized(["x"]);
    assert TrimAll([""]) == [] by { assert TrimSpace("") == ""; }
    DropProperties(["x"], []);
  }

  lemma TrimmedNewKey(t: string, cut: char -> bool)
    requires t == "\nx" && cut == ((x: char) => x == '\n')
    ensures Trim(t, '\n') == "x" && TrimSpace(t) == "x"
  {
    assert t[1..] == "x" && TrimLeft(t, cut) == TrimLeft("x", cut) == "x";
    assert TrimLeft(t, IsSpace) == TrimLeft("x", IsSpace) == "x";
  }

  /** A column that only looks like a JSON array is kept by an input without a visible line, and is
      otherwise replaced by the input: every old key that the input does not repeat is lost. */
  lemma AppendToBracketReplaces(text: string, input: string, json: JsonKeys)
    requires OnlyLooksLikeJson(text, json)
    ensures var names := Normalize(Split(input, '\n'));
      var stored := StoredKey(text, AppendedText(text, input, json));
      && GetKeys(text, json) == ReadList(text, '\n') && GetKeys(text, json) != []
      && (names == [] ==> stored == text)
      && (names != [] && !ReadsAsJson(stored, json) ==> GetKeys(stored, json) == names)
  {
    TrimWithTight(text, IsSpace);
    assert text != "";
    ReadListShape(text, '\n');
    NamesStorable(input);
    AppendedToBracket(text, input, json);
    ReadBackIff(Normalize(Split(input, '\n')), '\n');
  }

  // ---------------------------------------------------------------- keys that are always safe

  /** One visible line that does not start like a JSON array. */
  predicate Plain(k: string) {
    '\n' !in k && TrimSpace(k) != "" && TrimSpace(k)[0] != '['
  }

  predicate AllPlain(keys: seq<string>) {
    forall i | 0 <= i < |keys| :: Plain(keys[i])
  }

  lemma PlainStorable(keys: seq<string>)
    requires AllPlain(keys)
    ensures Storable(keys, '\n')
  {
    forall i | 0 <= i < |keys| ensures keys[i] != "" {
      TrimWithTight(keys[i], IsSpace);
    }
  }

  lemma PlainNotJson(keys: seq<string>)
    requires AllPlain(keys) && keys != []
    ensures !("[" <= TrimSpace(Join(keys, '\n')))
  {
    var k := keys[0];
    var i := FirstNonSpace(k);
    TrimWithFirst(k, IsSpace, i);
    var t := Join(keys, '\n');
    assert k <= t;
    assert forall j | 0 <= j <= i :: t[j] == k[j];
    TrimWithFirst(t, IsSpace, i);
  }
}
