/** The string functions of Go's standard library that the handlers rely on. */
module Text {

  // ---------------------------------------------------------------- trimming

  function TrimLeft(s: string, cut: char -> bool): string {
    if s != "" && cut(s[0]) then TrimLeft(s[1..], cut) else s
  }

  function TrimRight(s: string, cut: char -> bool): string {
    if s != "" && cut(s[|s| - 1]) then TrimRight(s[..|s| - 1], cut) else s
  }

  function TrimWith(s: string, cut: char -> bool): string {
    TrimRight(TrimLeft(s, cut), cut)
  }

  /** strings.Trim with a single-character cutset. */
  function Trim(s: string, c: char): string {
    TrimWith(s, (x: char) => x == c)
  }

  /** unicode.IsSpace. */
  predicate IsSpace(c: char) {
    var n := c as int;
    || 0x09 <= n <= 0x0D || n == 0x20 || n == 0x85 || n == 0xA0
    || n == 0x1680 || 0x2000 <= n <= 0x200A || n == 0x2028 || n == 0x2029 || n == 0x202F || n == 0x205F || n == 0x3000
  }

  /** strings.TrimSpace. */
  function TrimSpace(s: string): string {
    TrimWith(s, IsSpace)
  }

  /** Nothing at either end to cut off. */
  predicate Tight(s: string, cut: char -> bool) {
    s == "" || (!cut(s[0]) && !cut(s[|s| - 1]))
  }

  lemma {:induction false} TrimRightTight(s: string, cut: char -> bool)
    requires s == "" || !cut(s[0])
    ensures Tight(TrimRight(s, cut), cut)
    ensures s != "" ==> TrimRight(s, cut) != "" && TrimRight(s, cut)[0] == s[0]
    ensures forall c | c in TrimRight(s, cut) :: c in s
  {
    if s != "" && cut(s[|s| - 1]) {
      TrimRightTight(s[..|s| - 1], cut);
    }
  }

  lemma {:induction false} TrimLeftTight(s: string, cut: char -> bool)
    ensures var r := TrimLeft(s, cut); r == "" || !cut(r[0])
    ensures forall c | c in TrimLeft(s, cut) :: c in s
    ensures (exists i :: 0 <= i < |s| && !cut(s[i])) ==> TrimLeft(s, cut) != ""
  {
    if s != "" && cut(s[0]) {
      TrimLeftTight(s[1..], cut);
      if i :| 0 <= i < |s| && !cut(s[i]) {
        assert s[1..][i - 1] == s[i];
      }
    }
  }

  lemma TrimWithTight(s: string, cut: char -> bool)
    ensures Tight(TrimWith(s, cut), cut)
    ensures forall c | c in TrimWith(s, cut) :: c in s
    ensures (exists i :: 0 <= i < |s| && !cut(s[i])) <==> TrimWith(s, cut) != ""
  {
    TrimLeftTight(s, cut);
    TrimRightTight(TrimLeft(s, cut), cut);
    var r := TrimWith(s, cut);
    if r != "" {
      assert r[0] in s;
      var i :| 0 <= i < |s| && s[i] == r[0];
      assert !cut(s[i]);
    }
  }

  lemma TightIsTrimmed(s: string, cut: char -> bool)
    requires Tight(s, cut)
    ensures TrimWith(s, cut) == s
  {
  }

  /** The first character that is not cut starts the trimmed text. */
  lemma {:induction false} TrimWithFirst(s: string, cut: char -> bool, i: nat)
    requires i < |s| && !cut(s[i]) && forall j | 0 <= j < i :: cut(s[j])
    ensures TrimWith(s, cut) != "" && TrimWith(s, cut)[0] == s[i]
  {
    if i > 0 {
      assert s[1..][i - 1] == s[i];
      TrimWithFirst(s[1..], cut, i - 1);
    } else {
      TrimRightTight(s, cut);
    }
  }

  // ---------------------------------------------------------------- splitting and joining

  /** strings.Split with a one-character separator. */
  function Split(s: string, sep: char): (parts: seq<string>)
    ensures |parts| >= 1
  {
    if s == "" then [""]
    else
      var rest := Split(s[1..], sep);
      if s[0] == sep then [""] + rest else [[s[0]] + rest[0]] + rest[1..]
  }

  /** strings.Join with a one-character separator. */
  function Join(parts: seq<string>, sep: char): string {
    if parts == [] then ""
    else if |parts| == 1 then parts[0]
    else parts[0] + [sep] + Join(parts[1..], sep)
  }

  predicate AllFree(parts: seq<string>, sep: char) {
    forall i | 0 <= i < |parts| :: sep !in parts[i]
  }

  lemma {:induction false} SplitFree(s: string, sep: char)
    ensures AllFree(Split(s, sep), sep)
  {
    if s != "" { SplitFree(s[1..], sep); }
  }

  lemma {:induction false} SplitWhole(s: string, sep: char)
    requires sep !in s
    ensures Split(s, sep) == [s]
  {
    if s != "" {
      SplitWhole(s[1..], sep);
      assert [s[0]] + s[1..] == s;
    }
  }

  lemma {:induction false} SplitPrefix(a: string, b: string, sep: char)
    requires sep !in a
    ensures Split(a + [sep] + b, sep) == [a] + Split(b, sep)
  {
    if a == "" {
      assert (a + [sep] + b)[1..] == b;
    } else {
      assert (a + [sep] + b)[1..] == a[1..] + [sep] + b;
      SplitPrefix(a[1..], b, sep);
      assert [a[0]] + a[1..] == a;
      assert ([a[1..]] + Split(b, sep))[1..] == Split(b, sep);
    }
  }

  /** Splitting undoes joining when no part contains the separator. */
  lemma {:induction false} SplitJoin(parts: seq<string>, sep: char)
    requires parts != [] && AllFree(parts, sep)
    ensures Split(Join(parts, sep), sep) == parts
  {
    if |parts| == 1 {
      SplitWhole(parts[0], sep);
    } else {
      SplitPrefix(parts[0], Join(parts[1..], sep), sep);
      SplitJoin(parts[1..], sep);
    }
  }

  lemma JoinLonger(c: char, parts: seq<string>, sep: char)
    requires parts != []
    ensures Join([[c] + parts[0]] + parts[1..], sep) == [c] + Join(parts, sep)
  {
    var longer := [[c] + parts[0]] + parts[1..];
    assert longer[1..] == parts[1..];
    if |parts| > 1 {
      assert ([c] + parts[0]) + [sep] + Join(parts[1..], sep) == [c] + (parts[0] + [sep] + Join(parts[1..], sep));
    }
  }

  /** Joining undoes splitting. */
  lemma {:induction false} JoinSplit(s: string, sep: char)
    ensures Join(Split(s, sep), sep) == s
  {
    if s != "" {
      JoinSplit(s[1..], sep);
      var rest := Split(s[1..], sep);
      if s[0] == sep {
        assert ([""] + rest)[1..] == rest;
        assert s == [s[0]] + s[1..];
      } else {
        JoinLonger(s[0], rest, sep);
        assert s == [s[0]] + s[1..];
      }
    }
  }

  /** A separator at the end adds an empty part. */
  lemma {:induction false} SplitLonger(s: string, sep: char)
    ensures Split(s + [sep], sep) == Split(s, sep) + [""]
  {
    if s == "" {
      assert (s + [sep])[1..] == "";
    } else {
      assert (s + [sep])[1..] == s[1..] + [sep];
      SplitLonger(s[1..], sep);
    }
  }

  /** The last part is empty exactly when the text is empty or ends with the separator. */
  lemma {:induction false} SplitLast(s: string, sep: char)
    ensures Split(s, sep)[|Split(s, sep)| - 1] == "" <==> s == "" || s[|s| - 1] == sep
  {
    if s != "" {
      var t := s[1..];
      var rest := Split(t, sep);
      SplitLast(t, sep);
      assert t != "" ==> t[|t| - 1] == s[|s| - 1];
      if |rest| == 1 {
        JoinSplit(t, sep);
      }
    }
  }

  /** The first and last parts are empty exactly when the text begins or ends with the separator. */
  lemma SplitEnds(s: string, sep: char)
    requires s != ""
    ensures Split(s, sep)[0] == "" <==> s[0] == sep
    ensures Split(s, sep)[|Split(s, sep)| - 1] == "" <==> s[|s| - 1] == sep
  {
    SplitLast(s, sep);
  }

  lemma {:induction false} JoinEnds(parts: seq<string>, sep: char)
    requires parts != [] && parts[0] != "" && parts[|parts| - 1] != ""
    ensures var t := Join(parts, sep);
      t != "" && t[0] == parts[0][0] && t[|t| - 1] == parts[|parts| - 1][|parts[|parts| - 1]| - 1]
  {
    if |parts| > 1 {
      var t := Join(parts[1..], sep);
      JoinLast(parts[1..], sep);
    }
  }

  lemma {:induction false} JoinLast(parts: seq<string>, sep: char)
    requires parts != [] && parts[|parts| - 1] != ""
    ensures var t := Join(parts, sep);
      t != "" && t[|t| - 1] == parts[|parts| - 1][|parts[|parts| - 1]| - 1]
  {
    if |parts| > 1 {
      JoinLast(parts[1..], sep);
    }
  }

  // ---------------------------------------------------------------- delimited lists in one text column

  /** The list read back from a text column: nothing from "", otherwise the parts between separators
      once separators at both ends are trimmed. */
  function ReadList(text: string, sep: char): seq<string> {
    if text == "" then [] else Split(Trim(text, sep), sep)
  }

  /** A list survives being joined and read back. */
  predicate Storable(parts: seq<string>, sep: char) {
    parts == [] || (AllFree(parts, sep) && parts[0] != "" && parts[|parts| - 1] != "")
  }

  lemma ReadListShape(text: string, sep: char)
    ensures AllFree(ReadList(text, sep), sep)
    ensures text != "" ==> ReadList(text, sep) != []
    ensures ReadList(text, sep) != [""] ==> Storable(ReadList(text, sep), sep)
    ensures text != "" ==> (ReadList(text, sep) == [""] <==> Trim(text, sep) == "")
  {
    var t := Trim(text, sep);
    SplitFree(t, sep);
    TrimWithTight(text, (x: char) => x == sep);
    if t != "" { SplitEnds(t, sep); }
  }

  /** Reading back what was joined returns the list exactly when the list is storable. */
  lemma ReadBackIff(parts: seq<string>, sep: char)
    ensures ReadList(Join(parts, sep), sep) == parts <==> Storable(parts, sep)
  {
    var t := Join(parts, sep);
    if parts != [] {
      if Storable(parts, sep) {
        JoinEnds(parts, sep);
        assert sep !in parts[0] && sep !in parts[|parts| - 1];
        TightIsTrimmed(t, (x: char) => x == sep);
        SplitJoin(parts, sep);
      } else if ReadList(t, sep) == parts {
        ReadListShape(t, sep);
      }
    }
  }
}
