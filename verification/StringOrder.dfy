/** The order in which Go sorts strings, and the one ascending enumeration of a set of strings. */
module StringOrder {

  predicate Less(a: string, b: string) {
    b != [] && (a == [] || a[0] < b[0] || (a[0] == b[0] && Less(a[1..], b[1..])))
  }

  lemma {:induction false} LessTotal(a: string, b: string)
    ensures Less(a, b) || a == b || Less(b, a)
  {
    if a != [] && b != [] && a[0] == b[0] {
      LessTotal(a[1..], b[1..]);
      assert a == [a[0]] + a[1..] && b == [b[0]] + b[1..];
    }
  }

  lemma {:induction false} LessAsymmetric(a: string, b: string)
    requires Less(a, b)
    ensures !Less(b, a) && a != b
  {
    if a != [] && a[0] == b[0] {
      LessAsymmetric(a[1..], b[1..]);
    }
  }

  lemma {:induction false} LessTransitive(a: string, b: string, c: string)
    requires Less(a, b) && Less(b, c)
    ensures Less(a, c)
  {
    if a != [] && a[0] == b[0] == c[0] {
      LessTransitive(a[1..], b[1..], c[1..]);
    }
  }

  ghost predicate Ascending(s: seq<string>) {
    forall i, j | 0 <= i < j < |s| :: Less(s[i], s[j])
  }

  /** `s` lists each string of `keys` once, in ascending order. */
  ghost predicate Enumerates(s: seq<string>, keys: set<string>) {
    Ascending(s) && forall k :: k in keys <==> exists i :: 0 <= i < |s| && s[i] == k
  }

  /** Collecting the keys of a map and sorting them. */
  method SortedKeys(keys: set<string>) returns (s: seq<string>)
    ensures Enumerates(s, keys)
  {
    s := [];
    var left := keys;
    while left != {}
      invariant left <= keys
      invariant Enumerates(s, keys - left)
    {
      var k :| k in left;
      s := Insert(s, keys - left, k);
      left := left - {k};
      assert keys - left == keys - (left + {k}) + {k};
    }
    assert keys - left == keys;
  }

  method Insert(s: seq<string>, ghost keys: set<string>, k: string) returns (r: seq<string>)
    requires Enumerates(s, keys) && k !in keys
    ensures Enumerates(r, keys + {k})
  {
    var i := 0;
    while i < |s| && Less(s[i], k)
      invariant 0 <= i <= |s|
      invariant forall j | 0 <= j < i :: Less(s[j], k)
    {
      i := i + 1;
    }
    InsertedAscends(s, i, k);
    r := s[..i] + [k] + s[i..];
    assert forall j | 0 <= j < |s| :: s[j] == r[if j < i then j else j + 1];
    assert r[i] == k;
  }

  lemma InsertedAscends(s: seq<string>, i: nat, k: string)
    requires Ascending(s) && i <= |s| && (forall j | 0 <= j < |s| :: s[j] != k)
    requires forall j | 0 <= j < i :: Less(s[j], k)
    requires i < |s| ==> !Less(s[i], k)
    ensures Ascending(s[..i] + [k] + s[i..])
  {
    forall j | i <= j < |s| ensures Less(k, s[j]) {
      LessTotal(k, s[i]);
      if i < j {
        LessTransitive(k, s[i], s[j]);
      }
    }
  }

  /** There is only one such list, so it does not depend on the order in which a map was read. */
  lemma {:induction false} EnumerationIsUnique(s: seq<string>, t: seq<string>, keys: set<string>)
    requires Enumerates(s, keys) && Enumerates(t, keys)
    ensures s == t
  {
    if s == [] {
      if t != [] {
        FirstIsLeast(t, s, keys);
      }
    } else {
      assert s[0] in keys;
      FirstIsLeast(s, t, keys);
      EnumeratesTail(s, keys);
      EnumeratesTail(t, keys);
      EnumerationIsUnique(s[1..], t[1..], keys - {s[0]});
      assert s == [s[0]] + s[1..] && t == [t[0]] + t[1..];
    }
  }

  lemma FirstIsLeast(s: seq<string>, t: seq<string>, keys: set<string>)
    requires Enumerates(s, keys) && Enumerates(t, keys) && s != []
    ensures t != [] && s[0] == t[0]
  {
    assert s[0] in keys;
    var i :| 0 <= i < |t| && t[i] == s[0];
    assert t[0] in keys;
    var j :| 0 <= j < |s| && s[j] == t[0];
    if i > 0 && j > 0 {
      LessAsymmetric(s[0], s[j]);
    }
  }

  lemma EnumeratesTail(s: seq<string>, keys: set<string>)
    requires Enumerates(s, keys) && s != []
    ensures Enumerates(s[1..], keys - {s[0]})
  {
    forall k ensures k in keys - {s[0]} <==> exists i :: 0 <= i < |s[1..]| && s[1..][i] == k {
      if k in keys && k != s[0] {
        var i :| 0 <= i < |s| && s[i] == k;
        assert s[1..][i - 1] == k;
      }
      if i :| 0 <= i < |s[1..]| && s[1..][i] == k {
        assert s[i + 1] == k;
        LessAsymmetric(s[0], s[i + 1]);
      }
    }
  }
}
