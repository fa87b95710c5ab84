/** Sums of an integer-valued function over a finite set. */
module Sums {

  ghost function SumOver<T>(ks: set<T>, f: T -> int): int
  {
    if ks == {} then 0
    else
      var k :| k in ks;
      f(k) + SumOver(ks - {k}, f)
  }

  /** Any member may be taken out first. */
  lemma {:induction false} SumOverTake<T>(ks: set<T>, k: T, f: T -> int)
    requires k in ks
    ensures SumOver(ks, f) == f(k) + SumOver(ks - {k}, f)
    decreases |ks|
  {
    var c :| c in ks && SumOver(ks, f) == f(c) + SumOver(ks - {c}, f);
    if c != k {
      SumOverTake(ks - {c}, k, f);
      SumOverTake(ks - {k}, c, f);
      assert ks - {c} - {k} == ks - {k} - {c};
    }
  }

  lemma SumOverAdd<T>(ks: set<T>, k: T, f: T -> int)
    requires k !in ks
    ensures SumOver(ks + {k}, f) == f(k) + SumOver(ks, f)
  {
    SumOverTake(ks + {k}, k, f);
    assert ks + {k} - {k} == ks;
  }

  /** The sum depends only on the values at the members. */
  lemma {:induction false} SumOverFrame<T>(ks: set<T>, f: T -> int, g: T -> int)
    requires forall k | k in ks :: f(k) == g(k)
    ensures SumOver(ks, f) == SumOver(ks, g)
    decreases |ks|
  {
    if ks != {} {
      var c :| c in ks;
      SumOverTake(ks, c, f);
      SumOverTake(ks, c, g);
      SumOverFrame(ks - {c}, f, g);
    }
  }

  /** Changing the function at one member moves the sum by the change there. */
  lemma SumOverChange<T>(ks: set<T>, k: T, f: T -> int, g: T -> int)
    requires k in ks
    requires forall j | j in ks && j != k :: f(j) == g(j)
    ensures SumOver(ks, g) == SumOver(ks, f) + g(k) - f(k)
  {
    SumOverTake(ks, k, f);
    SumOverTake(ks, k, g);
    SumOverFrame(ks - {k}, f, g);
  }
}
