/** Types that several parts of the model share. */
module Basics {

  /** A value that may be missing: a nil pointer, an absent map entry, no error. */
  datatype Option<+T> = None | Some(value: T)

  type Byte = x: int | 0 <= x < 256

  predicate NoDuplicates<T(==)>(xs: seq<T>) {
    forall i, j | 0 <= i < j < |xs| :: xs[i] != xs[j]
  }

  /** Truncation toward zero: Decimal.IntPart and the conversion of a float to an int. */
  function Truncate(x: real): int {
    if x >= 0.0 then x.Floor else -((-x).Floor)
  }

  /** `c` is `x` cut off toward zero. */
  predicate IsCutOff(c: int, x: real) {
    if x >= 0.0 then c as real <= x < c as real + 1.0 else c as real - 1.0 < x <= c as real
  }

  lemma CutOffIsUnique(c: int, d: int, x: real)
    requires IsCutOff(c, x) && IsCutOff(d, x)
    ensures c == d
  {
  }

  lemma TruncateCutsOff(x: real)
    ensures IsCutOff(Truncate(x), x)
  {
  }
}
