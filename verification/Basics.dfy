/** What several modules share. */
module Basics {
  datatype Option<+T> = None | Some(value: T)

  /** Clock readings count microseconds. */
  const SECOND := 1_000_000

  lemma Scaled(t: real, a: real, b: real)
    requires t >= 0.0 && a <= b
    ensures t * a <= t * b
  {
  }

  lemma {:induction false} SubsetSize<T>(a: set<T>, b: set<T>)
    requires a <= b
    ensures |a| <= |b|
  {
    assert b == a + (b - a);
  }
}
