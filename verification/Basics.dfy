/** Small value types and facts shared by the models. */
module Basics {
  datatype Option<+T> = None | Some(value: T)

  // What a write's caller sees, and whether the write took effect: an error may
  // come before the statement ran or after, when only its reply was lost.
  datatype WriteOutcome = WriteOk | WriteErr | WriteErrApplied

  function Min(a: int, b: int): int { if a < b then a else b }

  lemma SubsetSize<T>(a: set<T>, b: set<T>)
    requires a <= b
    ensures |a| <= |b|
  {
    assert b == a + (b - a);
  }

  lemma Associate<T>(a: seq<T>, b: seq<T>, c: seq<T>)
    ensures (a + b) + c == a + (b + c)
  {
  }

  lemma Undo(x: real, n: real)
    requires n > 0.0
    ensures (x / n) * n == x
  {
  }

  function Prepend<T>(done: seq<T>, rest: Option<seq<T>>): Option<seq<T>> {
    if rest.Some? then Some(done + rest.value) else None
  }

  lemma PrependNothing<T>(rest: Option<seq<T>>)
    ensures Prepend([], rest) == rest
  {
    if rest.Some? { assert [] + rest.value == rest.value; }
  }

  lemma PrependTwice<T>(a: seq<T>, b: seq<T>, rest: Option<seq<T>>)
    ensures Prepend(a, Prepend(b, rest)) == Prepend(a + b, rest)
  {
    if rest.Some? { assert a + (b + rest.value) == (a + b) + rest.value; }
  }
}
