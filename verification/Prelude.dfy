/** Small shared datatypes. */
module Prelude {

  /** A value that may be absent; `:-` propagates the absence. */
  datatype Option<+T> = None | Some(value: T) {
    predicate IsFailure() {
      None?
    }

    function PropagateFailure<U>(): Option<U>
      requires None?
    {
      None
    }

    function Extract(): T
      requires Some?
    {
      value
    }
  }

  function Min(a: int, b: int): int {
    if a <= b then a else b
  }

  function Max(a: int, b: int): int {
    if a >= b then a else b
  }

  ghost predicate Increasing(xs: seq<nat>) {
    forall i, j :: 0 <= i < j < |xs| ==> xs[i] < xs[j]
  }

  lemma SliceSnoc<T>(out: seq<T>, s: seq<T>, first: nat, n: nat)
    requires first + n < |s|
    ensures out + s[first..first + n + 1] == out + s[first..first + n] + [s[first + n]]
  {
  }

  lemma SliceOfSlice<T>(s: seq<T>, a: nat, b: nat, i: nat, j: nat)
    requires a <= b <= |s| && i <= j <= b - a
    ensures s[a..b][i..j] == s[a + i..a + j]
  {
    var part := s[a..b];
    assert forall k :: 0 <= k < |part| ==> part[k] == s[a + k];
  }
}
