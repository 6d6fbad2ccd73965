/** Error codes and the few facts about sequences that the list-shaped state of the runtime needs. */
module Errors {
  /** The errno values the runtime returns; `Other` is whatever a node's own callback returned. */
  datatype Errno = Ok | EINVAL | ENOMEM | ENOENT | EEXIST | ENOTSUP | Other(code: int)

  datatype Option<+T> = None | Some(value: T)
}

module Lists {

  ghost predicate NoDup<T>(xs: seq<T>) {
    forall i, j :: 0 <= i < j < |xs| ==> xs[i] != xs[j]
  }

  /** `xs` with its first `x` unlinked: what a search followed by LIST_REMOVE leaves. */
  function Without<T(==)>(xs: seq<T>, x: T): seq<T> {
    if xs == [] then []
    else if xs[0] == x then xs[1..]
    else [xs[0]] + Without(xs[1..], x)
  }

  lemma {:induction false} WithoutCounts<T>(xs: seq<T>, x: T)
    ensures multiset(Without(xs, x)) == multiset(xs) - multiset{x}
    ensures |Without(xs, x)| == if x in xs then |xs| - 1 else |xs|
  {
    if xs == [] {
    } else {
      assert xs == [xs[0]] + xs[1..];
      if xs[0] != x {
        WithoutCounts(xs[1..], x);
      }
    }
  }

  /** Unlinking the element found at the first matching position is `Without`. */
  lemma {:induction false} WithoutAt<T>(xs: seq<T>, x: T, i: nat)
    requires i < |xs| && xs[i] == x && x !in xs[..i]
    ensures Without(xs, x) == xs[..i] + xs[i + 1..]
  {
    if i == 0 {
    } else {
      assert xs[0] == xs[..i][0];
      assert xs[..i] == [xs[0]] + xs[1..][..i - 1];
      WithoutAt(xs[1..], x, i - 1);
      assert xs[1..][..i - 1] == xs[1..i];
      assert xs[1..][i..] == xs[i + 1..];
    }
  }

  lemma WithoutAbsent<T>(xs: seq<T>, x: T)
    requires x !in xs
    ensures Without(xs, x) == xs
  {
  }

  lemma {:induction false} WithoutNoDup<T>(xs: seq<T>, x: T)
    requires NoDup(xs)
    ensures NoDup(Without(xs, x))
    ensures forall y :: y in Without(xs, x) <==> y in xs && y != x
  {
    if x in xs {
      var i :| 0 <= i < |xs| && xs[i] == x;
      WithoutAt(xs, x, i);
      var ys := xs[..i] + xs[i + 1..];
      forall y | y in xs && y != x ensures y in ys {
        var j :| 0 <= j < |xs| && xs[j] == y;
        assert ys[if j < i then j else j - 1] == y;
      }
    } else {
      WithoutAbsent(xs, x);
    }
  }
}
