/** Options, results and the few facts about sequences that the other modules share. */
module Wrappers {

  datatype Option<+T> = None | Some(value: T)

  datatype Result<+T, +E> = Ok(value: T) | Err(error: E)

  /** No element occurs at two positions. */
  ghost predicate NoDup<T>(xs: seq<T>) {
    forall i, j :: 0 <= i < j < |xs| ==> xs[i] != xs[j]
  }

  /** Deletion of every occurrence, as `Set.delete` does on the insertion order of a JavaScript set. */
  function Without<T(==,!new)>(xs: seq<T>, x: T): (r: seq<T>)
    ensures x !in r
    ensures forall y :: y in r <==> y in xs && y != x
  {
    if xs == [] then []
    else
      var rest := Without(xs[..|xs| - 1], x);
      var last := xs[|xs| - 1];
      assert xs == xs[..|xs| - 1] + [last];
      if last == x then rest else rest + [last]
  }

  lemma {:induction false} WithoutKeepsNoDup<T(!new)>(xs: seq<T>, x: T)
    requires NoDup(xs)
    ensures NoDup(Without(xs, x))
  {
    if xs != [] {
      WithoutKeepsNoDup(xs[..|xs| - 1], x);
      assert xs[|xs| - 1] !in xs[..|xs| - 1];
    }
  }

  /** A sequence without the element at one position. */
  function DropAt<T>(xs: seq<T>, i: nat): seq<T>
    requires i < |xs|
  {
    xs[..i] + xs[i + 1..]
  }

  lemma DropAtMultiset<T>(xs: seq<T>, i: nat)
    requires i < |xs|
    ensures multiset(DropAt(xs, i)) == multiset(xs) - multiset{xs[i]}
  {
    assert xs == xs[..i] + [xs[i]] + xs[i + 1..];
  }

  /** Two lists of the same length with no repeats on the left: covering the left is being a permutation of it. */
  lemma {:induction false} Pigeonhole<T(!new)>(expected: seq<T>, found: seq<T>)
    requires NoDup(expected)
    requires |expected| == |found|
    requires forall x :: x in expected ==> x in found
    ensures multiset(expected) == multiset(found)
  {
    if expected != [] {
      var x := expected[|expected| - 1];
      assert x in expected;
      var i :| 0 <= i < |found| && found[i] == x;
      var fewer := found[..i] + found[i + 1..];
      var front := expected[..|expected| - 1];
      forall y | y in front ensures y in fewer {
        var j :| 0 <= j < |front| && front[j] == y;
        assert y != x && y in expected;
        var k :| 0 <= k < |found| && found[k] == y;
        assert if k < i then fewer[k] == y else fewer[k - 1] == y;
      }
      Pigeonhole(front, fewer);
      assert expected == front + [x];
      assert found == found[..i] + [x] + found[i + 1..];
    }
  }

  /** In a run, no step before the i-th was bad in the state it was taken in. */
  ghost predicate NoneBefore<S(!new), T(!new)>(trace: seq<S>, steps: seq<T>, i: nat, bad: (S, T) -> bool)
    requires i <= |steps| < |trace|
  {
    forall k :: 0 <= k < i ==> !bad(trace[k], steps[k])
  }
}
