/** The elements of a sequence that pass a test, in their order: what `Array.prototype.filter` and the like give. */
module Picking {

  /** The positions go up. */
  ghost predicate Up(at: seq<int>) {
    forall j, k :: 0 <= j < k < |at| ==> at[j] < at[k]
  }

  /** The k-th of ys is the at[k]-th of xs, which passes. */
  ghost predicate Placed<T(!new)>(xs: seq<T>, passes: T -> bool, ys: seq<T>, at: seq<int>) {
    && |at| == |ys|
    && (forall k :: 0 <= k < |at| ==> 0 <= at[k] < |xs| && passes(xs[at[k]]) && ys[k] == xs[at[k]])
    && Up(at)
    && (forall i :: 0 <= i < |xs| && passes(xs[i]) ==> i in at)
  }

  /** ys are the elements of xs that pass, each as often as xs has it, in the order of xs. */
  ghost predicate Picks<T(!new)>(xs: seq<T>, passes: T -> bool, ys: seq<T>) {
    exists at :: Placed(xs, passes, ys, at)
  }

  lemma NothingPicked<T(!new)>(passes: T -> bool)
    ensures Picks([], passes, [])
  {
    assert Placed([], passes, [], []);
  }

  lemma PlacedNext<T(!new)>(xs: seq<T>, x: T, passes: T -> bool, ys: seq<T>, at: seq<int>)
    requires Placed(xs, passes, ys, at)
    ensures passes(x) ==> Placed(xs + [x], passes, ys + [x], at + [|xs|])
    ensures !passes(x) ==> Placed(xs + [x], passes, ys, at)
  {
    if passes(x) {
      var at' := at + [|xs|];
      forall i | 0 <= i < |xs + [x]| && passes((xs + [x])[i]) ensures i in at' {
        assert i < |xs| ==> i in at;
        assert at'[|at|] == |xs|;
      }
    }
  }

  lemma PickNext<T(!new)>(xs: seq<T>, x: T, passes: T -> bool, ys: seq<T>)
    requires Picks(xs, passes, ys)
    ensures Picks(xs + [x], passes, if passes(x) then ys + [x] else ys)
  {
    var at :| Placed(xs, passes, ys, at);
    PlacedNext(xs, x, passes, ys, at);
  }

  /** There is no other choice of them. */
  lemma {:induction false} PicksUnique<T(!new)>(xs: seq<T>, passes: T -> bool, ys: seq<T>, zs: seq<T>)
    requires Picks(xs, passes, ys) && Picks(xs, passes, zs)
    ensures ys == zs
  {
    var at :| Placed(xs, passes, ys, at);
    var bt :| Placed(xs, passes, zs, bt);
    forall i ensures i in at <==> i in bt {
      PlacedAt(xs, passes, ys, at, i);
      PlacedAt(xs, passes, zs, bt, i);
    }
    SamePositions(at, bt);
  }

  lemma PlacedAt<T(!new)>(xs: seq<T>, passes: T -> bool, ys: seq<T>, at: seq<int>, i: int)
    requires Placed(xs, passes, ys, at)
    ensures i in at <==> 0 <= i < |xs| && passes(xs[i])
  {
  }

  lemma UpTo(at: seq<int>)
    requires at != [] && Up(at)
    ensures forall i :: i in at ==> i <= at[|at| - 1]
    ensures Up(at[..|at| - 1])
    ensures forall i :: i in at[..|at| - 1] <==> i in at && i != at[|at| - 1]
  {
    var front, last := at[..|at| - 1], at[|at| - 1];
    assert at == front + [last];
    forall i | i in front ensures i < last {
      var k :| 0 <= k < |front| && front[k] == i;
      assert at[k] == i;
    }
  }

  lemma {:induction false} SamePositions(at: seq<int>, bt: seq<int>)
    requires (forall i :: i in at ==> i in bt) && (forall i :: i in bt ==> i in at)
    requires Up(at) && Up(bt)
    ensures at == bt
  {
    hide Up;
    if at != [] {
      var a := at[|at| - 1];
      assert a in at && a in bt;
      var b := bt[|bt| - 1];
      assert b in bt && b in at;
      UpTo(at);
      UpTo(bt);
      var fa, fb := at[..|at| - 1], bt[..|bt| - 1];
      forall i | i in fa ensures i in fb {
        assert i in at && i in bt;
      }
      forall i | i in fb ensures i in fa {
        assert i in bt && i in at;
      }
      SamePositions(fa, fb);
      assert at == at[..|at| - 1] + [a] && bt == bt[..|bt| - 1] + [b];
    } else if bt != [] {
      var b := bt[0];
      assert b in bt;
      Empty(at, b);
    }
  }

  lemma Empty(at: seq<int>, b: int)
    requires at == []
    ensures b !in at
  {
  }

  /** A list with one element left out, when it is the only one that does not pass. */
  lemma PicksAllBut<T(!new)>(before: seq<T>, x: T, after: seq<T>, passes: T -> bool)
    requires (forall y :: y in before ==> passes(y)) && (forall y :: y in after ==> passes(y)) && !passes(x)
    ensures Picks(before + [x] + after, passes, before + after)
  {
    var n := |before|;
    var xs, at := before + [x] + after, seq(|before| + |after|, k requires 0 <= k => if k < n then k else k + 1);
    forall k | 0 <= k < |at| ensures passes(xs[at[k]]) && (before + after)[k] == xs[at[k]] {
      if k < n {
        assert before[k] in before;
      } else {
        assert after[k - n] in after;
      }
    }
    forall i | 0 <= i < |xs| && passes(xs[i]) ensures i in at {
      assert i != n;
      assert at[if i < n then i else i - 1] == i;
    }
    assert Placed(xs, passes, before + after, at);
  }

  lemma UpKeepsOrder(at: seq<int>, p: nat, q: nat)
    requires Up(at) && p < |at| && q < |at| && at[p] < at[q]
    ensures p < q
  {
  }

  /** Picking keeps the order of any two elements. */
  lemma PicksKeepOrder<T(!new)>(xs: seq<T>, passes: T -> bool, ys: seq<T>, i: nat, j: nat) returns (p: nat, q: nat)
    requires Picks(xs, passes, ys) && i < j < |xs| && passes(xs[i]) && passes(xs[j])
    ensures p < q < |ys| && ys[p] == xs[i] && ys[q] == xs[j]
  {
    hide Up;
    var at :| Placed(xs, passes, ys, at);
    assert i in at && j in at;
    p :| 0 <= p < |at| && at[p] == i;
    q :| 0 <= q < |at| && at[q] == j;
    UpKeepsOrder(at, p, q);
  }

  lemma PicksMembers<T(!new)>(xs: seq<T>, passes: T -> bool, ys: seq<T>)
    requires Picks(xs, passes, ys)
    ensures forall x :: x in ys <==> x in xs && passes(x)
  {
    var at :| Placed(xs, passes, ys, at);
    forall x | x in xs && passes(x) ensures x in ys {
      var i :| 0 <= i < |xs| && xs[i] == x;
      assert i in at;
      var k :| 0 <= k < |at| && at[k] == i;
      assert ys[k] == x;
    }
  }
}
