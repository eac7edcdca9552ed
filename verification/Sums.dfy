/** Sums of statistics over finite sets, in any order. */
module Sums {
  import opened Prelude
  import opened HistoryStats

  ghost function Pick(xs: set<int>): (x: int)
    requires exists x :: x in xs
    ensures x in xs
  {
    var x :| x in xs;
    x
  }

  ghost function Sum(xs: set<int>, f: int -> Stats): Stats {
    if !exists x :: x in xs then ZERO
    else
      var x := Pick(xs);
      Merge(f(x), Sum(xs - {x}, f))
  }

  /** The order of summation does not matter. */
  lemma {:induction false} SumPick(xs: set<int>, x: int, f: int -> Stats)
    requires x in xs
    ensures Sum(xs, f) == Merge(f(x), Sum(xs - {x}, f))
    decreases xs
  {
    hide Merge;
    var y := Pick(xs);
    if y != x {
      var rest := xs - {x} - {y};
      SumPick(xs - {y}, x, f);
      SumPick(xs - {x}, y, f);
      assert xs - {y} - {x} == rest;
      MergeAssociates(f(y), f(x), Sum(rest, f));
      MergeCommutes(f(y), f(x));
      MergeAssociates(f(x), f(y), Sum(rest, f));
    }
  }

  lemma {:induction false} SumSame(xs: set<int>, f: int -> Stats, g: int -> Stats)
    requires forall x :: x in xs ==> f(x) == g(x)
    ensures Sum(xs, f) == Sum(xs, g)
    decreases xs
  {
    hide Merge;
    if exists x :: x in xs {
      SumSame(xs - {Pick(xs)}, f, g);
    }
  }

  lemma {:induction false} SumZero(xs: set<int>, f: int -> Stats)
    requires forall x :: x in xs ==> f(x) == ZERO
    ensures Sum(xs, f) == ZERO
    decreases xs
  {
    hide Merge;
    if exists x :: x in xs {
      SumZero(xs - {Pick(xs)}, f);
      MergeZero(ZERO);
    }
  }

  /** Taking `moved` out of one term takes it out of the sum. */
  lemma SumMoves(xs: set<int>, f: int -> Stats, g: int -> Stats, x: int, moved: Stats)
    requires forall y :: y in xs && y != x ==> f(y) == g(y)
    requires x in xs ==> f(x) == Merge(moved, g(x))
    ensures Sum(xs, f) == if x in xs then Merge(moved, Sum(xs, g)) else Sum(xs, g)
  {
    hide Merge;
    if x in xs {
      SumPick(xs, x, f);
      SumPick(xs, x, g);
      SumSame(xs - {x}, f, g);
      MergeAssociates(moved, g(x), Sum(xs - {x}, g));
    } else {
      SumSame(xs, f, g);
    }
  }

  /** Terms that are zero may be left out. */
  lemma {:induction false} SumExtra(xs: set<int>, extra: set<int>, f: int -> Stats)
    requires xs !! extra && forall x :: x in extra ==> f(x) == ZERO
    ensures Sum(xs + extra, f) == Sum(xs, f)
    decreases extra
  {
    hide Merge;
    if extra != {} {
      var x := Member(extra);
      SumExtra(xs, extra - {x}, f);
      SumPick(xs + extra, x, f);
      assert xs + extra - {x} == xs + (extra - {x});
      MergeZero(Sum(xs + (extra - {x}), f));
    } else {
      assert xs + extra == xs;
    }
  }

  ghost function Total(xs: set<int>, f: int -> nat): nat {
    if !exists x :: x in xs then 0
    else
      var x := Pick(xs);
      f(x) + Total(xs - {x}, f)
  }

  lemma {:induction false} TotalPick(xs: set<int>, x: int, f: int -> nat)
    requires x in xs
    ensures Total(xs, f) == f(x) + Total(xs - {x}, f)
    decreases xs
  {
    var y := Pick(xs);
    if y != x {
      TotalPick(xs - {y}, x, f);
      TotalPick(xs - {x}, y, f);
      assert xs - {y} - {x} == xs - {x} - {y};
    }
  }

  lemma {:induction false} TotalSame(xs: set<int>, f: int -> nat, g: int -> nat)
    requires forall x :: x in xs ==> f(x) == g(x)
    ensures Total(xs, f) == Total(xs, g)
    decreases xs
  {
    if exists x :: x in xs {
      TotalSame(xs - {Pick(xs)}, f, g);
    }
  }

  lemma {:induction false} TotalSplits(xs: set<int>, ys: set<int>, f: int -> nat)
    requires xs !! ys
    ensures Total(xs + ys, f) == Total(xs, f) + Total(ys, f)
    decreases ys
  {
    if exists y :: y in ys {
      var y := Pick(ys);
      TotalSplits(xs, ys - {y}, f);
      TotalPick(xs + ys, y, f);
      assert xs + ys - {y} == xs + (ys - {y});
    } else {
      assert xs + ys == xs;
    }
  }

  lemma {:induction false} TotalZero(xs: set<int>, f: int -> nat)
    ensures Total(xs, f) == 0 <==> forall x :: x in xs ==> f(x) == 0
    decreases xs
  {
    if exists x :: x in xs {
      var x := Pick(xs);
      TotalZero(xs - {x}, f);
    }
  }

  /** Bounds that hold term by term hold for the sum. */
  lemma {:induction false} SumBounded(xs: set<int>, f: int -> Stats, bound: int -> nat)
    requires forall x :: x in xs ==> f(x).upMs + f(x).downMs <= bound(x) && f(x).usageMs <= bound(x)
    ensures Sum(xs, f).upMs + Sum(xs, f).downMs <= Total(xs, bound)
    ensures Sum(xs, f).usageMs <= Total(xs, bound)
    decreases xs
  {
    if exists x :: x in xs {
      SumBounded(xs - {Pick(xs)}, f, bound);
    }
  }

  lemma {:induction false} SumDurations(xs: set<int>, f: int -> Stats, g: int -> Stats)
    requires forall x :: x in xs ==> Durations(f(x)) == g(x)
    ensures Durations(Sum(xs, f)) == Sum(xs, g)
    decreases xs
  {
    hide Merge;
    if exists x :: x in xs {
      var x := Pick(xs);
      SumDurations(xs - {x}, f, g);
      DurationsMerge(f(x), Sum(xs - {x}, f));
    }
  }
}
