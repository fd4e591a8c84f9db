/** Adding up one number per listed item. */
module Sums {
  import opened Sorting

  function Total<T>(xs: seq<T>, f: T -> int): int {
    if xs == [] then 0 else f(xs[0]) + Total(xs[1..], f)
  }

  lemma {:induction false} SameTotal<T>(xs: seq<T>, f: T -> int, g: T -> int)
    requires forall x :: x in xs ==> f(x) == g(x)
    ensures Total(xs, f) == Total(xs, g)
  {
    if xs != [] { SameTotal(xs[1..], f, g); }
  }

  /** Changing the number of one listed item changes the sum by exactly that much. */
  lemma {:induction false} OneChanges<T>(xs: seq<T>, f: T -> int, g: T -> int, a: T)
    requires Distinct(xs) && a in xs && forall x :: x in xs && x != a ==> f(x) == g(x)
    ensures Total(xs, g) == Total(xs, f) + g(a) - f(a)
  {
    assert xs == [xs[0]] + xs[1..];
    if xs[0] == a {
      forall x | x in xs[1..] ensures f(x) == g(x) { assert x != a; }
      SameTotal(xs[1..], f, g);
    } else {
      OneChanges(xs[1..], f, g, a);
    }
  }

  /** Two listed items may change at once. */
  lemma TwoChange<T>(xs: seq<T>, f: T -> int, g: T -> int, a: T, b: T)
    requires Distinct(xs) && a in xs && b in xs && a != b && forall x :: x in xs && x != a && x != b ==> f(x) == g(x)
    ensures Total(xs, g) == Total(xs, f) + g(a) - f(a) + g(b) - f(b)
  {
    var m := x => if x == a then g(x) else f(x);
    OneChanges(xs, f, m, a);
    OneChanges(xs, m, g, b);
  }

  lemma {:induction false} TotalAppend<T>(xs: seq<T>, x: T, f: T -> int)
    ensures Total(xs + [x], f) == Total(xs, f) + f(x)
  {
    if xs == [] {
      assert [x][1..] == [];
    } else {
      assert (xs + [x])[1..] == xs[1..] + [x];
      TotalAppend(xs[1..], x, f);
    }
  }

  lemma {:induction false} TotalNonNegative<T>(xs: seq<T>, f: T -> int)
    requires forall x :: x in xs ==> f(x) >= 0
    ensures Total(xs, f) >= 0 && forall x :: x in xs ==> f(x) <= Total(xs, f)
  {
    if xs != [] { TotalNonNegative(xs[1..], f); }
  }

  lemma {:induction false} TotalUpdate<T>(xs: seq<T>, i: nat, y: T, f: T -> int)
    requires i < |xs|
    ensures Total(xs[i := y], f) == Total(xs, f) - f(xs[i]) + f(y)
  {
    if i == 0 {
      assert xs[0 := y][1..] == xs[1..];
    } else {
      assert xs[i := y][1..] == xs[1..][i - 1 := y];
      TotalUpdate(xs[1..], i - 1, y, f);
    }
  }

  lemma {:induction false} TotalAdds<T>(xs: seq<T>, f: T -> int, g: T -> int, h: T -> int)
    requires forall x :: x in xs ==> h(x) == f(x) + g(x)
    ensures Total(xs, h) == Total(xs, f) + Total(xs, g)
  {
    if xs != [] { TotalAdds(xs[1..], f, g, h); }
  }
}
