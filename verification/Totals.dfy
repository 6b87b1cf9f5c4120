/** Sums over the threads or processes of a step machine. */
module Totals {

  function Total<T>(xs: seq<T>, f: T -> int): int {
    if xs == [] then 0 else f(xs[0]) + Total(xs[1..], f)
  }

  ghost predicate NotNegative<T>(xs: seq<T>, f: T -> int) {
    forall i :: 0 <= i < |xs| ==> f(xs[i]) >= 0
  }

  lemma {:induction false} TotalUpdate<T>(xs: seq<T>, f: T -> int, i: nat, x: T)
    requires i < |xs|
    ensures Total(xs[i := x], f) == Total(xs, f) - f(xs[i]) + f(x)
  {
    if i == 0 {
      assert xs[i := x][1..] == xs[1..];
    } else {
      assert xs[i := x][1..] == xs[1..][i - 1 := x];
      TotalUpdate(xs[1..], f, i - 1, x);
    }
  }

  lemma {:induction false} TotalNotNegative<T>(xs: seq<T>, f: T -> int)
    requires NotNegative(xs, f)
    ensures Total(xs, f) >= 0
  {
    if xs != [] {
      TotalNotNegative(xs[1..], f);
    }
  }

  lemma {:induction false} TotalAtLeast<T>(xs: seq<T>, f: T -> int, i: nat)
    requires i < |xs| && NotNegative(xs, f)
    ensures Total(xs, f) >= f(xs[i])
    ensures forall j :: 0 <= j < |xs| && j != i ==> Total(xs, f) >= f(xs[i]) + f(xs[j])
  {
    if i == 0 {
      TotalNotNegative(xs[1..], f);
      forall j | 0 < j < |xs|
        ensures Total(xs, f) >= f(xs[0]) + f(xs[j])
      {
        TotalAtLeast(xs[1..], f, j - 1);
      }
    } else {
      TotalAtLeast(xs[1..], f, i - 1);
      forall j | 0 <= j < |xs| && j != i
        ensures Total(xs, f) >= f(xs[i]) + f(xs[j])
      {
        if j > 0 {
          assert xs[1..][j - 1] == xs[j];
        }
      }
    }
  }

  lemma {:induction false} TotalZero<T>(xs: seq<T>, f: T -> int)
    requires forall i :: 0 <= i < |xs| ==> f(xs[i]) == 0
    ensures Total(xs, f) == 0
  {
    if xs != [] {
      TotalZero(xs[1..], f);
    }
  }

  /** A positive sum has a positive member. */
  lemma {:induction false} SomePositive<T>(xs: seq<T>, f: T -> int) returns (i: nat)
    requires Total(xs, f) > 0
    ensures i < |xs| && f(xs[i]) > 0
  {
    if f(xs[0]) > 0 {
      i := 0;
    } else {
      i := SomePositive(xs[1..], f);
      i := i + 1;
    }
  }
}
