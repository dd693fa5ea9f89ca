/** Sums over sequences. */
module Sums {

  function Sum<T>(s: seq<T>, f: T -> int): int {
    if s == [] then 0 else f(s[0]) + Sum(s[1..], f)
  }

  lemma {:induction false} SumConcat<T>(x: seq<T>, y: seq<T>, f: T -> int)
    ensures Sum(x + y, f) == Sum(x, f) + Sum(y, f)
  {
    if x == [] {
      assert x + y == y;
    } else {
      assert (x + y)[1..] == x[1..] + y;
      SumConcat(x[1..], y, f);
    }
  }

  lemma {:induction false} SumOne<T>(x: T, f: T -> int)
    ensures Sum([x], f) == f(x)
  {
    assert [x][1..] == [];
  }

  lemma {:induction false} SumTwo<T>(x: T, y: T, f: T -> int)
    ensures Sum([x, y], f) == f(x) + f(y)
  {
    SumOne(y, f);
    assert [x, y][1..] == [y];
  }

  lemma {:induction false} SumSplit<T>(s: seq<T>, k: nat, f: T -> int)
    requires k < |s|
    ensures Sum(s, f) == Sum(s[..k], f) + f(s[k]) + Sum(s[k + 1..], f)
    ensures Sum(s[..k] + s[k + 1..], f) == Sum(s[..k], f) + Sum(s[k + 1..], f)
  {
    assert s == s[..k] + s[k..];
    SumConcat(s[..k], s[k..], f);
    SumConcat(s[..k], s[k + 1..], f);
  }

  lemma {:induction false} SumZero<T>(s: seq<T>, f: T -> int)
    requires forall i :: 0 <= i < |s| ==> f(s[i]) == 0
    ensures Sum(s, f) == 0
  {
    if s != [] { SumZero(s[1..], f); }
  }

  lemma {:induction false} SumNonNegative<T>(s: seq<T>, f: T -> int)
    requires forall i :: 0 <= i < |s| ==> f(s[i]) >= 0
    ensures Sum(s, f) >= 0
  {
    if s != [] { SumNonNegative(s[1..], f); }
  }

  lemma {:induction false} SumUpdate<T>(s: seq<T>, k: nat, y: T, f: T -> int)
    requires k < |s|
    ensures Sum(s[k := y], f) == Sum(s, f) - f(s[k]) + f(y)
  {
    SumSplit(s, k, f);
    SumSplit(s[k := y], k, f);
    assert s[k := y][..k] == s[..k] && s[k := y][k + 1..] == s[k + 1..];
  }
}
