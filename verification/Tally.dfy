/** Sums over the members of a group, and how one member's change moves them. */
module Tally {

  function Sum<T>(f: T -> int, s: seq<T>): int {
    if s == [] then 0 else f(s[0]) + Sum(f, s[1..])
  }

  /** Replacing one member moves the sum by that member's difference. */
  lemma {:induction false} SumUpdate<T>(f: T -> int, s: seq<T>, i: nat, x: T)
    requires i < |s|
    ensures Sum(f, s[i := x]) == Sum(f, s) - f(s[i]) + f(x)
  {
    if i == 0 {
      assert s[i := x][1..] == s[1..];
    } else {
      SumUpdate(f, s[1..], i - 1, x);
      assert s[i := x][1..] == s[1..][i - 1 := x];
    }
  }

  lemma {:induction false} SumAtLeast<T>(f: T -> int, s: seq<T>)
    requires forall k :: 0 <= k < |s| ==> f(s[k]) >= 0
    ensures Sum(f, s) >= 0
    ensures forall i :: 0 <= i < |s| ==> f(s[i]) <= Sum(f, s)
  {
    if s != [] {
      SumAtLeast(f, s[1..]);
      forall i | 0 <= i < |s| ensures f(s[i]) <= Sum(f, s) {
        if i > 0 { assert s[1..][i - 1] == s[i]; }
      }
    }
  }

  /** Two different members are both counted. */
  lemma {:induction false} SumAtLeastTwo<T>(f: T -> int, s: seq<T>, i: nat, j: nat)
    requires i < j < |s|
    requires forall k :: 0 <= k < |s| ==> f(s[k]) >= 0
    ensures f(s[i]) + f(s[j]) <= Sum(f, s)
  {
    if i == 0 {
      SumAtLeast(f, s[1..]);
      assert s[1..][j - 1] == s[j];
    } else {
      SumAtLeastTwo(f, s[1..], i - 1, j - 1);
    }
  }

  /** A positive sum of non-negative shares has a positive share. */
  lemma {:induction false} SumWitness<T>(f: T -> int, s: seq<T>) returns (i: nat)
    requires Sum(f, s) > 0
    ensures i < |s| && f(s[i]) > 0
  {
    if f(s[0]) > 0 {
      i := 0;
    } else {
      var k := SumWitness(f, s[1..]);
      i := k + 1;
    }
  }

  /** A pointwise bound is a bound of the sums. */
  lemma {:induction false} SumPointwise<T>(f: T -> int, g: T -> int, s: seq<T>)
    requires forall k :: 0 <= k < |s| ==> f(s[k]) <= g(s[k])
    ensures Sum(f, s) <= Sum(g, s)
  {
    if s != [] {
      SumPointwise(f, g, s[1..]);
    }
  }

  /** Equal shares make a product. */
  lemma {:induction false} SumConstant<T>(f: T -> int, s: seq<T>, c: int)
    requires forall k :: 0 <= k < |s| ==> f(s[k]) == c
    ensures Sum(f, s) == |s| * c
  {
    if s != [] {
      SumConstant(f, s[1..], c);
    }
  }
}
