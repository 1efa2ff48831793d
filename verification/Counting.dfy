/** Sums over the threads of a system, and how one thread's step changes them. */
module Counting {

  /** Sum of f over the elements of s. */
  ghost function Sum<T>(s: seq<T>, f: T -> nat): nat
  {
    if s == [] then 0 else f(s[0]) + Sum(s[1..], f)
  }

  /** Changing one element moves the sum by the difference at that element. */
  lemma {:induction false} SumUpdate<T>(s: seq<T>, i: nat, x: T, f: T -> nat)
    requires i < |s|
    ensures Sum(s[i := x], f) + f(s[i]) == Sum(s, f) + f(x)
  {
    if i == 0 {
      assert s[i := x][1..] == s[1..];
    } else {
      assert s[i := x][1..] == s[1..][i - 1 := x];
      SumUpdate(s[1..], i - 1, x, f);
    }
  }

  /** No element exceeds the sum. */
  lemma {:induction false} SumAtLeast<T>(s: seq<T>, i: nat, f: T -> nat)
    requires i < |s|
    ensures f(s[i]) <= Sum(s, f)
  {
    if i == 0 {
    } else {
      assert s[i] == s[1..][i - 1];
      SumAtLeast(s[1..], i - 1, f);
    }
  }

  /** A sum of zeros and ones is at most the length, and less if there is a zero. */
  lemma {:induction false} SumAtMostLength<T>(s: seq<T>, f: T -> nat)
    requires forall i :: 0 <= i < |s| ==> f(s[i]) <= 1
    ensures Sum(s, f) <= |s|
    ensures (exists i :: 0 <= i < |s| && f(s[i]) == 0) <==> Sum(s, f) < |s|
  {
    if s == [] {
    } else {
      forall i | 0 <= i < |s[1..]| ensures f(s[1..][i]) <= 1 {
        assert s[1..][i] == s[i + 1];
      }
      SumAtMostLength(s[1..], f);
      if i :| 0 <= i < |s| && f(s[i]) == 0 {
        assert i > 0 ==> s[1..][i - 1] == s[i];
      }
      if Sum(s, f) < |s| && f(s[0]) == 1 {
        var j :| 0 <= j < |s[1..]| && f(s[1..][j]) == 0;
        assert s[j + 1] == s[1..][j];
      }
    }
  }

  /** A positive sum has a positive element. */
  lemma {:induction false} SumWitness<T>(s: seq<T>, f: T -> nat) returns (i: nat)
    requires Sum(s, f) > 0
    ensures i < |s| && f(s[i]) > 0
  {
    if f(s[0]) > 0 {
      i := 0;
    } else {
      var j := SumWitness(s[1..], f);
      i := j + 1;
    }
  }

  /** A sum of zeros is zero. */
  lemma {:induction false} SumZero<T>(s: seq<T>, f: T -> nat)
    requires forall i :: 0 <= i < |s| ==> f(s[i]) == 0
    ensures Sum(s, f) == 0
  {
    if s == [] {
    } else {
      assert f(s[0]) == 0;
      forall i | 0 <= i < |s[1..]| ensures f(s[1..][i]) == 0 {
        assert s[1..][i] == s[i + 1];
      }
      SumZero(s[1..], f);
    }
  }
}
