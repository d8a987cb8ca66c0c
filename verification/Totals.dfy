/** Sums of a natural weight over a sequence: how the pool's counters are compared
    with the phases its threads are in. */
module Totals {

  function Total<T>(s: seq<T>, f: T -> nat): nat {
    if s == [] then 0 else Total(s[..|s| - 1], f) + f(s[|s| - 1])
  }

  lemma {:induction false} TotalAppend<T>(s: seq<T>, t: seq<T>, f: T -> nat)
    ensures Total(s + t, f) == Total(s, f) + Total(t, f)
  {
    if t == [] {
      assert s + t == s;
    } else {
      assert (s + t)[..|s + t| - 1] == s + t[..|t| - 1];
      TotalAppend(s, t[..|t| - 1], f);
    }
  }

  lemma {:induction false} TotalUpdate<T>(s: seq<T>, i: nat, x: T, f: T -> nat)
    requires i < |s|
    ensures Total(s[i := x], f) == Total(s, f) - f(s[i]) + f(x)
  {
    if i == |s| - 1 {
      assert s[i := x][..|s| - 1] == s[..|s| - 1];
    } else {
      assert s[i := x][..|s| - 1] == s[..|s| - 1][i := x];
      TotalUpdate(s[..|s| - 1], i, x, f);
    }
  }

  /** A weight below another at every element has the smaller sum. */
  lemma {:induction false} TotalMono<T>(s: seq<T>, f: T -> nat, g: T -> nat)
    requires forall i :: 0 <= i < |s| ==> f(s[i]) <= g(s[i])
    ensures Total(s, f) <= Total(s, g)
  {
    if s != [] {
      TotalMono(s[..|s| - 1], f, g);
    }
  }

  lemma {:induction false} TotalZero<T>(s: seq<T>, f: T -> nat)
    ensures Total(s, f) == 0 <==> forall i :: 0 <= i < |s| ==> f(s[i]) == 0
  {
    if s != [] {
      var t := s[..|s| - 1];
      TotalZero(t, f);
      assert forall i :: 0 <= i < |t| ==> t[i] == s[i];
      if Total(s, f) == 0 {
        forall i | 0 <= i < |s| ensures f(s[i]) == 0 {
          if i < |t| { assert t[i] == s[i]; }
        }
      }
    }
  }

  lemma TotalWitness<T>(s: seq<T>, f: T -> nat) returns (i: nat)
    requires Total(s, f) > 0
    ensures i < |s| && f(s[i]) > 0
  {
    TotalZero(s, f);
    i :| 0 <= i < |s| && f(s[i]) != 0;
  }

  lemma {:induction false} TotalAtLeast<T>(s: seq<T>, f: T -> nat, i: nat)
    requires i < |s|
    ensures Total(s, f) >= f(s[i])
  {
    if i < |s| - 1 {
      assert s[..|s| - 1][i] == s[i];
      TotalAtLeast(s[..|s| - 1], f, i);
    }
  }

  /** Additive in the weight. */
  lemma {:induction false} TotalSum<T>(s: seq<T>, f: T -> nat, g: T -> nat, h: T -> nat)
    requires forall i :: 0 <= i < |s| ==> f(s[i]) == g(s[i]) + h(s[i])
    ensures Total(s, f) == Total(s, g) + Total(s, h)
  {
    if s != [] {
      TotalSum(s[..|s| - 1], f, g, h);
    }
  }

  /** a copies of the weight k. */
  function Times(a: nat, k: nat): nat { if a == 0 then 0 else Times(a - 1, k) + k }

  lemma {:induction false} TimesMono(a: nat, b: nat, k: nat)
    requires a <= b
    ensures Times(a, k) <= Times(b, k)
    ensures a < b ==> Times(a, k) + k <= Times(b, k)
  {
    if a < b {
      TimesMono(a, b - 1, k);
    }
  }
}
