/** Sums over a sequence, used to tie counters to populations of threads. */
module Sums {

  function Sum<T>(s: seq<T>, f: T -> nat): (n: nat)
  {
    if s == [] then 0 else f(s[0]) + Sum(s[1..], f)
  }

  lemma {:induction false} SumUpdate<T>(s: seq<T>, i: nat, x: T, f: T -> nat)
    requires i < |s|
    ensures Sum(s[i := x], f) + f(s[i]) == Sum(s, f) + f(x)
  {
    var t := s[i := x];
    if i == 0 {
      assert t[1..] == s[1..];
    } else {
      SumUpdate(s[1..], i - 1, x, f);
      assert t[1..] == s[1..][i - 1 := x];
    }
  }

  lemma {:induction false} SumAgree<T>(s: seq<T>, t: seq<T>, f: T -> nat)
    requires |s| == |t|
    requires forall i :: 0 <= i < |s| ==> f(s[i]) == f(t[i])
    ensures Sum(s, f) == Sum(t, f)
  {
    if s != [] {
      assert f(s[0]) == f(t[0]);
      forall i | 0 <= i < |s[1..]| ensures f(s[1..][i]) == f(t[1..][i]) {
        assert s[1..][i] == s[i + 1] && t[1..][i] == t[i + 1];
      }
      SumAgree(s[1..], t[1..], f);
    }
  }

  lemma {:induction false} SumBound<T>(s: seq<T>, f: T -> nat, m: nat)
    requires forall i :: 0 <= i < |s| ==> f(s[i]) <= m
    ensures Sum(s, f) <= m * |s|
  {
    if s != [] {
      forall i | 0 <= i < |s[1..]| ensures f(s[1..][i]) <= m {
        assert s[1..][i] == s[i + 1];
      }
      SumBound(s[1..], f, m);
      assert m * |s| == m * |s[1..]| + m;
      assert f(s[0]) <= m;
    }
  }

  lemma {:induction false} SumMember<T>(s: seq<T>, i: nat, f: T -> nat)
    requires i < |s|
    ensures f(s[i]) <= Sum(s, f)
  {
    if i > 0 {
      SumMember(s[1..], i - 1, f);
    }
  }

  lemma {:induction false} SumTwoMembers<T>(s: seq<T>, i: nat, j: nat, f: T -> nat)
    requires i < j < |s|
    ensures f(s[i]) + f(s[j]) <= Sum(s, f)
  {
    if i == 0 {
      SumMember(s[1..], j - 1, f);
    } else {
      SumTwoMembers(s[1..], i - 1, j - 1, f);
    }
  }

  /** A positive sum has a positive summand. */
  lemma {:induction false} SumPositive<T>(s: seq<T>, f: T -> nat) returns (i: nat)
    requires Sum(s, f) > 0
    ensures i < |s| && f(s[i]) > 0
  {
    if f(s[0]) > 0 {
      i := 0;
    } else {
      var j := SumPositive(s[1..], f);
      i := j + 1;
    }
  }

  lemma {:induction false} SumConstant<T>(s: seq<T>, f: T -> nat, m: nat)
    requires forall i :: 0 <= i < |s| ==> f(s[i]) == m
    ensures Sum(s, f) == m * |s|
  {
    if s != [] {
      forall i | 0 <= i < |s[1..]| ensures f(s[1..][i]) == m {
        assert s[1..][i] == s[i + 1];
      }
      SumConstant(s[1..], f, m);
      assert m * |s| == m * |s[1..]| + m;
      assert f(s[0]) == m;
    }
  }

  lemma {:induction false} MulStep(a: nat, b: nat, n: nat)
    requires a < b
    ensures a * n + n <= b * n
    decreases b - a
  {
    if a + 1 < b {
      MulStep(a, b - 1, n);
      assert (b - 1) * n + n == b * n;
    } else {
      assert b * n == a * n + n;
    }
  }

  lemma {:induction false} SumOrder<T>(s: seq<T>, f: T -> nat, g: T -> nat)
    requires forall i :: 0 <= i < |s| ==> f(s[i]) <= g(s[i])
    ensures Sum(s, f) <= Sum(s, g)
  {
    if s != [] {
      forall i | 0 <= i < |s[1..]| ensures f(s[1..][i]) <= g(s[1..][i]) {
        assert s[1..][i] == s[i + 1];
      }
      SumOrder(s[1..], f, g);
      assert f(s[0]) <= g(s[0]);
    }
  }

  /** Two quantities, the first weighing more than the second can ever be. */
  lemma Lexicographic(o': nat, o: nat, a': nat, a: nat, n: nat)
    requires a' <= n
    requires o' < o || (o' == o && a' < a)
    ensures o' * (n + 1) + a' < o * (n + 1) + a
  {
    if o' < o {
      MulStep(o', o, n + 1);
    }
  }
}
