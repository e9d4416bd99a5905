/** Finite sums of integer weights over sequences and sets. */
module Sums {

  ghost function Sum<T>(w: T -> int, s: seq<T>): int {
    if s == [] then 0 else Sum(w, s[..|s| - 1]) + w(s[|s| - 1])
  }

  lemma {:induction false} SumAppend<T>(w: T -> int, s: seq<T>, t: seq<T>)
    ensures Sum(w, s + t) == Sum(w, s) + Sum(w, t)
  {
    if t == [] {
      assert s + t == s;
    } else {
      var k := |t| - 1;
      assert (s + t)[..|s + t| - 1] == s + t[..k];
      SumAppend(w, s, t[..k]);
    }
  }

  /** A weight that is everywhere the sum of two others sums to the sum of their sums. */
  lemma {:induction false} SumLinear<T>(f: T -> int, g: T -> int, h: T -> int, s: seq<T>)
    requires forall x <- s :: f(x) == g(x) + h(x)
    ensures Sum(f, s) == Sum(g, s) + Sum(h, s)
  {
    if s != [] {
      assert s[|s| - 1] in s;
      SumLinear(f, g, h, s[..|s| - 1]);
    }
  }

  lemma {:induction false} SumEqual<T>(f: T -> int, g: T -> int, s: seq<T>)
    requires forall x <- s :: f(x) == g(x)
    ensures Sum(f, s) == Sum(g, s)
  {
    if s != [] {
      assert s[|s| - 1] in s;
      SumEqual(f, g, s[..|s| - 1]);
    }
  }

  lemma {:induction false} SumZero<T>(f: T -> int, s: seq<T>)
    requires forall x <- s :: f(x) == 0
    ensures Sum(f, s) == 0
  {
    if s != [] {
      assert s[|s| - 1] in s;
      SumZero(f, s[..|s| - 1]);
    }
  }

  /** A sum above zero has a term above zero. */
  lemma {:induction false} SumHasPositive<T>(f: T -> int, s: seq<T>) returns (k: nat)
    requires Sum(f, s) > 0
    ensures k < |s| && f(s[k]) > 0
  {
    var n := |s| - 1;
    if f(s[n]) > 0 {
      k := n;
    } else {
      k := SumHasPositive(f, s[..n]);
    }
  }

  lemma {:induction false} SumHasNegative<T>(f: T -> int, s: seq<T>) returns (k: nat)
    requires Sum(f, s) < 0
    ensures k < |s| && f(s[k]) < 0
  {
    var n := |s| - 1;
    if f(s[n]) < 0 {
      k := n;
    } else {
      k := SumHasNegative(f, s[..n]);
    }
  }

  /** With no term above zero, a sum is at most any one of its terms. */
  lemma {:induction false} SumAtMostTerm<T>(f: T -> int, s: seq<T>, k: nat)
    requires k < |s| && forall i :: 0 <= i < |s| ==> f(s[i]) <= 0
    ensures Sum(f, s) <= f(s[k])
  {
    var front := s[..|s| - 1];
    if front == [] {
    } else if k < |front| {
      SumAtMostTerm(f, front, k);
    } else {
      SumAtMostTerm(f, front, 0);
    }
  }

  /** The element a set sum takes out first. */
  ghost function Pick<T>(s: set<T>): (x: T)
    requires s != {}
    ensures x in s
  {
    var x :| x in s; x
  }

  ghost function SetSum<T>(w: T -> int, s: set<T>): int {
    if s == {} then 0 else var x := Pick(s); w(x) + SetSum(w, s - {x})
  }

  /** The order in which a set sum takes its elements does not matter. */
  lemma {:induction false} SetSumRemove<T>(w: T -> int, s: set<T>, x: T)
    requires x in s
    ensures SetSum(w, s) == w(x) + SetSum(w, s - {x})
    decreases |s|
  {
    var y := Pick(s);
    if x != y {
      SetSumRemove(w, s - {y}, x);
      SetSumRemove(w, s - {x}, y);
      assert s - {y} - {x} == s - {x} - {y};
    }
  }

  lemma {:induction false} SetSumAdd<T>(w: T -> int, s: set<T>, x: T)
    requires x !in s
    ensures SetSum(w, s + {x}) == SetSum(w, s) + w(x)
  {
    SetSumRemove(w, s + {x}, x);
    assert s + {x} - {x} == s;
  }

  lemma {:induction false} SetSumZero<T>(w: T -> int, s: set<T>)
    requires forall x <- s :: w(x) == 0
    ensures SetSum(w, s) == 0
    decreases |s|
  {
    if s != {} {
      SetSumZero(w, s - {Pick(s)});
    }
  }

  lemma {:induction false} SetSumEqual<T>(f: T -> int, g: T -> int, s: set<T>)
    requires forall x <- s :: f(x) == g(x)
    ensures SetSum(f, s) == SetSum(g, s)
    decreases |s|
  {
    if s != {} {
      SetSumEqual(f, g, s - {Pick(s)});
    }
  }

  /** Set sums over disjoint sets add up. */
  lemma {:induction false} SetSumUnion<T>(w: T -> int, s: set<T>, t: set<T>)
    requires s !! t
    ensures SetSum(w, s + t) == SetSum(w, s) + SetSum(w, t)
    decreases |t|
  {
    if t == {} {
      assert s + t == s;
    } else {
      var x := Pick(t);
      SetSumUnion(w, s, t - {x});
      SetSumAdd(w, s + (t - {x}), x);
      assert s + (t - {x}) + {x} == s + t;
    }
  }

  lemma MultisetOfSetRemove<T>(t: set<T>, x: T)
    requires x in t
    ensures multiset(t - {x}) == multiset(t) - multiset{x}
    ensures multiset(t) == multiset(t - {x}) + multiset{x}
  {
  }

  /** Listing a set once each, in any order, gives its set sum. */
  lemma {:induction false} SumOfListing<T>(w: T -> int, s: seq<T>, t: set<T>)
    requires multiset(s) == multiset(t)
    ensures Sum(w, s) == SetSum(w, t)
  {
    if s == [] {
      assert forall x :: x in t ==> x in multiset(t);
      assert t == {};
    } else {
      var n := |s| - 1;
      var x := s[n];
      assert s == s[..n] + [x];
      assert multiset(s)[x] > 0;
      assert x in t;
      assert multiset(s[..n]) == multiset(t - {x}) by {
        assert multiset(s) == multiset(s[..n]) + multiset{x};
        MultisetOfSetRemove(t, x);
        assert multiset(s) - multiset{x} == multiset(s[..n]);
      }
      SumOfListing(w, s[..n], t - {x});
      SetSumRemove(w, t, x);
    }
  }
}
