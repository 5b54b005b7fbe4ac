/** Counting the elements of a sequence that satisfy a predicate, and summing over them. */
module Counting {

  function Count<T>(s: seq<T>, p: T -> bool): nat {
    if s == [] then 0 else Count(s[..|s| - 1], p) + if p(s[|s| - 1]) then 1 else 0
  }

  function Bit(b: bool): nat {
    if b then 1 else 0
  }

  lemma CountAppend<T>(s: seq<T>, x: T, p: T -> bool)
    ensures Count(s + [x], p) == Count(s, p) + Bit(p(x))
  {
    assert (s + [x])[..|s|] == s;
  }

  lemma {:induction false} CountTail<T>(s: seq<T>, p: T -> bool)
    requires s != []
    ensures Count(s, p) == Bit(p(s[0])) + Count(s[1..], p)
  {
    if |s| > 1 {
      var t := s[..|s| - 1];
      CountTail(t, p);
      assert t[1..] == s[1..][..|s| - 2];
    }
  }

  lemma {:induction false} CountUpdate<T>(s: seq<T>, i: nat, x: T, p: T -> bool)
    requires i < |s|
    ensures Count(s[i := x], p) + Bit(p(s[i])) == Count(s, p) + Bit(p(x))
  {
    var t := s[..|s| - 1];
    if i == |s| - 1 {
      assert s[i := x][..|s| - 1] == t;
    } else {
      CountUpdate(t, i, x, p);
      assert s[i := x][..|s| - 1] == t[i := x];
    }
  }

  lemma {:induction false} CountBound<T>(s: seq<T>, p: T -> bool)
    ensures Count(s, p) <= |s|
  {
    if s != [] {
      CountBound(s[..|s| - 1], p);
    }
  }

  /** A satisfied element counts. */
  lemma {:induction false} CountMember<T>(s: seq<T>, i: nat, p: T -> bool)
    requires i < |s| && p(s[i])
    ensures Count(s, p) > 0
  {
    if i < |s| - 1 {
      CountMember(s[..|s| - 1], i, p);
    }
  }

  /** All elements are counted only if all satisfy the predicate. */
  lemma {:induction false} CountAll<T>(s: seq<T>, i: nat, p: T -> bool)
    requires i < |s| && Count(s, p) == |s|
    ensures p(s[i])
  {
    CountBound(s[..|s| - 1], p);
    if i < |s| - 1 {
      CountAll(s[..|s| - 1], i, p);
    }
  }

  /** If no element satisfies the predicate the count is zero. */
  lemma {:induction false} CountNone<T>(s: seq<T>, p: T -> bool)
    requires forall i :: 0 <= i < |s| ==> !p(s[i])
    ensures Count(s, p) == 0
  {
    if s != [] {
      CountNone(s[..|s| - 1], p);
    }
  }

  lemma {:induction false} CountFull<T>(s: seq<T>, p: T -> bool)
    requires forall i :: 0 <= i < |s| ==> p(s[i])
    ensures Count(s, p) == |s|
  {
    if s != [] {
      CountFull(s[..|s| - 1], p);
    }
  }

  function Sum<T>(s: seq<T>, f: T -> nat): nat {
    if s == [] then 0 else Sum(s[..|s| - 1], f) + f(s[|s| - 1])
  }

  lemma SumAppend<T>(s: seq<T>, x: T, f: T -> nat)
    ensures Sum(s + [x], f) == Sum(s, f) + f(x)
  {
    assert (s + [x])[..|s|] == s;
  }

  lemma {:induction false} SumTail<T>(s: seq<T>, f: T -> nat)
    requires s != []
    ensures Sum(s, f) == f(s[0]) + Sum(s[1..], f)
  {
    if |s| > 1 {
      var t := s[..|s| - 1];
      SumTail(t, f);
      assert t[1..] == s[1..][..|s| - 2];
    }
  }

  lemma {:induction false} SumUpdate<T>(s: seq<T>, i: nat, x: T, f: T -> nat)
    requires i < |s|
    ensures Sum(s[i := x], f) + f(s[i]) == Sum(s, f) + f(x)
  {
    var t := s[..|s| - 1];
    if i == |s| - 1 {
      assert s[i := x][..|s| - 1] == t;
    } else {
      SumUpdate(t, i, x, f);
      assert s[i := x][..|s| - 1] == t[i := x];
    }
  }

  /** One term bounds the sum from below. */
  lemma {:induction false} SumMember<T>(s: seq<T>, i: nat, f: T -> nat)
    requires i < |s|
    ensures f(s[i]) <= Sum(s, f)
  {
    if i < |s| - 1 {
      SumMember(s[..|s| - 1], i, f);
    }
  }

  lemma {:induction false} SumZero<T>(s: seq<T>, f: T -> nat)
    requires forall i :: 0 <= i < |s| ==> f(s[i]) == 0
    ensures Sum(s, f) == 0
  {
    if s != [] {
      SumZero(s[..|s| - 1], f);
    }
  }
}
