/** Counting the elements of a sequence that satisfy a predicate. The machines below keep
    one entry per goroutine and express what the goroutines hold together as such counts. */
module Counting {
  function Count<T>(s: seq<T>, p: T -> bool): (n: nat)
    ensures n <= |s|
  {
    if s == [] then 0 else (if p(s[0]) then 1 else 0) + Count(s[1..], p)
  }

  lemma {:induction false} CountUpdate<T>(s: seq<T>, i: nat, x: T, p: T -> bool)
    requires i < |s|
    ensures Count(s[i := x], p) == Count(s, p) - (if p(s[i]) then 1 else 0) + (if p(x) then 1 else 0)
  {
    if i == 0 {
      assert s[0 := x][1..] == s[1..];
    } else {
      assert s[i := x][1..] == s[1..][i - 1 := x];
      CountUpdate(s[1..], i - 1, x, p);
    }
  }

  /** One element that satisfies p but not q makes the inclusion strict. */
  lemma {:induction false} CountMono<T>(s: seq<T>, p: T -> bool, q: T -> bool)
    requires forall x :: x in s && p(x) ==> q(x)
    ensures Count(s, p) <= Count(s, q)
    ensures (exists x :: x in s && q(x) && !p(x)) ==> Count(s, p) < Count(s, q)
  {
    if s != [] {
      assert forall x :: x in s[1..] ==> x in s;
      CountMono(s[1..], p, q);
      if x :| x in s && q(x) && !p(x) {
        assert s == [s[0]] + s[1..];
      }
    }
  }

  lemma {:induction false} CountZero<T>(s: seq<T>, p: T -> bool)
    ensures Count(s, p) == 0 <==> forall x :: x in s ==> !p(x)
  {
    if s != [] {
      assert s == [s[0]] + s[1..];
      CountZero(s[1..], p);
    }
  }

  lemma {:induction false} CountAppend<T>(s: seq<T>, t: seq<T>, p: T -> bool)
    ensures Count(s + t, p) == Count(s, p) + Count(t, p)
  {
    if s == [] {
      assert s + t == t;
    } else {
      assert (s + t)[1..] == s[1..] + t;
      CountAppend(s[1..], t, p);
    }
  }

  function Sum<T>(s: seq<T>, f: T -> nat): nat {
    if s == [] then 0 else f(s[0]) + Sum(s[1..], f)
  }

  lemma {:induction false} SumUpdate<T>(s: seq<T>, i: nat, x: T, f: T -> nat)
    requires i < |s|
    ensures Sum(s[i := x], f) == Sum(s, f) - f(s[i]) + f(x)
  {
    if i == 0 {
      assert s[0 := x][1..] == s[1..];
    } else {
      assert s[i := x][1..] == s[1..][i - 1 := x];
      SumUpdate(s[1..], i - 1, x, f);
    }
  }

  lemma {:induction false} SumBound<T>(s: seq<T>, f: T -> nat, m: nat)
    requires forall x :: x in s ==> f(x) <= m
    ensures Sum(s, f) <= m * |s|
  {
    if s != [] {
      assert s[0] in s && forall x :: x in s[1..] ==> x in s;
      SumBound(s[1..], f, m);
      assert |s| == |s[1..]| + 1;
      assert m * (|s[1..]| + 1) == m * |s[1..]| + m;
    }
  }

  lemma {:induction false} SumCount<T>(s: seq<T>, f: T -> nat, p: T -> bool)
    requires forall x :: x in s ==> f(x) <= if p(x) then 1 else 0
    ensures Sum(s, f) <= Count(s, p)
  {
    if s != [] {
      assert s[0] in s && forall x :: x in s[1..] ==> x in s;
      SumCount(s[1..], f, p);
    }
  }
}
