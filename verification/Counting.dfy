/** How many elements of a sequence satisfy a predicate, with the laws the
    conservation arguments need. */
module Counting {

  function Count<T>(s: seq<T>, p: T -> bool): nat {
    if s == [] then 0 else (if p(s[0]) then 1 else 0) + Count(s[1..], p)
  }

  lemma {:induction false} CountAppend<T>(a: seq<T>, b: seq<T>, p: T -> bool)
    ensures Count(a + b, p) == Count(a, p) + Count(b, p)
  {
    if a == [] {
      assert a + b == b;
    } else {
      assert (a + b)[1..] == a[1..] + b;
      CountAppend(a[1..], b, p);
    }
  }

  /** Taking one element out lowers the count by that element's share. */
  lemma CountRemove<T>(s: seq<T>, i: nat, p: T -> bool)
    requires i < |s|
    ensures Count(s, p) == Count(s[..i] + s[i+1..], p) + if p(s[i]) then 1 else 0
  {
    assert s == s[..i] + ([s[i]] + s[i+1..]);
    CountAppend(s[..i], [s[i]] + s[i+1..], p);
    CountAppend(s[..i], s[i+1..], p);
  }

  lemma {:induction false} CountNone<T>(s: seq<T>, p: T -> bool)
    requires forall x :: x in s ==> !p(x)
    ensures Count(s, p) == 0
  {
    if s == [] {
    } else {
      assert s[0] in s;
      CountNone(s[1..], p);
    }
  }

  lemma {:induction false} CountPositive<T>(s: seq<T>, p: T -> bool)
    requires Count(s, p) > 0
    ensures exists x :: x in s && p(x)
  {
    if s != [] && !p(s[0]) {
      CountPositive(s[1..], p);
    }
  }

  lemma {:induction false} CountIn<T>(s: seq<T>, p: T -> bool, x: T)
    requires p(x)
    ensures x in s ==> Count(s, p) > 0
  {
    if s == [] {
    } else {
      CountIn(s[1..], p, x);
    }
  }
}
