/** Sorted and duplicate-free lists of model names. */
module ModelNames {

  /** One combination of models declared able to run together. */
  datatype ExpandedSet = ExpandedSet(name: string, dsl: string, models: seq<string>)

  // ----- The order on names -----

  /** Dictionary order by code points. */
  predicate Less(a: string, b: string) {
    b != "" && (a == "" || a[0] < b[0] || (a[0] == b[0] && Less(a[1..], b[1..])))
  }

  lemma {:induction false} LessTotal(a: string, b: string)
    ensures a == b || Less(a, b) || Less(b, a)
    ensures !(Less(a, b) && Less(b, a)) && !Less(a, a)
  {
    if a != "" && b != "" && a[0] == b[0] {
      LessTotal(a[1..], b[1..]);
      assert a == [a[0]] + a[1..] && b == [b[0]] + b[1..];
    }
    if a != "" {
      LessTotal(a[1..], a[1..]);
    }
  }

  lemma {:induction false} LessTransitive(a: string, b: string, c: string)
    requires Less(a, b) && Less(b, c)
    ensures Less(a, c)
  {
    if a != "" && a[0] == b[0] == c[0] {
      LessTransitive(a[1..], b[1..], c[1..]);
    }
  }

  // ----- Sorting -----

  function Insert(x: string, s: seq<string>): seq<string> {
    if s == [] || !Less(s[0], x) then [x] + s else [s[0]] + Insert(x, s[1..])
  }

  function Sort(s: seq<string>): seq<string> {
    if s == [] then [] else Insert(s[0], Sort(s[1..]))
  }

  ghost predicate Sorted(s: seq<string>) {
    forall i, j :: 0 <= i < j < |s| ==> !Less(s[j], s[i])
  }

  lemma {:induction false} InsertSorts(x: string, s: seq<string>)
    requires Sorted(s)
    ensures Sorted(Insert(x, s)) && multiset(Insert(x, s)) == multiset(s) + multiset{x}
  {
    if s == [] || !Less(s[0], x) {
      forall j | 0 <= j < |s| ensures !Less(s[j], x) {
        if Less(s[j], x) {
          LessTotal(s[0], s[j]);
          if s[0] != s[j] {
            LessTransitive(s[0], s[j], x);
          }
        }
      }
    } else {
      InsertSorts(x, s[1..]);
      assert s == [s[0]] + s[1..];
      var tail := Insert(x, s[1..]);
      forall j | 0 <= j < |tail| ensures !Less(tail[j], s[0]) {
        assert tail[j] in multiset(tail);
        LessTotal(s[0], x);
        if tail[j] != x {
          assert tail[j] in s[1..];
        }
      }
    }
  }

  /** Sorting permutes its argument into order. */
  lemma {:induction false} SortSorts(s: seq<string>)
    ensures Sorted(Sort(s)) && multiset(Sort(s)) == multiset(s)
  {
    if s == [] {
    } else {
      SortSorts(s[1..]);
      InsertSorts(s[0], Sort(s[1..]));
      assert s == [s[0]] + s[1..];
    }
  }

  // ----- Duplicates -----

  /** The first occurrence of each name. */
  function Distinct(s: seq<string>): seq<string> {
    if s == [] then []
    else
      var front := Distinct(s[..|s| - 1]);
      if s[|s| - 1] in front then front else front + [s[|s| - 1]]
  }

  ghost predicate NoRepeats(s: seq<string>) {
    forall i, j :: 0 <= i < j < |s| ==> s[i] != s[j]
  }

  lemma {:induction false} DistinctKeepsNames(s: seq<string>)
    ensures NoRepeats(Distinct(s)) && forall x :: x in Distinct(s) <==> x in s
  {
    if s == [] {
    } else {
      DistinctKeepsNames(s[..|s| - 1]);
      assert s == s[..|s| - 1] + [s[|s| - 1]];
    }
  }

  /** A combination's canonical form: sorted, without repeats. */
  function Canonical(s: seq<string>): seq<string> {
    Sort(Distinct(s))
  }

  method DedupAndSort(items: seq<string>) returns (r: seq<string>)
    ensures r == Canonical(items)
  {
    var seen: set<string> := {};
    var unique: seq<string> := [];
    for i := 0 to |items|
      invariant unique == Distinct(items[..i])
      invariant forall x :: x in seen <==> x in unique
    {
      assert items[..i + 1][..i] == items[..i];
      if items[i] !in seen {
        seen := seen + {items[i]};
        unique := unique + [items[i]];
      }
    }
    assert items[..|items|] == items;
    r := Sort(unique);
  }

  ghost predicate StrictlySorted(s: seq<string>) {
    forall i, j :: 0 <= i < j < |s| ==> Less(s[i], s[j])
  }

  lemma SortedNoRepeats(s: seq<string>, t: seq<string>)
    requires NoRepeats(s) && Sorted(t) && multiset(t) == multiset(s)
    ensures StrictlySorted(t)
  {
    forall i, j | 0 <= i < j < |t| ensures Less(t[i], t[j]) {
      LessTotal(t[i], t[j]);
      if t[i] == t[j] {
        SeenTwice(t, i, j);
        OnceOnly(s, t[i]);
      }
    }
  }

  lemma SeenTwice(t: seq<string>, i: nat, j: nat)
    requires i < j < |t| && t[i] == t[j]
    ensures multiset(t)[t[i]] >= 2
  {
    assert t == t[..i] + ([t[i]] + (t[i + 1..j] + ([t[j]] + t[j + 1..])));
  }

  lemma {:induction false} OnceOnly(s: seq<string>, x: string)
    requires NoRepeats(s)
    ensures multiset(s)[x] <= 1
  {
    if s == [] {
    } else {
      OnceOnly(s[1..], x);
      assert s == [s[0]] + s[1..];
      if s[0] == x {
        assert x !in s[1..];
        assert multiset(s[1..])[x] == 0;
      }
    }
  }

  /** The canonical form is strictly increasing and keeps the set of models. */
  lemma CanonicalForm(s: seq<string>)
    ensures StrictlySorted(Canonical(s)) && forall x :: x in Canonical(s) <==> x in s
  {
    DistinctKeepsNames(s);
    SortSorts(Distinct(s));
    SortedNoRepeats(Distinct(s), Canonical(s));
    forall x ensures x in Canonical(s) <==> x in s {
      assert x in Canonical(s) <==> x in multiset(Canonical(s));
      assert x in Distinct(s) <==> x in multiset(Distinct(s));
    }
  }

  lemma NotInTail(s: seq<string>)
    requires StrictlySorted(s) && s != []
    ensures s[0] !in s[1..]
  {
    LessTotal(s[0], s[0]);
  }

  lemma {:induction false} StrictlySortedUnique(s: seq<string>, t: seq<string>)
    requires StrictlySorted(s) && StrictlySorted(t) && forall x :: x in s <==> x in t
    ensures s == t
  {
    assert t != [] ==> t[0] in t && t[0] in s;
    if s != [] {
      assert s[0] in s && s[0] in t;
      LessTotal(s[0], t[0]);
      assert s[0] == t[0];
      forall x ensures x in s[1..] <==> x in t[1..] {
        NotInTail(s);
        NotInTail(t);
        assert s == [s[0]] + s[1..] && t == [t[0]] + t[1..];
        assert x in s <==> x == s[0] || x in s[1..];
        assert x in t <==> x == t[0] || x in t[1..];
        assert x in s <==> x in t;
      }
      StrictlySortedUnique(s[1..], t[1..]);
      assert s == [s[0]] + s[1..] && t == [t[0]] + t[1..];
    }
  }

  /** Two combinations have the same canonical form exactly when they hold the
      same models. */
  lemma CanonicalEqual(s: seq<string>, t: seq<string>)
    ensures Canonical(s) == Canonical(t) <==> forall x :: x in s <==> x in t
  {
    CanonicalForm(s);
    CanonicalForm(t);
    if forall x :: x in s <==> x in t {
      StrictlySortedUnique(Canonical(s), Canonical(t));
    }
  }
}
