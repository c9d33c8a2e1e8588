/** Expansion of a set expression to its combinations of models. */
module DslExpand {
  import opened Wrappers
  import opened DslParser
  import opened DslGrammar

  const MAX_EXPANSIONS := 1000

  type Combo = seq<string>

  type RefTable = map<string, seq<Combo>>

  datatype ExpandError = UnknownRef(setName: string) | TooMany

  // ----- Expansion as functions -----

  function Prefixed(l: Combo, right: seq<Combo>): seq<Combo> {
    if right == [] then [] else [l + right[0]] + Prefixed(l, right[1..])
  }

  function Product(left: seq<Combo>, right: seq<Combo>): seq<Combo> {
    if left == [] then [] else Prefixed(left[0], right) + Product(left[1..], right)
  }

  function Expand(n: Node, refs: RefTable): Result<seq<Combo>, ExpandError>
    decreases n, 1
  {
    match n
    case Leaf(name) => Ok([[name]])
    case Ref(setName) => if setName in refs then Ok(refs[setName]) else Err(UnknownRef(setName))
    case Or(children) => ExpandOr(children, [], refs)
    case And(children) => ExpandAnd(children, [[]], refs)
  }

  /** The union so far and the remaining alternatives. */
  function ExpandOr(cs: seq<Node>, acc: seq<Combo>, refs: RefTable): Result<seq<Combo>, ExpandError>
    decreases cs, 0
  {
    if cs == [] then Ok(acc)
    else
      var c := Expand(cs[0], refs);
      if c.Err? then c
      else if |acc + c.value| > MAX_EXPANSIONS then Err(TooMany)
      else ExpandOr(cs[1..], acc + c.value, refs)
  }

  /** The product so far and the remaining factors. */
  function ExpandAnd(cs: seq<Node>, acc: seq<Combo>, refs: RefTable): Result<seq<Combo>, ExpandError>
    decreases cs, 0
  {
    if cs == [] then Ok(acc)
    else
      var c := Expand(cs[0], refs);
      if c.Err? then c
      else if |acc| * |c.value| > MAX_EXPANSIONS then Err(TooMany)
      else ExpandAnd(cs[1..], Product(acc, c.value), refs)
  }

  // ----- Expansion as it runs -----

  lemma {:induction false} PrefixedLast(l: Combo, right: seq<Combo>, r: Combo)
    ensures Prefixed(l, right + [r]) == Prefixed(l, right) + [l + r]
  {
    if right == [] {
      assert (right + [r])[1..] == [];
    } else {
      assert (right + [r])[1..] == right[1..] + [r];
      PrefixedLast(l, right[1..], r);
    }
  }

  lemma {:induction false} ProductLast(left: seq<Combo>, l: Combo, right: seq<Combo>)
    ensures Product(left + [l], right) == Product(left, right) + Prefixed(l, right)
  {
    if left == [] {
      assert (left + [l])[1..] == [] && Product([], right) == [];
    } else {
      assert (left + [l])[1..] == left[1..] + [l];
      ProductLast(left[1..], l, right);
    }
  }

  method CartesianProduct(left: seq<Combo>, right: seq<Combo>, cap: nat) returns (r: Result<seq<Combo>, ExpandError>)
    ensures r == if |left| * |right| > cap then Err(TooMany) else Ok(Product(left, right))
  {
    if |left| * |right| > cap {
      return Err(TooMany);
    }
    var result: seq<Combo> := [];
    for i := 0 to |left|
      invariant result == Product(left[..i], right)
    {
      ghost var before := result;
      for j := 0 to |right|
        invariant result == before + Prefixed(left[i], right[..j])
      {
        PrefixedLast(left[i], right[..j], right[j]);
        assert right[..j + 1] == right[..j] + [right[j]];
        result := result + [left[i] + right[j]];
      }
      assert right[..|right|] == right && left[..i + 1] == left[..i] + [left[i]];
      ProductLast(left[..i], left[i], right);
    }
    assert left[..|left|] == left;
    return Ok(result);
  }

  method ExpandNode(n: Node, refs: RefTable) returns (r: Result<seq<Combo>, ExpandError>)
    ensures r == Expand(n, refs)
    decreases n
  {
    match n
    case Leaf(name) => return Ok([[name]]);
    case Ref(setName) =>
      if setName !in refs {
        return Err(UnknownRef(setName));
      }
      return Ok(refs[setName]);
    case Or(children) =>
      var result: seq<Combo> := [];
      for i := 0 to |children|
        invariant ExpandOr(children, [], refs) == ExpandOr(children[i..], result, refs)
      {
        assert children[i..][0] == children[i] && children[i..][1..] == children[i + 1..];
        var child := ExpandNode(children[i], refs);
        if child.Err? {
          return child;
        }
        result := result + child.value;
        if |result| > MAX_EXPANSIONS {
          return Err(TooMany);
        }
      }
      return Ok(result);
    case And(children) =>
      var result: seq<Combo> := [[]];
      for i := 0 to |children|
        invariant ExpandAnd(children, [[]], refs) == ExpandAnd(children[i..], result, refs)
      {
        assert children[i..][0] == children[i] && children[i..][1..] == children[i + 1..];
        var child := ExpandNode(children[i], refs);
        if child.Err? {
          return child;
        }
        var product := CartesianProduct(result, child.value, MAX_EXPANSIONS);
        if product.Err? {
          return product;
        }
        result := product.value;
      }
      return Ok(result);
  }

  // ----- What an expression means -----

  /** A leaf means its model, a reference one of the set's combinations, an
      alternative a meaning of one child, a conjunction one meaning of each. */
  ghost predicate Denotes(n: Node, refs: RefTable, combo: Combo)
    decreases n, 1
  {
    match n
    case Leaf(name) => combo == [name]
    case Ref(setName) => setName in refs && combo in refs[setName]
    case Or(children) => exists c :: c in children && Denotes(c, refs, combo)
    case And(children) => DenotesEach(children, refs, combo)
  }

  ghost predicate DenotesEach(cs: seq<Node>, refs: RefTable, combo: Combo)
    decreases cs, 0
  {
    if cs == [] then combo == []
    else exists k :: 0 <= k <= |combo| && Denotes(cs[0], refs, combo[..k]) && DenotesEach(cs[1..], refs, combo[k..])
  }

  /** A sum over alternatives, a product over conjuncts. */
  function Size(n: Node, refs: RefTable): (k: nat)
    decreases n, 1
  {
    match n
    case Leaf(_) => 1
    case Ref(setName) => if setName in refs then |refs[setName]| else 1
    case Or(children) => Sum(children, refs)
    case And(children) => Times(children, refs)
  }

  function Sum(cs: seq<Node>, refs: RefTable): nat
    decreases cs, 0
  {
    if cs == [] then 0 else Size(cs[0], refs) + Sum(cs[1..], refs)
  }

  function Times(cs: seq<Node>, refs: RefTable): nat
    decreases cs, 0
  {
    if cs == [] then 1 else Size(cs[0], refs) * Times(cs[1..], refs)
  }

  ghost predicate Resolved(n: Node, refs: RefTable) {
    match n
    case Leaf(_) => true
    case Ref(setName) => setName in refs
    case Or(children) => forall c :: c in children ==> Resolved(c, refs)
    case And(children) => forall c :: c in children ==> Resolved(c, refs)
  }

  ghost predicate Small(n: Node, refs: RefTable) {
    match n
    case Leaf(_) => true
    case Ref(_) => true
    case Or(children) => Size(n, refs) <= MAX_EXPANSIONS && forall c :: c in children ==> Small(c, refs)
    case And(children) => Size(n, refs) <= MAX_EXPANSIONS && forall c :: c in children ==> Small(c, refs)
  }

  ghost predicate NonEmpty(refs: RefTable) {
    forall s :: s in refs ==> refs[s] != []
  }

  lemma {:induction false} SizePositive(n: Node, refs: RefTable)
    requires Proper(n) && NonEmpty(refs)
    ensures Size(n, refs) >= 1
    decreases n, 1
  {
    match n {
      case Or(cs) => SizePositive(cs[0], refs);
      case And(cs) => TimesPositive(cs, refs);
      case _ =>
    }
  }

  lemma {:induction false} TimesPositive(cs: seq<Node>, refs: RefTable)
    requires NonEmpty(refs) && forall c :: c in cs ==> Proper(c)
    ensures Times(cs, refs) >= 1
    decreases cs, 0
  {
    if cs == [] {
    } else {
      SizePositive(cs[0], refs);
      TimesPositive(cs[1..], refs);
    }
  }

  // ----- Products -----

  lemma {:induction false} PrefixedMeaning(l: Combo, right: seq<Combo>, x: Combo)
    ensures |Prefixed(l, right)| == |right|
    ensures x in Prefixed(l, right) <==> |l| <= |x| && x[..|l|] == l && x[|l|..] in right
  {
    if right != [] {
      PrefixedMeaning(l, right[1..], x);
      assert right == [right[0]] + right[1..];
      assert (l + right[0])[..|l|] == l && (l + right[0])[|l|..] == right[0];
      if |l| <= |x| && x[..|l|] == l {
        assert x == l + x[|l|..];
      }
    } else {
      assert Prefixed(l, right) == [];
    }
  }

  /** x is a member of left followed by a member of right. */
  ghost predicate Joins(left: seq<Combo>, right: seq<Combo>, x: Combo) {
    exists k :: 0 <= k <= |x| && x[..k] in left && x[k..] in right
  }

  lemma {:induction false} ProductMeaning(left: seq<Combo>, right: seq<Combo>, x: Combo)
    ensures |Product(left, right)| == |left| * |right|
    ensures x in Product(left, right) <==> Joins(left, right, x)
  {
    if left == [] {
    } else {
      ProductMeaning(left[1..], right, x);
      PrefixedMeaning(left[0], right, x);
      assert left == [left[0]] + left[1..];
      if Joins(left, right, x) {
        var k :| 0 <= k <= |x| && x[..k] in left && x[k..] in right;
        assert x[..k] in left[1..] || x[..k] == left[0];
      }
    }
  }

  // ----- Expansion is exact -----

  /** For a combination x, what expansion of n must give. */
  ghost predicate Exact(n: Node, refs: RefTable, x: Combo) {
    && (Expand(n, refs).Ok? <==> Resolved(n, refs) && Small(n, refs))
    && (Expand(n, refs).Ok? ==>
          && |Expand(n, refs).value| == Size(n, refs)
          && (x in Expand(n, refs).value <==> Denotes(n, refs, x)))
  }

  ghost predicate AllResolved(cs: seq<Node>, refs: RefTable) {
    forall c :: c in cs ==> Resolved(c, refs) && Small(c, refs)
  }

  ghost predicate DenotesSome(cs: seq<Node>, refs: RefTable, x: Combo) {
    exists c :: c in cs && Denotes(c, refs, x)
  }

  lemma {:induction false} ExpandOrIsExact(cs: seq<Node>, acc: seq<Combo>, refs: RefTable, x: Combo)
    requires NonEmpty(refs) && (forall c :: c in cs ==> Proper(c)) && |acc| <= MAX_EXPANSIONS
    ensures var r := ExpandOr(cs, acc, refs);
      && (r.Ok? <==> AllResolved(cs, refs) && |acc| + Sum(cs, refs) <= MAX_EXPANSIONS)
      && (r.Ok? ==> |r.value| == |acc| + Sum(cs, refs))
      && (r.Ok? ==> (x in r.value <==> x in acc || DenotesSome(cs, refs, x)))
    decreases cs, 0
  {
    if cs == [] {
    } else {
      assert cs == [cs[0]] + cs[1..];
      ExpandsExactly(cs[0], refs, x);
      var c := Expand(cs[0], refs);
      if c.Ok? && |acc + c.value| <= MAX_EXPANSIONS {
        ExpandOrIsExact(cs[1..], acc + c.value, refs, x);
        assert DenotesSome(cs, refs, x) <==> Denotes(cs[0], refs, x) || DenotesSome(cs[1..], refs, x);
      }
    }
  }

  /** What is joined from the product so far and the remaining factors. */
  ghost predicate JoinsEach(acc: seq<Combo>, cs: seq<Node>, refs: RefTable, x: Combo) {
    exists k :: 0 <= k <= |x| && x[..k] in acc && DenotesEach(cs, refs, x[k..])
  }

  lemma Reassociate(a: nat, b: nat, c: nat)
    ensures a * (b * c) == (a * b) * c
  {
  }

  /** The product stays small throughout exactly when it is small at the end. */
  lemma {:induction false} ExpandAndCounts(cs: seq<Node>, acc: seq<Combo>, refs: RefTable)
    requires NonEmpty(refs) && (forall c :: c in cs ==> Proper(c)) && |acc| <= MAX_EXPANSIONS
    ensures var r := ExpandAnd(cs, acc, refs);
      && (r.Ok? <==> AllResolved(cs, refs) && |acc| * Times(cs, refs) <= MAX_EXPANSIONS)
      && (r.Ok? ==> |r.value| == |acc| * Times(cs, refs))
    decreases cs, 0
  {
    if cs == [] {
    } else {
      assert cs == [cs[0]] + cs[1..];
      ExpandsExactly(cs[0], refs, []);
      var c := Expand(cs[0], refs);
      TimesPositive(cs[1..], refs);
      if c.Ok? {
        Reassociate(|acc|, |c.value|, Times(cs[1..], refs));
        if |acc| * |c.value| <= MAX_EXPANSIONS {
          ProductMeaning(acc, c.value, []);
          ExpandAndCounts(cs[1..], Product(acc, c.value), refs);
        }
      }
    }
  }

  lemma JoinsNothing(acc: seq<Combo>, refs: RefTable, x: Combo)
    ensures x in acc <==> JoinsEach(acc, [], refs, x)
  {
    assert x[..|x|] == x && x[|x|..] == [];
    if JoinsEach(acc, [], refs, x) {
      var k :| 0 <= k <= |x| && x[..k] in acc && DenotesEach([], refs, x[k..]);
      assert x[..k] == x;
    }
  }

  lemma {:induction false} ExpandAndMeans(cs: seq<Node>, acc: seq<Combo>, refs: RefTable, x: Combo)
    requires NonEmpty(refs) && (forall c :: c in cs ==> Proper(c)) && ExpandAnd(cs, acc, refs).Ok?
    ensures x in ExpandAnd(cs, acc, refs).value <==> JoinsEach(acc, cs, refs, x)
    decreases cs, 0
  {
    if cs == [] {
      JoinsNothing(acc, refs, x);
    } else {
      assert cs == [cs[0]] + cs[1..];
      var c := Expand(cs[0], refs);
      ExpandAndMeans(cs[1..], Product(acc, c.value), refs, x);
      forall y ensures y in c.value <==> Denotes(cs[0], refs, y) {
        ExpandsExactly(cs[0], refs, y);
      }
      Regroup(cs, acc, c.value, refs, x);
    }
  }

  lemma Slices(x: Combo, j: nat, k: nat)
    requires j <= k <= |x|
    ensures x[..k][..j] == x[..j] && x[..k][j..] == x[j..k]
    ensures x[j..][..k - j] == x[j..k] && x[j..][k - j..] == x[k..]
  {
  }

  /** Joining the first factor's members to acc and then the rest is joining all factors. */
  lemma Regroup(cs: seq<Node>, acc: seq<Combo>, first: seq<Combo>, refs: RefTable, x: Combo)
    requires cs != [] && forall y :: y in first <==> Denotes(cs[0], refs, y)
    ensures JoinsEach(Product(acc, first), cs[1..], refs, x) <==> JoinsEach(acc, cs, refs, x)
  {
    if JoinsEach(Product(acc, first), cs[1..], refs, x) {
      var k :| 0 <= k <= |x| && x[..k] in Product(acc, first) && DenotesEach(cs[1..], refs, x[k..]);
      RegroupRight(cs, acc, first, refs, x, k);
    }
    if JoinsEach(acc, cs, refs, x) {
      var j :| 0 <= j <= |x| && x[..j] in acc && DenotesEach(cs, refs, x[j..]);
      RegroupLeft(cs, acc, first, refs, x, j);
    }
  }

  lemma RegroupLeft(cs: seq<Node>, acc: seq<Combo>, first: seq<Combo>, refs: RefTable, x: Combo, j: nat)
    requires cs != [] && forall y :: y in first <==> Denotes(cs[0], refs, y)
    requires j <= |x| && x[..j] in acc && DenotesEach(cs, refs, x[j..])
    ensures JoinsEach(Product(acc, first), cs[1..], refs, x)
  {
    var d :| 0 <= d <= |x[j..]| && Denotes(cs[0], refs, x[j..][..d]) && DenotesEach(cs[1..], refs, x[j..][d..]);
    var k := j + d;
    Slices(x, j, k);
    ProductMeaning(acc, first, x[..k]);
    assert x[..k][..j] in acc && x[..k][j..] in first;
  }

  lemma RegroupRight(cs: seq<Node>, acc: seq<Combo>, first: seq<Combo>, refs: RefTable, x: Combo, k: nat)
    requires cs != [] && forall y :: y in first <==> Denotes(cs[0], refs, y)
    requires k <= |x| && x[..k] in Product(acc, first) && DenotesEach(cs[1..], refs, x[k..])
    ensures JoinsEach(acc, cs, refs, x)
  {
    ProductMeaning(acc, first, x[..k]);
    var j :| 0 <= j <= |x[..k]| && x[..k][..j] in acc && x[..k][j..] in first;
    Slices(x, j, k);
  }

  lemma JoinsFromNothing(cs: seq<Node>, refs: RefTable, x: Combo)
    ensures JoinsEach([[]], cs, refs, x) <==> DenotesEach(cs, refs, x)
  {
    assert x[..0] == [] && x[0..] == x;
    if JoinsEach([[]], cs, refs, x) {
      var k :| 0 <= k <= |x| && x[..k] in [[]] && DenotesEach(cs, refs, x[k..]);
      assert k == |x[..k]| == 0;
    }
  }

  /** Expansion succeeds exactly when every reference resolves and no and- or
      or-node has more than 1000 combinations; it then returns exactly the
      combinations the expression means, as many as sums and products count. */
  lemma {:induction false} ExpandsExactly(n: Node, refs: RefTable, x: Combo)
    requires NonEmpty(refs) && Proper(n)
    ensures Exact(n, refs, x)
    decreases n, 1
  {
    match n {
      case Leaf(name) =>
      case Ref(setName) =>
      case Or(cs) => ExpandOrIsExact(cs, [], refs, x);
      case And(cs) =>
        ExpandAndCounts(cs, [[]], refs);
        if Expand(n, refs).Ok? {
          ExpandAndMeans(cs, [[]], refs, x);
        }
        JoinsFromNothing(cs, refs, x);
    }
  }

  // ----- The order of the combinations -----

  /** The k-th combination: alternatives one after the other, and of a conjunction
      the first factor turns slowest. */
  ghost function Nth(n: Node, refs: RefTable, k: nat): Combo
    requires NonEmpty(refs) && Proper(n) && Resolved(n, refs) && k < Size(n, refs)
    decreases n, 1
  {
    match n
    case Leaf(name) => [name]
    case Ref(setName) => refs[setName][k]
    case Or(children) => NthOr(children, refs, k)
    case And(children) => NthAnd(children, refs, k)
  }

  ghost predicate Ready(cs: seq<Node>, refs: RefTable) {
    NonEmpty(refs) && forall c :: c in cs ==> Proper(c) && Resolved(c, refs)
  }

  ghost function NthOr(cs: seq<Node>, refs: RefTable, k: nat): Combo
    requires Ready(cs, refs) && k < Sum(cs, refs)
    decreases cs, 0
  {
    if k < Size(cs[0], refs) then Nth(cs[0], refs, k) else NthOr(cs[1..], refs, k - Size(cs[0], refs))
  }

  ghost function NthAnd(cs: seq<Node>, refs: RefTable, k: nat): Combo
    requires Ready(cs, refs) && k < Times(cs, refs)
    decreases cs, 0
  {
    if cs == [] then []
    else
      TimesPositive(cs[1..], refs);
      var rest := Times(cs[1..], refs);
      Digits(k, Size(cs[0], refs), rest);
      Nth(cs[0], refs, k / rest) + NthAnd(cs[1..], refs, k % rest)
  }

  lemma MultipleOrder(a: nat, b: nat, c: nat)
    ensures a <= b ==> a * c <= b * c
    ensures a < b ==> a * c + c <= b * c
  {
    if a < b {
      Spread(a, 1, c);
      Spread(a + 1, b - a - 1, c);
    } else {
      Spread(b, a - b, c);
    }
  }

  lemma Digits(k: nat, size: nat, rest: nat)
    requires rest > 0 && k < size * rest
    ensures k / rest < size && k % rest < rest && k == k / rest * rest + k % rest
  {
    MultipleOrder(size, k / rest, rest);
  }

  lemma Spread(a: nat, b: nat, c: nat)
    ensures (a + b) * c == a * c + b * c
  {
  }

  lemma {:induction false} ProductPair(left: seq<Combo>, right: seq<Combo>, i: nat, j: nat)
    requires i < |left| && j < |right|
    ensures i * |right| + j < |Product(left, right)|
    ensures Product(left, right)[i * |right| + j] == left[i] + right[j]
  {
    if i == 0 {
      ProductFirst(left, right, j);
      assert 0 * |right| + j == j;
    } else {
      ProductPair(left[1..], right, i - 1, j);
      var k := (i - 1) * |right| + j;
      ProductLater(left, right, k);
      NextRow(i, |right|, j);
      assert i * |right| + j == |right| + k && left[1..][i - 1] == left[i];
    }
  }

  lemma NextRow(i: nat, size: nat, j: nat)
    requires i >= 1
    ensures i * size + j == size + ((i - 1) * size + j)
  {
    Spread(i - 1, 1, size);
  }

  lemma ProductFirst(left: seq<Combo>, right: seq<Combo>, j: nat)
    requires left != [] && j < |right|
    ensures j < |Product(left, right)| && Product(left, right)[j] == left[0] + right[j]
  {
    PrefixedAt(left[0], right);
  }

  lemma ProductLater(left: seq<Combo>, right: seq<Combo>, k: nat)
    requires left != [] && k < |Product(left[1..], right)|
    ensures |right| + k < |Product(left, right)|
    ensures Product(left, right)[|right| + k] == Product(left[1..], right)[k]
  {
    PrefixedAt(left[0], right);
  }

  lemma {:induction false} PrefixedAt(l: Combo, right: seq<Combo>)
    ensures |Prefixed(l, right)| == |right|
    ensures forall k :: 0 <= k < |right| ==> Prefixed(l, right)[k] == l + right[k]
  {
    if right != [] {
      PrefixedAt(l, right[1..]);
    }
  }

  /** The k-th combination expansion gives is the k-th meaning. */
  lemma {:induction false} ExpandsInOrder(n: Node, refs: RefTable, k: nat)
    requires NonEmpty(refs) && Proper(n) && Expand(n, refs).Ok? && k < Size(n, refs)
    ensures Resolved(n, refs) && |Expand(n, refs).value| == Size(n, refs)
    ensures Expand(n, refs).value[k] == Nth(n, refs, k)
    decreases n, 1
  {
    ExpandsExactly(n, refs, []);
    match n {
      case Leaf(name) =>
      case Ref(setName) =>
      case Or(cs) => OrInOrder(cs, [], refs, k);
      case And(cs) =>
        AndInOrder(cs, [[]], refs, 0, k);
    }
  }

  lemma {:induction false} OrInOrder(cs: seq<Node>, acc: seq<Combo>, refs: RefTable, k: nat)
    requires Ready(cs, refs) && ExpandOr(cs, acc, refs).Ok? && |acc| <= MAX_EXPANSIONS
    requires k < |acc| + Sum(cs, refs)
    ensures |ExpandOr(cs, acc, refs).value| == |acc| + Sum(cs, refs)
    ensures ExpandOr(cs, acc, refs).value[k] == if k < |acc| then acc[k] else NthOr(cs, refs, k - |acc|)
    decreases cs, 0
  {
    ExpandOrIsExact(cs, acc, refs, []);
    if cs != [] {
      ExpandsExactly(cs[0], refs, []);
      var c := Expand(cs[0], refs).value;
      OrInOrder(cs[1..], acc + c, refs, k);
      if |acc| <= k < |acc| + |c| {
        ExpandsInOrder(cs[0], refs, k - |acc|);
      }
    }
  }

  /** Numbering row by row does not depend on which two of three digits are taken
      together. */
  lemma Rows(i: nat, k: nat, size: nat, rest: nat)
    requires rest > 0 && k < size * rest
    ensures k / rest < size && k % rest < rest
    ensures i * (size * rest) + k == (i * size + k / rest) * rest + k % rest
  {
    Digits(k, size, rest);
    Reassociate(i, size, rest);
    Spread(i * size, k / rest, rest);
  }

  lemma {:induction false} AndInOrder(cs: seq<Node>, acc: seq<Combo>, refs: RefTable, i: nat, k: nat)
    requires Ready(cs, refs) && ExpandAnd(cs, acc, refs).Ok? && |acc| <= MAX_EXPANSIONS
    requires i < |acc| && k < Times(cs, refs)
    ensures i * Times(cs, refs) + k < |ExpandAnd(cs, acc, refs).value|
    ensures ExpandAnd(cs, acc, refs).value[i * Times(cs, refs) + k] == acc[i] + NthAnd(cs, refs, k)
    decreases cs, 1
  {
    if cs == [] {
    } else {
      var c, rest := Expand(cs[0], refs).value, Times(cs[1..], refs);
      ExpandsExactly(cs[0], refs, []);
      TimesPositive(cs[1..], refs);
      Rows(i, k, |c|, rest);
      AndStep(cs, acc, refs, i, k / rest, k % rest);
    }
  }

  lemma {:induction false} AndStep(cs: seq<Node>, acc: seq<Combo>, refs: RefTable, i: nat, d: nat, e: nat)
    requires cs != [] && Ready(cs, refs) && ExpandAnd(cs, acc, refs).Ok? && |acc| <= MAX_EXPANSIONS
    requires i < |acc| && d < Size(cs[0], refs) && e < Times(cs[1..], refs)
    ensures var at := (i * Size(cs[0], refs) + d) * Times(cs[1..], refs) + e;
      && at < |ExpandAnd(cs, acc, refs).value|
      && ExpandAnd(cs, acc, refs).value[at] == acc[i] + (Nth(cs[0], refs, d) + NthAnd(cs[1..], refs, e))
    decreases cs, 0
  {
    var c := Expand(cs[0], refs).value;
    ExpandsInOrder(cs[0], refs, d);
    ProductMeaning(acc, c, []);
    ProductPair(acc, c, i, d);
    AndInOrder(cs[1..], Product(acc, c), refs, i * |c| + d, e);
    assert (acc[i] + c[d]) + NthAnd(cs[1..], refs, e) == acc[i] + (c[d] + NthAnd(cs[1..], refs, e));
  }
}
