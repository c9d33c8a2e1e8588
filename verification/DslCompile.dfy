/** From the text of a set expression to its combinations, and the references
    a text makes. */
module DslCompile {
  import opened Wrappers
  import opened DslLexer
  import opened DslParser
  import opened DslGrammar
  import opened DslExpand
  import opened ModelNames

  datatype DslError =
    | EmptyExpression | LexFailed(lex: LexError) | ParseFailed(parse: ParseError) | ExpandFailed(expand: ExpandError)

  // ----- Trimming -----

  function TrimLeft(a: Alphabet, s: string): string {
    if s != "" && a.space(s[0]) then TrimLeft(a, s[1..]) else s
  }

  function TrimRight(a: Alphabet, s: string): string {
    if s != "" && a.space(s[|s| - 1]) then TrimRight(a, s[..|s| - 1]) else s
  }

  function Trim(a: Alphabet, s: string): string {
    TrimRight(a, TrimLeft(a, s))
  }

  lemma {:induction false} NameLengthBlank(a: Alphabet, s: string, w: char)
    requires Sensible(a) && a.space(w)
    ensures NameLength(a, s + [w]) == NameLength(a, s)
  {
    if s == "" {
    } else {
      assert (s + [w])[1..] == s[1..] + [w];
      NameLengthBlank(a, s[1..], w);
    }
  }

  lemma FrontBlank(a: Alphabet, s: string, w: char)
    requires Sensible(a) && a.space(w) && s != ""
    ensures Front(a, s + [w]) == Front(a, s)
  {
    var t := s + [w];
    assert t[0] == s[0];
    if s[0] == '+' {
      assert t[1..] == s[1..] + [w];
      NameLengthBlank(a, s[1..], w);
      assert t[1..][..NameLength(a, s[1..])] == s[1..][..NameLength(a, s[1..])];
    } else {
      NameLengthBlank(a, s, w);
      assert t[..NameLength(a, s)] == s[..NameLength(a, s)];
    }
  }

  /** A blank at the end changes no token. */
  lemma {:induction false} LexBlank(a: Alphabet, s: string, w: char)
    requires Sensible(a) && a.space(w)
    ensures Lex(a, s + [w]) == Lex(a, s)
    decreases |s|
  {
    if s == "" {
      assert s + [w] == [w] && Front(a, [w]) == Ok(([], 1)) && [w][1..] == "";
      BeforeNone(Lex(a, ""));
    } else {
      FrontBlank(a, s, w);
      if Front(a, s).Ok? {
        var n := Front(a, s).value.1;
        assert (s + [w])[n..] == s[n..] + [w];
        LexBlank(a, s[n..], w);
      }
    }
  }

  lemma {:induction false} LexTrimRight(a: Alphabet, s: string)
    requires Sensible(a)
    ensures Lex(a, TrimRight(a, s)) == Lex(a, s)
  {
    if s != "" && a.space(s[|s| - 1]) {
      assert s == s[..|s| - 1] + [s[|s| - 1]];
      LexBlank(a, s[..|s| - 1], s[|s| - 1]);
      LexTrimRight(a, s[..|s| - 1]);
    }
  }

  lemma {:induction false} LexTrimLeft(a: Alphabet, s: string)
    ensures Lex(a, TrimLeft(a, s)) == Lex(a, s)
  {
    if s != "" && a.space(s[0]) {
      LexTrimLeft(a, s[1..]);
      assert Front(a, s) == Ok(([], 1));
      BeforeNone(Lex(a, s[1..]));
    }
  }

  /** Trimming a text leaves its tokens as they are. */
  lemma LexTrim(a: Alphabet, s: string)
    requires Sensible(a)
    ensures Lex(a, Trim(a, s)) == Lex(a, s)
  {
    LexTrimLeft(a, s);
    LexTrimRight(a, TrimLeft(a, s));
  }

  // ----- Compilation -----

  function CanonicalEach(combos: seq<Combo>): seq<Combo> {
    seq(|combos|, i requires 0 <= i < |combos| => Canonical(combos[i]))
  }

  function Compile(a: Alphabet, dsl: string, refs: RefTable): Result<seq<Combo>, DslError> {
    var text := Trim(a, dsl);
    if text == "" then Err(EmptyExpression)
    else
      var tokens := Lex(a, text);
      if tokens.Err? then Err(LexFailed(tokens.error))
      else
        var tree := Parse(tokens.value);
        if tree.Err? then Err(ParseFailed(tree.error))
        else
          var combos := Expand(tree.value, refs);
          if combos.Err? then Err(ExpandFailed(combos.error)) else Ok(CanonicalEach(combos.value))
  }

  method ParseAndExpand(a: Alphabet, dsl: string, refs: RefTable) returns (r: Result<seq<Combo>, DslError>)
    ensures r == Compile(a, dsl, refs)
  {
    var text := Trim(a, dsl);
    if text == "" {
      return Err(EmptyExpression);
    }
    var tokens := Tokenize(a, text);
    if tokens.Err? {
      return Err(LexFailed(tokens.error));
    }
    var tree := ParseTokens(tokens.value);
    if tree.Err? {
      return Err(ParseFailed(tree.error));
    }
    var combos := ExpandNode(tree.value, refs);
    if combos.Err? {
      return Err(ExpandFailed(combos.error));
    }
    var result := combos.value;
    for i := 0 to |result|
      invariant |result| == |combos.value|
      invariant forall k :: 0 <= k < i ==> result[k] == Canonical(combos.value[k])
      invariant forall k :: i <= k < |result| ==> result[k] == combos.value[k]
    {
      var combo := DedupAndSort(result[i]);
      result := result[i := combo];
    }
    assert result == CanonicalEach(combos.value);
    r := Ok(result);
  }

  /** The tree an expression parses to, if it does. */
  function Tree(a: Alphabet, dsl: string): Option<Node> {
    var tokens := Lex(a, dsl);
    if tokens.Ok? && Parse(tokens.value).Ok? then Some(Parse(tokens.value).value) else None
  }

  lemma EmptyDoesNotParse(a: Alphabet, dsl: string)
    requires Sensible(a) && Tree(a, dsl).Some?
    ensures Trim(a, dsl) != ""
  {
    LexTrim(a, dsl);
    assert Parse([Eof]).Err?;
  }

  /** Compiling is expanding the tree and bringing each combination to its canonical form. */
  lemma CompileExpands(a: Alphabet, dsl: string, refs: RefTable)
    requires Sensible(a)
    ensures var r, t := Compile(a, dsl, refs), Tree(a, dsl);
      && (r.Ok? <==> t.Some? && Expand(t.value, refs).Ok?)
      && (r.Ok? ==> r.value == CanonicalEach(Expand(t.value, refs).value))
  {
    LexTrim(a, dsl);
    if Tree(a, dsl).Some? {
      EmptyDoesNotParse(a, dsl);
    }
  }

  lemma CanonicalEachHolds(combos: seq<Combo>, x: Combo)
    ensures x in CanonicalEach(combos) <==> exists c :: c in combos && x == Canonical(c)
  {
    if x in CanonicalEach(combos) {
      var i :| 0 <= i < |combos| && CanonicalEach(combos)[i] == x;
      assert combos[i] in combos;
    }
    if c :| c in combos && x == Canonical(c) {
      var i :| 0 <= i < |combos| && combos[i] == c;
      assert CanonicalEach(combos)[i] == x;
    }
  }

  /** x is the canonical form of some combination that n means. */
  ghost predicate DenotesModels(n: Node, refs: RefTable, x: Combo) {
    exists c :: Denotes(n, refs, c) && x == Canonical(c)
  }

  lemma CanonicalMeaning(n: Node, refs: RefTable, combos: seq<Combo>, x: Combo)
    requires forall c :: c in combos <==> Denotes(n, refs, c)
    ensures x in CanonicalEach(combos) <==> DenotesModels(n, refs, x)
  {
    CanonicalEachHolds(combos, x);
  }

  /** An expression compiles exactly when it parses, its references resolve and no
      and- or or-node has more than 1000 combinations. The result then lists the
      model sets of exactly the combinations the expression means, one for each
      combination counted by sums and products. */
  lemma CompilesExactly(a: Alphabet, dsl: string, refs: RefTable, x: Combo)
    requires Sensible(a) && NonEmpty(refs)
    ensures var r, t := Compile(a, dsl, refs), Tree(a, dsl);
      && (r.Ok? <==> t.Some? && Resolved(t.value, refs) && Small(t.value, refs))
      && (r.Ok? ==> |r.value| == Size(t.value, refs) >= 1)
      && (r.Ok? ==> (x in r.value <==> DenotesModels(t.value, refs, x)))
  {
    CompileExpands(a, dsl, refs);
    var t := Tree(a, dsl);
    if t.Some? {
      ParsedTreeWell(Lex(a, dsl).value);
      ExpandsExactly(t.value, refs, x);
      SizePositive(t.value, refs);
      var combos := Expand(t.value, refs);
      if combos.Ok? {
        forall c ensures c in combos.value <==> Denotes(t.value, refs, c) {
          ExpandsExactly(t.value, refs, c);
        }
        CanonicalMeaning(t.value, refs, combos.value, x);
      }
    }
  }

  /** The k-th model set is that of the k-th combination the expression means. */
  lemma CompilesInOrder(a: Alphabet, dsl: string, refs: RefTable, k: nat)
    requires Sensible(a) && NonEmpty(refs) && Compile(a, dsl, refs).Ok? && k < |Compile(a, dsl, refs).value|
    ensures var t := Tree(a, dsl);
      && t.Some? && Proper(t.value) && Resolved(t.value, refs) && k < Size(t.value, refs)
      && Compile(a, dsl, refs).value[k] == Canonical(Nth(t.value, refs, k))
  {
    CompileExpands(a, dsl, refs);
    ParsedTreeWell(Lex(a, dsl).value);
    CompilesExactly(a, dsl, refs, []);
    ExpandsInOrder(Tree(a, dsl).value, refs, k);
  }

  ghost predicate Blank(a: Alphabet, s: string) {
    forall c :: c in s ==> a.space(c)
  }

  lemma {:induction false} TrimLeftBlank(a: Alphabet, s: string)
    ensures TrimLeft(a, s) == "" <==> Blank(a, s)
    ensures TrimLeft(a, s) != "" ==> TrimLeft(a, s)[0] in s && !a.space(TrimLeft(a, s)[0])
  {
    if s != "" && a.space(s[0]) {
      TrimLeftBlank(a, s[1..]);
      assert s == [s[0]] + s[1..];
    }
  }

  lemma {:induction false} TrimRightBlank(a: Alphabet, s: string)
    ensures TrimRight(a, s) == "" <==> Blank(a, s)
  {
    if s != "" {
      assert s == s[..|s| - 1] + [s[|s| - 1]];
      if a.space(s[|s| - 1]) {
        TrimRightBlank(a, s[..|s| - 1]);
      }
    }
  }

  /** Each failure means what it says: nothing but white space, text without tokens,
      tokens without a tree, or a tree that cannot be expanded. */
  lemma CompileBlames(a: Alphabet, dsl: string, refs: RefTable, e: DslError)
    requires Sensible(a)
    ensures Compile(a, dsl, refs) == Err(e) <==>
      match e
      case EmptyExpression => Blank(a, dsl)
      case LexFailed(x) => Lex(a, dsl) == Err(x)
      case ParseFailed(x) => !Blank(a, dsl) && Lex(a, dsl).Ok? && Parse(Lex(a, dsl).value) == Err(x)
      case ExpandFailed(x) => Tree(a, dsl).Some? && Expand(Tree(a, dsl).value, refs) == Err(x)
  {
    LexTrim(a, dsl);
    TrimLeftBlank(a, dsl);
    TrimRightBlank(a, TrimLeft(a, dsl));
    TrimLeftBlank(a, TrimRight(a, dsl));
    TrimRightBlank(a, dsl);
    assert Lex(a, "") == Ok([Eof]) && Parse([Eof]).Err?;
  }

  // ----- References -----

  /** The names behind reference tokens, each once, in order of first mention. */
  function ReferredTo(ts: seq<Token>): seq<string> {
    if ts == [] then []
    else
      var front := ReferredTo(ts[..|ts| - 1]);
      var last := ts[|ts| - 1];
      if last.RefTok? && last.name !in front then front + [last.name] else front
  }

  lemma {:induction false} ReferredToIsExact(ts: seq<Token>)
    ensures NoRepeats(ReferredTo(ts)) && forall x :: x in ReferredTo(ts) <==> RefTok(x) in ts
  {
    if ts == [] {
    } else {
      ReferredToIsExact(ts[..|ts| - 1]);
      assert ts == ts[..|ts| - 1] + [ts[|ts| - 1]];
    }
  }

  method ExtractRefs(a: Alphabet, dsl: string) returns (r: Result<seq<string>, LexError>)
    ensures r == if Lex(a, dsl).Ok? then Ok(ReferredTo(Lex(a, dsl).value)) else Err(Lex(a, dsl).error)
  {
    var tokens := Tokenize(a, dsl);
    if tokens.Err? {
      return Err(tokens.error);
    }
    var refs: seq<string> := [];
    var seen: set<string> := {};
    for i := 0 to |tokens.value|
      invariant refs == ReferredTo(tokens.value[..i])
      invariant forall x :: x in seen <==> x in refs
    {
      var t := tokens.value[i];
      assert tokens.value[..i + 1][..i] == tokens.value[..i];
      if t.RefTok? && t.name !in seen {
        seen := seen + {t.name};
        refs := refs + [t.name];
      }
    }
    assert tokens.value[..|tokens.value|] == tokens.value;
    r := Ok(refs);
  }

  /** Expansion reports a reference as unknown only if the tree makes it and the
      table lacks it, and it looks at nothing else in the table. */
  lemma {:induction false} ExpandReads(n: Node, refs: RefTable, other: RefTable)
    requires forall s :: s in Refs(n) && s in refs ==> s in other && other[s] == refs[s]
    requires forall s :: s in Refs(n) ==> s in refs
    ensures Expand(n, other) == Expand(n, refs)
    ensures Expand(n, refs).Err? ==> Expand(n, refs).error.TooMany?
    decreases n, 1
  {
    match n {
      case Or(cs) => ExpandOrReads(cs, [], refs, other);
      case And(cs) => ExpandAndReads(cs, [[]], refs, other);
      case _ =>
    }
  }

  /** The table has every reference of the children, and the other one agrees. */
  ghost predicate Agree(cs: seq<Node>, refs: RefTable, other: RefTable) {
    forall c, s :: c in cs && s in Refs(c) ==> s in refs && s in other && other[s] == refs[s]
  }

  lemma {:induction false} ExpandOrReads(cs: seq<Node>, acc: seq<Combo>, refs: RefTable, other: RefTable)
    requires Agree(cs, refs, other)
    ensures ExpandOr(cs, acc, other) == ExpandOr(cs, acc, refs)
    ensures ExpandOr(cs, acc, refs).Err? ==> ExpandOr(cs, acc, refs).error.TooMany?
    decreases cs, 0
  {
    if cs == [] {
    } else {
      assert cs[0] in cs;
      ExpandReads(cs[0], refs, other);
      var c := Expand(cs[0], refs);
      if c.Ok? && |acc + c.value| <= MAX_EXPANSIONS {
        ExpandOrReads(cs[1..], acc + c.value, refs, other);
      }
    }
  }

  lemma {:induction false} ExpandAndReads(cs: seq<Node>, acc: seq<Combo>, refs: RefTable, other: RefTable)
    requires Agree(cs, refs, other)
    ensures ExpandAnd(cs, acc, other) == ExpandAnd(cs, acc, refs)
    ensures ExpandAnd(cs, acc, refs).Err? ==> ExpandAnd(cs, acc, refs).error.TooMany?
    decreases cs, 0
  {
    if cs == [] {
    } else {
      assert cs[0] in cs;
      ExpandReads(cs[0], refs, other);
      var c := Expand(cs[0], refs);
      if c.Ok? && |acc| * |c.value| <= MAX_EXPANSIONS {
        ExpandAndReads(cs[1..], Product(acc, c.value), refs, other);
      }
    }
  }

  /** A text whose extracted references are all in the table never fails on an
      unknown reference, and compiles the same in every table that agrees on them. */
  lemma CompileReads(a: Alphabet, dsl: string, refs: RefTable, other: RefTable)
    requires Sensible(a) && Lex(a, dsl).Ok?
    requires forall s :: s in ReferredTo(Lex(a, dsl).value) ==> s in refs && s in other && other[s] == refs[s]
    ensures Compile(a, dsl, other) == Compile(a, dsl, refs)
    ensures Compile(a, dsl, refs).Err? && Compile(a, dsl, refs).error.ExpandFailed? ==>
      Compile(a, dsl, refs).error.expand.TooMany?
  {
    LexTrim(a, dsl);
    var ts := Lex(a, dsl).value;
    ReferredToIsExact(ts);
    if Parse(ts).Ok? {
      ParsedTreeWell(ts);
      ExpandReads(Parse(ts).value, refs, other);
    }
  }
}
