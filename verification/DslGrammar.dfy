/** The grammar of set expressions and the parser's agreement with it:
    expr = term ('|' term)*, term = atom ('&' atom)*,
    atom = name | '+' name | '(' expr ')'. */
module DslGrammar {
  import opened Wrappers
  import opened DslLexer
  import opened DslParser

  // ----- Derivations -----

  datatype Expr = One(t: Term) | Alt(t: Term, rest: Expr)
  datatype Term = Single(a: Atom) | Both(a: Atom, rest: Term)
  datatype Atom = Name(name: string) | SetRef(name: string) | Paren(e: Expr)

  function ExprTokens(e: Expr): seq<Token> {
    match e
    case One(t) => TermTokens(t)
    case Alt(t, rest) => TermTokens(t) + [OrTok] + ExprTokens(rest)
  }

  function TermTokens(t: Term): seq<Token> {
    match t
    case Single(a) => AtomTokens(a)
    case Both(a, rest) => AtomTokens(a) + [AndTok] + TermTokens(rest)
  }

  function AtomTokens(a: Atom): seq<Token> {
    match a
    case Name(name) => [Ident(name)]
    case SetRef(name) => [RefTok(name)]
    case Paren(e) => [LParen] + ExprTokens(e) + [RParen]
  }

  /** The tree a derivation stands for; parentheses leave no trace. */
  function ExprTree(e: Expr): Node {
    match e
    case One(t) => TermTree(t)
    case Alt(t, rest) => Or([TermTree(t)] + Terms(rest))
  }

  function Terms(e: Expr): seq<Node> {
    match e
    case One(t) => [TermTree(t)]
    case Alt(t, rest) => [TermTree(t)] + Terms(rest)
  }

  function TermTree(t: Term): Node {
    match t
    case Single(a) => AtomTree(a)
    case Both(a, rest) => And([AtomTree(a)] + Atoms(rest))
  }

  function Atoms(t: Term): seq<Node> {
    match t
    case Single(a) => [AtomTree(a)]
    case Both(a, rest) => [AtomTree(a)] + Atoms(rest)
  }

  function AtomTree(a: Atom): Node {
    match a
    case Name(name) => Leaf(name)
    case SetRef(name) => Ref(name)
    case Paren(e) => ExprTree(e)
  }

  /** The tokens from pos on start with ys. */
  predicate At(ts: seq<Token>, pos: nat, ys: seq<Token>) {
    pos + |ys| <= |ts| && ts[pos..pos + |ys|] == ys
  }

  lemma AtConcat(ts: seq<Token>, pos: nat, a: seq<Token>, b: seq<Token>)
    ensures At(ts, pos, a + b) <==> At(ts, pos, a) && At(ts, pos + |a|, b)
  {
    if pos + |a| + |b| <= |ts| {
      assert ts[pos..pos + |a + b|] == ts[pos..pos + |a|] + ts[pos + |a|..pos + |a| + |b|];
      assert ts[pos..pos + |a + b|][..|a|] == ts[pos..pos + |a|];
    }
  }

  lemma AtOne(ts: seq<Token>, pos: nat, t: Token)
    requires !t.Eof?
    ensures At(ts, pos, [t]) <==> Peek(ts, pos) == t
  {
    if pos < |ts| {
      assert ts[pos..pos + 1] == [ts[pos]];
    }
  }

  /** Two runs of tokens with one token between them. */
  lemma AtBetween(ts: seq<Token>, pos: nat, a: seq<Token>, t: Token, b: seq<Token>)
    requires !t.Eof?
    ensures At(ts, pos, a + [t] + b) <==> At(ts, pos, a) && Peek(ts, pos + |a|) == t && At(ts, pos + |a| + 1, b)
  {
    AtConcat(ts, pos, a + [t], b);
    AtConcat(ts, pos, a, [t]);
    AtOne(ts, pos + |a|, t);
  }

  // ----- Whatever derives is parsed -----

  lemma {:induction false} ParsesExpr(ts: seq<Token>, pos: nat, e: Expr)
    requires At(ts, pos, ExprTokens(e))
    requires var next := Peek(ts, pos + |ExprTokens(e)|); !next.OrTok? && !next.AndTok?
    ensures ParseOr(ts, pos) == Ok((ExprTree(e), pos + |ExprTokens(e)|))
    decreases e
  {
    match e {
      case One(t) => ParsesTerm(ts, pos, t);
      case Alt(t, rest) =>
        AltAt(ts, pos, t, rest);
        ParsesTerm(ts, pos, t);
        var p := pos + |TermTokens(t)|;
        ParsesTerms(ts, p, rest);
    }
  }

  lemma LastTerm(ts: seq<Token>, pos: nat, n: Node, p: nat)
    requires pos < |ts| && Peek(ts, pos).OrTok? && p <= |ts|
    requires ParseAnd(ts, pos + 1) == Ok((n, p)) && !Peek(ts, p).OrTok?
    ensures OrRest(ts, pos) == Ok(([n], p))
  {
    assert [n] + [] == [n];
  }

  lemma LastAtom(ts: seq<Token>, pos: nat, n: Node, p: nat)
    requires pos < |ts| && Peek(ts, pos).AndTok? && p <= |ts|
    requires ParseAtom(ts, pos + 1) == Ok((n, p)) && !Peek(ts, p).AndTok?
    ensures AndRest(ts, pos) == Ok(([n], p))
  {
    assert [n] + [] == [n];
  }

  /** The terms of e, each behind its `|`, the first of these at pos. */
  lemma {:induction false} ParsesTerms(ts: seq<Token>, pos: nat, e: Expr)
    requires pos < |ts| && Peek(ts, pos).OrTok? && At(ts, pos + 1, ExprTokens(e))
    requires var next := Peek(ts, pos + 1 + |ExprTokens(e)|); !next.OrTok? && !next.AndTok?
    ensures OrRest(ts, pos) == Ok((Terms(e), pos + 1 + |ExprTokens(e)|))
    decreases e
  {
    match e {
      case One(t) =>
        ParsesTerm(ts, pos + 1, t);
        LastTerm(ts, pos, TermTree(t), pos + 1 + |TermTokens(t)|);
      case Alt(t, rest) =>
        var p := pos + 1 + |TermTokens(t)|;
        AltAt(ts, pos + 1, t, rest);
        ParsesTerm(ts, pos + 1, t);
        ParsesTerms(ts, p, rest);
    }
  }

  lemma AltAt(ts: seq<Token>, pos: nat, t: Term, rest: Expr)
    ensures |ExprTokens(Alt(t, rest))| == |TermTokens(t)| + 1 + |ExprTokens(rest)|
    ensures var p := pos + |TermTokens(t)|;
            At(ts, pos, ExprTokens(Alt(t, rest))) <==>
              At(ts, pos, TermTokens(t)) && p < |ts| && Peek(ts, p) == OrTok && At(ts, p + 1, ExprTokens(rest))
  {
    AtBetween(ts, pos, TermTokens(t), OrTok, ExprTokens(rest));
  }

  lemma {:induction false} ParsesTerm(ts: seq<Token>, pos: nat, t: Term)
    requires At(ts, pos, TermTokens(t)) && !Peek(ts, pos + |TermTokens(t)|).AndTok?
    ensures ParseAnd(ts, pos) == Ok((TermTree(t), pos + |TermTokens(t)|))
    decreases t
  {
    match t {
      case Single(a) => ParsesAtom(ts, pos, a);
      case Both(a, rest) =>
        BothAt(ts, pos, a, rest);
        ParsesAtom(ts, pos, a);
        var p := pos + |AtomTokens(a)|;
        ParsesAtoms(ts, p, rest);
    }
  }

  lemma {:induction false} ParsesAtoms(ts: seq<Token>, pos: nat, t: Term)
    requires pos < |ts| && Peek(ts, pos).AndTok? && At(ts, pos + 1, TermTokens(t))
    requires !Peek(ts, pos + 1 + |TermTokens(t)|).AndTok?
    ensures AndRest(ts, pos) == Ok((Atoms(t), pos + 1 + |TermTokens(t)|))
    decreases t
  {
    match t {
      case Single(a) =>
        ParsesAtom(ts, pos + 1, a);
        LastAtom(ts, pos, AtomTree(a), pos + 1 + |AtomTokens(a)|);
      case Both(a, rest) =>
        var p := pos + 1 + |AtomTokens(a)|;
        BothAt(ts, pos + 1, a, rest);
        ParsesAtom(ts, pos + 1, a);
        ParsesAtoms(ts, p, rest);
    }
  }

  lemma BothAt(ts: seq<Token>, pos: nat, a: Atom, rest: Term)
    ensures |TermTokens(Both(a, rest))| == |AtomTokens(a)| + 1 + |TermTokens(rest)|
    ensures var p := pos + |AtomTokens(a)|;
            At(ts, pos, TermTokens(Both(a, rest))) <==>
              At(ts, pos, AtomTokens(a)) && p < |ts| && Peek(ts, p) == AndTok && At(ts, p + 1, TermTokens(rest))
  {
    AtBetween(ts, pos, AtomTokens(a), AndTok, TermTokens(rest));
  }

  lemma {:induction false} ParsesAtom(ts: seq<Token>, pos: nat, a: Atom)
    requires At(ts, pos, AtomTokens(a))
    ensures ParseAtom(ts, pos) == Ok((AtomTree(a), pos + |AtomTokens(a)|))
    decreases a
  {
    match a {
      case Name(name) => AtOne(ts, pos, Ident(name));
      case SetRef(name) => AtOne(ts, pos, RefTok(name));
      case Paren(e) =>
        var n := |ExprTokens(e)|;
        AtConcat(ts, pos, [LParen] + ExprTokens(e), [RParen]);
        AtConcat(ts, pos, [LParen], ExprTokens(e));
        AtOne(ts, pos, LParen);
        AtOne(ts, pos + 1 + n, RParen);
        ParsesExpr(ts, pos + 1, e);
    }
  }

  // ----- Whatever is parsed derives -----

  lemma {:induction false} ExprDerives(ts: seq<Token>, pos: nat) returns (e: Expr)
    requires ParseOr(ts, pos).Ok?
    ensures At(ts, pos, ExprTokens(e)) && ParseOr(ts, pos) == Ok((ExprTree(e), pos + |ExprTokens(e)|))
    decreases |ts| - pos, 2, 0
  {
    var t := TermDerives(ts, pos);
    var p := pos + |TermTokens(t)|;
    if !Peek(ts, p).OrTok? {
      return One(t);
    }
    var rest := TermsDerive(ts, p);
    AltAt(ts, pos, t, rest);
    e := Alt(t, rest);
  }

  lemma {:induction false} TermsDerive(ts: seq<Token>, pos: nat) returns (e: Expr)
    requires pos < |ts| && Peek(ts, pos).OrTok? && OrRest(ts, pos).Ok?
    ensures At(ts, pos + 1, ExprTokens(e)) && OrRest(ts, pos) == Ok((Terms(e), pos + 1 + |ExprTokens(e)|))
    decreases |ts| - pos, 2, 1
  {
    var t := TermDerives(ts, pos + 1);
    var p := pos + 1 + |TermTokens(t)|;
    if !Peek(ts, p).OrTok? {
      LastTerm(ts, pos, TermTree(t), p);
      return One(t);
    }
    var rest := TermsDerive(ts, p);
    AltAt(ts, pos + 1, t, rest);
    e := Alt(t, rest);
  }

  lemma {:induction false} TermDerives(ts: seq<Token>, pos: nat) returns (t: Term)
    requires ParseAnd(ts, pos).Ok?
    ensures At(ts, pos, TermTokens(t)) && ParseAnd(ts, pos) == Ok((TermTree(t), pos + |TermTokens(t)|))
    decreases |ts| - pos, 1, 0
  {
    var a := AtomDerives(ts, pos);
    var p := pos + |AtomTokens(a)|;
    if !Peek(ts, p).AndTok? {
      return Single(a);
    }
    var rest := AtomsDerive(ts, p);
    BothAt(ts, pos, a, rest);
    t := Both(a, rest);
  }

  lemma {:induction false} AtomsDerive(ts: seq<Token>, pos: nat) returns (t: Term)
    requires pos < |ts| && Peek(ts, pos).AndTok? && AndRest(ts, pos).Ok?
    ensures At(ts, pos + 1, TermTokens(t)) && AndRest(ts, pos) == Ok((Atoms(t), pos + 1 + |TermTokens(t)|))
    decreases |ts| - pos, 1, 1
  {
    var a := AtomDerives(ts, pos + 1);
    var p := pos + 1 + |AtomTokens(a)|;
    if !Peek(ts, p).AndTok? {
      LastAtom(ts, pos, AtomTree(a), p);
      return Single(a);
    }
    var rest := AtomsDerive(ts, p);
    BothAt(ts, pos + 1, a, rest);
    t := Both(a, rest);
  }

  lemma {:induction false} AtomDerives(ts: seq<Token>, pos: nat) returns (a: Atom)
    requires ParseAtom(ts, pos).Ok?
    ensures At(ts, pos, AtomTokens(a)) && ParseAtom(ts, pos) == Ok((AtomTree(a), pos + |AtomTokens(a)|))
    decreases |ts| - pos, 0, 0
  {
    AtOne(ts, pos, Peek(ts, pos));
    match Peek(ts, pos) {
      case Ident(name) => a := Name(name);
      case RefTok(name) => a := SetRef(name);
      case LParen =>
        var e := ExprDerives(ts, pos + 1);
        AtOne(ts, pos + 1 + |ExprTokens(e)|, RParen);
        AtConcat(ts, pos, [LParen], ExprTokens(e));
        AtConcat(ts, pos, [LParen] + ExprTokens(e), [RParen]);
        a := Paren(e);
    }
  }

  // ----- The parser and the grammar -----

  /** The expression's tokens come first and the end mark or the end follows. */
  ghost predicate Spells(ts: seq<Token>, e: Expr) {
    At(ts, 0, ExprTokens(e)) && Peek(ts, |ExprTokens(e)|).Eof?
  }

  /** The parser accepts a token list with a tree exactly when some derivation of
      that tree spells the list. */
  lemma ParsesExactlyTheGrammar(ts: seq<Token>, n: Node)
    ensures Parse(ts) == Ok(n) <==> exists e :: Spells(ts, e) && ExprTree(e) == n
  {
    if Parse(ts) == Ok(n) {
      var e := ExprDerives(ts, 0);
      assert Spells(ts, e);
    }
    if exists e :: Spells(ts, e) && ExprTree(e) == n {
      var e :| Spells(ts, e) && ExprTree(e) == n;
      ParsesExpr(ts, 0, e);
    }
  }

  // ----- Writing trees out -----

  /** And- and or-nodes have at least two children, as every parsed tree has. */
  ghost predicate Proper(n: Node) {
    match n
    case And(cs) => |cs| >= 2 && forall c :: c in cs ==> Proper(c)
    case Or(cs) => |cs| >= 2 && forall c :: c in cs ==> Proper(c)
    case _ => true
  }

  /** A tree with every and- and or-node in parentheses. */
  function Bracket(n: Node): Atom
    decreases n, 1
  {
    match n
    case Leaf(name) => Name(name)
    case Ref(name) => SetRef(name)
    case And(cs) => Paren(One(if cs == [] then Single(Name("")) else Conjunction(cs)))
    case Or(cs) => Paren(if cs == [] then One(Single(Name(""))) else Disjunction(cs))
  }

  function Conjunction(cs: seq<Node>): Term
    requires cs != []
    decreases cs, 0
  {
    if |cs| == 1 then Single(Bracket(cs[0])) else Both(Bracket(cs[0]), Conjunction(cs[1..]))
  }

  function Disjunction(cs: seq<Node>): Expr
    requires cs != []
    decreases cs, 0
  {
    if |cs| == 1 then One(Single(Bracket(cs[0]))) else Alt(Single(Bracket(cs[0])), Disjunction(cs[1..]))
  }

  lemma {:induction false} BracketTree(n: Node)
    requires Proper(n)
    ensures AtomTree(Bracket(n)) == n
    decreases n, 1
  {
    match n {
      case And(cs) =>
        assert cs == [cs[0]] + cs[1..];
        ConjunctionTree(cs[1..]);
        BracketTree(cs[0]);
        assert TermTree(Conjunction(cs)) == n;
      case Or(cs) =>
        assert cs == [cs[0]] + cs[1..];
        DisjunctionTree(cs[1..]);
        BracketTree(cs[0]);
        assert ExprTree(Disjunction(cs)) == n;
      case _ =>
    }
  }

  lemma {:induction false} ConjunctionTree(cs: seq<Node>)
    requires cs != [] && forall c :: c in cs ==> Proper(c)
    ensures Atoms(Conjunction(cs)) == cs
    decreases cs, 0
  {
    BracketTree(cs[0]);
    if |cs| > 1 {
      ConjunctionTree(cs[1..]);
    }
  }

  lemma {:induction false} DisjunctionTree(cs: seq<Node>)
    requires cs != [] && forall c :: c in cs ==> Proper(c)
    ensures Terms(Disjunction(cs)) == cs
    decreases cs, 0
  {
    BracketTree(cs[0]);
    if |cs| > 1 {
      DisjunctionTree(cs[1..]);
    }
  }

  function Rendering(n: Node): seq<Token> {
    AtomTokens(Bracket(n))
  }

  // ----- Trees of derivations -----

  /** The sets an expression refers to. */
  function Refs(n: Node): set<string> {
    match n
    case Leaf(_) => {}
    case Ref(setName) => {setName}
    case And(cs) => set c, r | c in cs && r in Refs(c) :: r
    case Or(cs) => set c, r | c in cs && r in Refs(c) :: r
  }

  /** The references of a list of children are reference tokens of ts. */
  ghost predicate Mentioned(cs: seq<Node>, ts: seq<Token>) {
    forall c, r :: c in cs && r in Refs(c) ==> RefTok(r) in ts
  }

  lemma {:induction false} ExprTreeWell(e: Expr)
    ensures Proper(ExprTree(e)) && Mentioned([ExprTree(e)], ExprTokens(e))
    ensures (forall c :: c in Terms(e) ==> Proper(c)) && Mentioned(Terms(e), ExprTokens(e)) && |Terms(e)| >= 1
    decreases e
  {
    match e {
      case One(t) => TermTreeWell(t);
      case Alt(t, rest) =>
        TermTreeWell(t);
        ExprTreeWell(rest);
    }
  }

  lemma {:induction false} TermTreeWell(t: Term)
    ensures Proper(TermTree(t)) && Mentioned([TermTree(t)], TermTokens(t))
    ensures (forall c :: c in Atoms(t) ==> Proper(c)) && Mentioned(Atoms(t), TermTokens(t)) && |Atoms(t)| >= 1
    decreases t
  {
    match t {
      case Single(a) => AtomTreeWell(a);
      case Both(a, rest) =>
        AtomTreeWell(a);
        TermTreeWell(rest);
    }
  }

  lemma {:induction false} AtomTreeWell(a: Atom)
    ensures Proper(AtomTree(a)) && Mentioned([AtomTree(a)], AtomTokens(a))
    decreases a
  {
    match a {
      case Paren(e) => ExprTreeWell(e);
      case _ =>
    }
  }

  /** A parsed tree's and- and or-nodes have at least two children, and its
      references are among the reference tokens. */
  lemma ParsedTreeWell(ts: seq<Token>)
    requires Parse(ts).Ok?
    ensures var n := Parse(ts).value; Proper(n) && forall r :: r in Refs(n) ==> RefTok(r) in ts
  {
    var n := Parse(ts).value;
    ParsesExactlyTheGrammar(ts, n);
    var e :| Spells(ts, e) && ExprTree(e) == n;
    ExprTreeWell(e);
    assert n in [n];
    forall r | r in Refs(n) ensures RefTok(r) in ts {
      assert RefTok(r) in ts[0..|ExprTokens(e)|];
    }
  }

  // ----- Round trips -----

  /** The trees that parse back from their parenthesised form are exactly those
      whose and- and or-nodes have at least two children. */
  lemma RenderingParsesBack(n: Node)
    ensures Parse(Rendering(n) + [Eof]) == Ok(n) <==> Proper(n)
  {
    var ts := Rendering(n) + [Eof];
    if Parse(ts) == Ok(n) {
      ParsedTreeWell(ts);
    }
    if Proper(n) {
      var e := One(Single(Bracket(n)));
      BracketTree(n);
      assert ts[0..|Rendering(n)|] == Rendering(n);
      assert Spells(ts, e);
      ParsesExactlyTheGrammar(ts, n);
    }
  }

  /** A tree with well-formed names, written out as text, is tokenized and parsed
      back to itself. */
  lemma TextParsesBack(a: Alphabet, n: Node)
    requires Sensible(a) && Proper(n) && Spellable(a, Rendering(n))
    ensures var lexed := Lex(a, Spell(Rendering(n))); lexed.Ok? && Parse(lexed.value) == Ok(n)
  {
    LexSpell(a, Rendering(n));
    RenderingParsesBack(n);
  }
}
