/** The recursive-descent parser for set expressions, in which `&` binds tighter
    than `|`. */
module DslParser {
  import opened Wrappers
  import opened DslLexer

  datatype Node = Leaf(name: string) | Ref(setName: string) | And(children: seq<Node>) | Or(children: seq<Node>)

  datatype ParseError = MissingParen | UnexpectedToken | TrailingToken

  type Parsed<T> = Result<(T, nat), ParseError>

  function Peek(ts: seq<Token>, pos: nat): Token {
    if pos < |ts| then ts[pos] else Eof
  }

  // ----- The parser as functions -----

  function ParseOr(ts: seq<Token>, pos: nat): (r: Parsed<Node>)
    ensures r.Ok? ==> pos < r.value.1 <= |ts|
    decreases |ts| - pos, 2, 0
  {
    var left := ParseAnd(ts, pos);
    if left.Err? then Err(left.error)
    else
      var (first, p) := left.value;
      var rest := OrRest(ts, p);
      if rest.Err? then Err(rest.error)
      else if rest.value.0 == [] then left
      else Ok((Or([first] + rest.value.0), rest.value.1))
  }

  /** The terms after the first, each behind its `|`. */
  function OrRest(ts: seq<Token>, pos: nat): (r: Parsed<seq<Node>>)
    requires pos <= |ts|
    ensures r.Ok? ==> pos <= r.value.1 <= |ts|
    decreases |ts| - pos, 2, 1
  {
    if !Peek(ts, pos).OrTok? then Ok(([], pos))
    else
      var term := ParseAnd(ts, pos + 1);
      if term.Err? then Err(term.error)
      else
        var rest := OrRest(ts, term.value.1);
        if rest.Err? then rest else Ok(([term.value.0] + rest.value.0, rest.value.1))
  }

  function ParseAnd(ts: seq<Token>, pos: nat): (r: Parsed<Node>)
    ensures r.Ok? ==> pos < r.value.1 <= |ts|
    decreases |ts| - pos, 1, 0
  {
    var left := ParseAtom(ts, pos);
    if left.Err? then Err(left.error)
    else
      var (first, p) := left.value;
      var rest := AndRest(ts, p);
      if rest.Err? then Err(rest.error)
      else if rest.value.0 == [] then left
      else Ok((And([first] + rest.value.0), rest.value.1))
  }

  function AndRest(ts: seq<Token>, pos: nat): (r: Parsed<seq<Node>>)
    requires pos <= |ts|
    ensures r.Ok? ==> pos <= r.value.1 <= |ts|
    decreases |ts| - pos, 1, 1
  {
    if !Peek(ts, pos).AndTok? then Ok(([], pos))
    else
      var atom := ParseAtom(ts, pos + 1);
      if atom.Err? then Err(atom.error)
      else
        var rest := AndRest(ts, atom.value.1);
        if rest.Err? then rest else Ok(([atom.value.0] + rest.value.0, rest.value.1))
  }

  function ParseAtom(ts: seq<Token>, pos: nat): (r: Parsed<Node>)
    ensures r.Ok? ==> pos < r.value.1 <= |ts|
    decreases |ts| - pos, 0, 0
  {
    match Peek(ts, pos)
    case Ident(name) => Ok((Leaf(name), pos + 1))
    case RefTok(name) => Ok((Ref(name), pos + 1))
    case LParen =>
      var inner := ParseOr(ts, pos + 1);
      if inner.Err? then inner
      else if !Peek(ts, inner.value.1).RParen? then Err(MissingParen)
      else Ok((inner.value.0, inner.value.1 + 1))
    case _ => Err(UnexpectedToken)
  }

  function Parse(ts: seq<Token>): Result<Node, ParseError> {
    var r := ParseOr(ts, 0);
    if r.Err? then Err(r.error)
    else if !Peek(ts, r.value.1).Eof? then Err(TrailingToken)
    else Ok(r.value.0)
  }

  // ----- The parser as it runs -----

  class Parser {
    const tokens: seq<Token>
    var pos: nat

    constructor (tokens: seq<Token>)
      ensures this.tokens == tokens && pos == 0
    {
      this.tokens := tokens;
      pos := 0;
    }

    /** Consumes the next token; the end mark is never passed. */
    method Next() returns (t: Token)
      modifies this
      ensures t == Peek(tokens, old(pos)) && pos == if t.Eof? then old(pos) else old(pos) + 1
    {
      t := Peek(tokens, pos);
      if !t.Eof? {
        pos := pos + 1;
      }
    }

    method ParseOrExpr() returns (r: Result<Node, ParseError>)
      modifies this
      ensures ParseOr(tokens, old(pos)).Ok? ==>
        r == Ok(ParseOr(tokens, old(pos)).value.0) && pos == ParseOr(tokens, old(pos)).value.1
      ensures ParseOr(tokens, old(pos)).Err? ==> r == Err(ParseOr(tokens, old(pos)).error)
      decreases |tokens| - pos, 2
    {
      var left := ParseAndExpr();
      if left.Err? {
        return left;
      }
      if !Peek(tokens, pos).OrTok? {
        return left;
      }
      var children := [left.value];
      ghost var start := pos;
      FollowNone(OrRest(tokens, pos));
      assert children[1..] == [];
      while Peek(tokens, pos).OrTok?
        invariant start <= pos <= |tokens| && |children| >= 1 && children[0] == left.value
        invariant pos > start ==> |children| > 1
        invariant OrRest(tokens, start) == Follow(children[1..], OrRest(tokens, pos))
        decreases |tokens| - pos
      {
        var _ := Next();
        var right := ParseAndExpr();
        if right.Err? {
          return right;
        }
        FollowOne(children[1..], right.value, OrRest(tokens, pos));
        assert (children + [right.value])[1..] == children[1..] + [right.value];
        children := children + [right.value];
      }
      assert children == [left.value] + children[1..] && children[1..] + [] == children[1..];
      return Ok(Or(children));
    }

    method ParseAndExpr() returns (r: Result<Node, ParseError>)
      modifies this
      ensures ParseAnd(tokens, old(pos)).Ok? ==>
        r == Ok(ParseAnd(tokens, old(pos)).value.0) && pos == ParseAnd(tokens, old(pos)).value.1
      ensures ParseAnd(tokens, old(pos)).Err? ==> r == Err(ParseAnd(tokens, old(pos)).error)
      decreases |tokens| - pos, 1
    {
      var left := ParseAtomExpr();
      if left.Err? {
        return left;
      }
      if !Peek(tokens, pos).AndTok? {
        return left;
      }
      var children := [left.value];
      ghost var start := pos;
      FollowNone(AndRest(tokens, pos));
      assert children[1..] == [];
      while Peek(tokens, pos).AndTok?
        invariant start <= pos <= |tokens| && |children| >= 1 && children[0] == left.value
        invariant pos > start ==> |children| > 1
        invariant AndRest(tokens, start) == Follow(children[1..], AndRest(tokens, pos))
        decreases |tokens| - pos
      {
        var _ := Next();
        var right := ParseAtomExpr();
        if right.Err? {
          return right;
        }
        FollowOne(children[1..], right.value, AndRest(tokens, pos));
        assert (children + [right.value])[1..] == children[1..] + [right.value];
        children := children + [right.value];
      }
      assert children == [left.value] + children[1..] && children[1..] + [] == children[1..];
      return Ok(And(children));
    }

    method ParseAtomExpr() returns (r: Result<Node, ParseError>)
      modifies this
      ensures ParseAtom(tokens, old(pos)).Ok? ==>
        r == Ok(ParseAtom(tokens, old(pos)).value.0) && pos == ParseAtom(tokens, old(pos)).value.1
      ensures ParseAtom(tokens, old(pos)).Err? ==> r == Err(ParseAtom(tokens, old(pos)).error)
      decreases |tokens| - pos, 0
    {
      var t := Peek(tokens, pos);
      if t.Ident? {
        var _ := Next();
        return Ok(Leaf(t.name));
      }
      if t.RefTok? {
        var _ := Next();
        return Ok(Ref(t.name));
      }
      if t.LParen? {
        var _ := Next();
        r := ParseOrExpr();
        if r.Err? {
          return;
        }
        var close := Next();
        if !close.RParen? {
          return Err(MissingParen);
        }
        return;
      }
      return Err(UnexpectedToken);
    }
  }

  method ParseTokens(tokens: seq<Token>) returns (r: Result<Node, ParseError>)
    ensures r == Parse(tokens)
  {
    var p := new Parser(tokens);
    r := p.ParseOrExpr();
    if r.Ok? && !Peek(tokens, p.pos).Eof? {
      return Err(TrailingToken);
    }
  }

  function Follow(front: seq<Node>, rest: Parsed<seq<Node>>): Parsed<seq<Node>> {
    if rest.Err? then rest else Ok((front + rest.value.0, rest.value.1))
  }

  lemma FollowOne(front: seq<Node>, n: Node, rest: Parsed<seq<Node>>)
    ensures Follow(front, if rest.Err? then rest else Ok(([n] + rest.value.0, rest.value.1)))
      == Follow(front + [n], rest)
  {
    if rest.Ok? {
      assert front + ([n] + rest.value.0) == (front + [n]) + rest.value.0;
    }
  }

  lemma FollowNone(rest: Parsed<seq<Node>>)
    ensures Follow([], rest) == rest
  {
    if rest.Ok? {
      assert [] + rest.value.0 == rest.value.0;
    }
  }
}
