/** The tokens of a matrix set expression. */
module DslLexer {
  import opened Wrappers

  datatype Token = Ident(name: string) | AndTok | OrTok | LParen | RParen | RefTok(name: string) | Eof

  datatype LexError = ExpectedSetName | UnexpectedCharacter

  /** Which characters count as white space and as letters or digits. */
  datatype Alphabet = Alphabet(space: char -> bool, alnum: char -> bool)

  predicate IsIdentChar(a: Alphabet, c: char) {
    a.alnum(c) || c == '_' || c == '-' || c == '.'
  }

  /** Operators are neither white space nor part of a name, a blank is white
      space, and no character is both white space and part of a name. */
  ghost predicate Sensible(a: Alphabet) {
    && (forall c :: c in "&|()+" ==> !a.space(c) && !a.alnum(c))
    && a.space(' ')
    && (forall c :: !(a.space(c) && IsIdentChar(a, c)))
  }

  /** Length of the name at the start of s. */
  function NameLength(a: Alphabet, s: string): (n: nat)
    ensures n <= |s|
    ensures forall k :: 0 <= k < n ==> IsIdentChar(a, s[k])
    ensures n < |s| ==> !IsIdentChar(a, s[n])
  {
    if s == "" || !IsIdentChar(a, s[0]) then 0 else 1 + NameLength(a, s[1..])
  }

  function Before(tokens: seq<Token>, rest: Result<seq<Token>, LexError>): Result<seq<Token>, LexError> {
    if rest.Ok? then Ok(tokens + rest.value) else rest
  }

  function Operator(c: char): Option<Token> {
    if c == '&' then Some(AndTok) else if c == '|' then Some(OrTok)
    else if c == '(' then Some(LParen) else if c == ')' then Some(RParen) else None
  }

  /** What the front of a non-empty text gives: at most one token, and how many
      characters it takes; white space gives no token. */
  function Front(a: Alphabet, s: string): (r: Result<(seq<Token>, nat), LexError>)
    requires s != ""
    ensures r.Ok? ==> 1 <= r.value.1 <= |s|
  {
    if a.space(s[0]) then Ok(([], 1))
    else if Operator(s[0]).Some? then Ok(([Operator(s[0]).value], 1))
    else if s[0] == '+' then
      var n := NameLength(a, s[1..]);
      if n == 0 then Err(ExpectedSetName) else Ok(([RefTok(s[1..][..n])], 1 + n))
    else
      var n := NameLength(a, s);
      if n == 0 then Err(UnexpectedCharacter) else Ok(([Ident(s[..n])], n))
  }

  function Lex(a: Alphabet, s: string): Result<seq<Token>, LexError>
    decreases |s|
  {
    if s == "" then Ok([Eof])
    else if Front(a, s).Err? then Err(Front(a, s).error)
    else Before(Front(a, s).value.0, Lex(a, s[Front(a, s).value.1..]))
  }

  /** Advances past the name that starts at position i. */
  method SkipName(a: Alphabet, s: string, i: nat) returns (j: nat)
    requires i <= |s|
    ensures j == i + NameLength(a, s[i..])
  {
    j := i;
    while j < |s| && IsIdentChar(a, s[j])
      invariant i <= j <= |s|
      invariant i + NameLength(a, s[i..]) == j + NameLength(a, s[j..])
    {
      assert s[j..][1..] == s[j + 1..];
      j := j + 1;
    }
  }

  /** The tokens that start at position i, at most one, and where they end. */
  method NextToken(a: Alphabet, s: string, i: nat) returns (r: Result<(seq<Token>, nat), LexError>)
    requires i < |s|
    ensures r == if Front(a, s[i..]).Err? then Err(Front(a, s[i..]).error)
                 else Ok((Front(a, s[i..]).value.0, i + Front(a, s[i..]).value.1))
  {
    var c := s[i];
    if a.space(c) {
      return Ok(([], i + 1));
    }
    if Operator(c).Some? {
      return Ok(([Operator(c).value], i + 1));
    }
    if c == '+' {
      var j := SkipName(a, s, i + 1);
      assert s[i..][1..] == s[i + 1..];
      if j == i + 1 {
        return Err(ExpectedSetName);
      }
      assert s[i + 1..][..j - i - 1] == s[i + 1..j];
      return Ok(([RefTok(s[i + 1..j])], j));
    }
    var j := SkipName(a, s, i);
    if j == i {
      return Err(UnexpectedCharacter);
    }
    assert s[i..][..j - i] == s[i..j];
    return Ok(([Ident(s[i..j])], j));
  }

  /** One pass over the text by index. */
  method Tokenize(a: Alphabet, s: string) returns (r: Result<seq<Token>, LexError>)
    ensures r == Lex(a, s)
  {
    var tokens: seq<Token> := [];
    var i := 0;
    assert s[0..] == s;
    BeforeNone(Lex(a, s));
    while i < |s|
      invariant i <= |s|
      invariant Lex(a, s) == Before(tokens, Lex(a, s[i..]))
    {
      var next := NextToken(a, s, i);
      if next.Err? {
        return Err(next.error);
      }
      assert s[i..][next.value.1 - i..] == s[next.value.1..];
      BeforeBoth(tokens, next.value.0, Lex(a, s[next.value.1..]));
      tokens, i := tokens + next.value.0, next.value.1;
    }
    assert s[i..] == "";
    return Ok(tokens + [Eof]);
  }

  lemma BeforeNone(rest: Result<seq<Token>, LexError>)
    ensures Before([], rest) == rest
  {
    if rest.Ok? {
      assert [] + rest.value == rest.value;
    }
  }

  lemma BeforeBoth(tokens: seq<Token>, more: seq<Token>, rest: Result<seq<Token>, LexError>)
    ensures Before(tokens, Before(more, rest)) == Before(tokens + more, rest)
  {
    if rest.Ok? {
      assert tokens + (more + rest.value) == (tokens + more) + rest.value;
    }
  }

  // ----- Writing tokens out -----

  function Text(t: Token): string {
    match t
    case Ident(name) => name
    case RefTok(name) => "+" + name
    case AndTok => "&"
    case OrTok => "|"
    case LParen => "("
    case RParen => ")"
    case Eof => ""
  }

  /** Tokens separated by blanks. */
  function Spell(ts: seq<Token>): string {
    if ts == [] then "" else Text(ts[0]) + " " + Spell(ts[1..])
  }

  ghost predicate IsName(a: Alphabet, name: string) {
    name != "" && forall k :: 0 <= k < |name| ==> IsIdentChar(a, name[k])
  }

  ghost predicate Spellable(a: Alphabet, ts: seq<Token>) {
    forall t :: t in ts ==> !t.Eof? && (t.Ident? || t.RefTok? ==> IsName(a, t.name))
  }

  lemma {:induction false} NameThenBlank(a: Alphabet, name: string, rest: string)
    requires Sensible(a) && forall k :: 0 <= k < |name| ==> IsIdentChar(a, name[k])
    ensures NameLength(a, name + " " + rest) == |name|
  {
    if name == "" {
      assert a.space(' ');
    } else {
      assert (name + " " + rest)[1..] == name[1..] + " " + rest;
      NameThenBlank(a, name[1..], rest);
    }
  }

  lemma FrontOfName(a: Alphabet, name: string, rest: string)
    requires Sensible(a) && IsName(a, name)
    ensures Front(a, name + " " + rest) == Ok(([Ident(name)], |name|))
  {
    var s := name + " " + rest;
    NameThenBlank(a, name, rest);
    assert IsIdentChar(a, name[0]) && s[0] == name[0];
    assert '&' in "&|()+" && '|' in "&|()+" && '(' in "&|()+" && ')' in "&|()+" && '+' in "&|()+";
    assert s[..|name|] == name;
  }

  lemma FrontOfRef(a: Alphabet, name: string, rest: string)
    requires Sensible(a) && IsName(a, name)
    ensures Front(a, "+" + name + " " + rest) == Ok(([RefTok(name)], 1 + |name|))
  {
    var s, tail := "+" + name + " " + rest, name + " " + rest;
    NameThenBlank(a, name, rest);
    assert '+' in "&|()+";
    assert s[0] == '+' && s[1..] == tail;
    assert tail[..|name|] == name;
  }

  /** A written token comes back in front, taking exactly its own text. */
  lemma FrontOfText(a: Alphabet, t: Token, rest: string)
    requires Sensible(a) && Spellable(a, [t])
    ensures Front(a, Text(t) + " " + rest) == Ok(([t], |Text(t)|))
  {
    assert t in [t];
    match t {
      case Ident(name) => FrontOfName(a, name, rest);
      case RefTok(name) => FrontOfRef(a, name, rest);
      case AndTok =>
      case OrTok =>
      case LParen =>
      case RParen =>
      case Eof =>
    }
  }

  lemma LexOne(a: Alphabet, t: Token, rest: string)
    requires Sensible(a) && Spellable(a, [t])
    ensures Lex(a, Text(t) + " " + rest) == Before([t], Lex(a, rest))
  {
    FrontOfText(a, t, rest);
    assert (Text(t) + " " + rest)[|Text(t)|..] == " " + rest;
    assert Front(a, " " + rest) == Ok(([], 1)) && (" " + rest)[1..] == rest;
    BeforeNone(Lex(a, rest));
  }

  lemma LexSpellCons(a: Alphabet, t: Token, ts: seq<Token>)
    requires Sensible(a) && Spellable(a, [t]) && Lex(a, Spell(ts)) == Ok(ts + [Eof])
    ensures Lex(a, Spell([t] + ts)) == Ok([t] + ts + [Eof])
  {
    LexOne(a, t, Spell(ts));
    assert [t] + (ts + [Eof]) == [t] + ts + [Eof];
  }

  /** Tokens written out and read back are the same tokens. */
  lemma {:induction false} LexSpell(a: Alphabet, ts: seq<Token>)
    requires Sensible(a) && Spellable(a, ts)
    ensures Lex(a, Spell(ts)) == Ok(ts + [Eof])
  {
    if ts == [] {
      assert ts + [Eof] == [Eof];
    } else {
      assert ts[0] in ts && ts == [ts[0]] + ts[1..];
      LexSpell(a, ts[1..]);
      LexSpellCons(a, ts[0], ts[1..]);
    }
  }

  /** The end mark is last and only there, and names are runs of name characters. */
  ghost predicate WellLexed(a: Alphabet, ts: seq<Token>) {
    ts != [] && ts[|ts| - 1] == Eof && Spellable(a, ts[..|ts| - 1])
  }

  lemma FrontIsSpellable(a: Alphabet, s: string)
    requires s != "" && Front(a, s).Ok?
    ensures Spellable(a, Front(a, s).value.0)
  {
  }

  lemma {:induction false} LexWellFormed(a: Alphabet, s: string)
    requires Lex(a, s).Ok?
    ensures WellLexed(a, Lex(a, s).value)
    decreases |s|
  {
    if s == "" {
    } else {
      var rest := s[Front(a, s).value.1..];
      LexWellFormed(a, rest);
      FrontIsSpellable(a, s);
    }
  }

  // ----- Nothing is lost and nothing invented -----

  function Unspaced(a: Alphabet, s: string): string {
    if s == "" then "" else (if a.space(s[0]) then "" else [s[0]]) + Unspaced(a, s[1..])
  }

  function Joined(ts: seq<Token>): string {
    if ts == [] then "" else Text(ts[0]) + Joined(ts[1..])
  }

  lemma {:induction false} UnspacedSplits(a: Alphabet, s: string, n: nat)
    requires n <= |s| && forall k :: 0 <= k < n ==> !a.space(s[k])
    ensures Unspaced(a, s) == s[..n] + Unspaced(a, s[n..])
    decreases n
  {
    if n == 0 {
      assert s[..0] == "" && s[0..] == s;
    } else {
      UnspacedSplits(a, s[1..], n - 1);
      assert s[1..][n - 1..] == s[n..] && s[..n] == [s[0]] + s[1..][..n - 1];
    }
  }

  /** A token from the front of a text is spelled as the text begins. */
  lemma FrontSpelled(a: Alphabet, s: string)
    requires Sensible(a) && s != "" && Front(a, s).Ok?
    ensures var (ts, n) := Front(a, s).value;
            && |ts| <= 1 && Unspaced(a, s) == Joined(ts) + Unspaced(a, s[n..])
            && (forall t :: t in ts ==> t != Eof && Text(t) != "")
  {
    var (ts, n) := Front(a, s).value;
    if !a.space(s[0]) {
      assert s[0] == '+' ==> s[0] in "&|()+";
      assert Operator(s[0]).Some? ==> s[0] in "&|()+";
      if s[0] == '+' {
        assert s[..n] == "+" + s[1..][..n - 1];
      }
      UnspacedSplits(a, s, n);
      assert ts[1..] == [] && Joined(ts) == Text(ts[0]) + "" == s[..n];
    }
  }

  lemma JoinedAppend(front: seq<Token>, ts: seq<Token>)
    requires |front| <= 1
    ensures Joined(front + ts) == Joined(front) + Joined(ts)
  {
    if front == [] {
      assert front + ts == ts;
    } else {
      assert (front + ts)[1..] == ts && front[1..] == [];
    }
  }

  /** The tokens of a text, written one after another, are the text without its white
      space. */
  lemma {:induction false} LexKeepsText(a: Alphabet, s: string)
    requires Sensible(a) && Lex(a, s).Ok?
    ensures Joined(Lex(a, s).value) == Unspaced(a, s)
    decreases |s|
  {
    if s == "" {
      assert [Eof][1..] == [];
    } else {
      var (ts, n) := Front(a, s).value;
      FrontSpelled(a, s);
      LexKeepsText(a, s[n..]);
      JoinedAppend(ts, Lex(a, s[n..]).value);
    }
  }

  /** Character k can begin or continue a token: white space, an operator, part of a
      name, or a plus before a name. */
  predicate Fits(a: Alphabet, s: string, k: nat)
    requires k < |s|
  {
    a.space(s[k]) || s[k] in "&|()" || IsIdentChar(a, s[k]) || (s[k] == '+' && k + 1 < |s| && IsIdentChar(a, s[k + 1]))
  }

  lemma FrontFits(a: Alphabet, s: string)
    requires Sensible(a) && s != ""
    ensures Front(a, s).Ok? <==> Fits(a, s, 0)
    ensures Front(a, s).Ok? ==> forall k :: 0 <= k < Front(a, s).value.1 ==> Fits(a, s, k)
    ensures Front(a, s).Err? ==> Front(a, s).error == if s[0] == '+' then ExpectedSetName else UnexpectedCharacter
  {
    assert forall c :: Operator(c).Some? <==> c in "&|()";
    assert s[0] == '+' ==> s[0] in "&|()+";
    if s[0] == '+' && |s| > 1 {
      assert s[1..][0] == s[1];
    }
    if Front(a, s).Ok? {
      var n := Front(a, s).value.1;
      forall k | 0 <= k < n ensures Fits(a, s, k) {
        if k > 0 && s[0] == '+' {
          assert s[k] == s[1..][k - 1];
        }
      }
    }
  }

  ghost predicate AllFit(a: Alphabet, s: string) {
    forall k :: 0 <= k < |s| ==> Fits(a, s, k)
  }

  /** The first character that does not fit explains the error. */
  ghost predicate FirstMisfit(a: Alphabet, s: string, k: nat, e: LexError) {
    && k < |s| && !Fits(a, s, k) && (forall j :: 0 <= j < k ==> Fits(a, s, j))
    && e == if s[k] == '+' then ExpectedSetName else UnexpectedCharacter
  }

  lemma LaterFits(a: Alphabet, s: string, n: nat)
    requires n <= |s| && forall k :: 0 <= k < n ==> Fits(a, s, k)
    ensures AllFit(a, s) <==> AllFit(a, s[n..])
    ensures forall k: nat, e :: FirstMisfit(a, s[n..], k, e) ==> FirstMisfit(a, s, n + k, e)
  {
    forall k | 0 <= k < |s| - n ensures Fits(a, s[n..], k) <==> Fits(a, s, n + k) {
      assert s[n..][k] == s[n + k];
      if k + 1 < |s| - n {
        assert s[n..][k + 1] == s[n + k + 1];
      }
    }
    forall k | n <= k < |s| ensures Fits(a, s, k) <==> Fits(a, s[n..], k - n) {
      assert n + (k - n) == k;
    }
  }

  /** A text has tokens exactly when every character fits; the error tells of the
      first that does not: a plus without a name, or another character. */
  lemma {:induction false} LexFailsExactly(a: Alphabet, s: string)
    requires Sensible(a)
    ensures Lex(a, s).Ok? <==> AllFit(a, s)
    ensures Lex(a, s).Err? ==> exists k :: FirstMisfit(a, s, k, Lex(a, s).error)
    decreases |s|
  {
    if s == "" {
    } else {
      FrontFits(a, s);
      if Front(a, s).Ok? {
        var n := Front(a, s).value.1;
        LexFailsExactly(a, s[n..]);
        LaterFits(a, s, n);
        if Lex(a, s).Err? {
          var k :| FirstMisfit(a, s[n..], k, Lex(a, s[n..]).error);
          assert FirstMisfit(a, s, n + k, Lex(a, s).error);
        }
      } else {
        assert FirstMisfit(a, s, 0, Lex(a, s).error);
      }
    }
  }
}
