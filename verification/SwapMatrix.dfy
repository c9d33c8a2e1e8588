/** Validation of a swap-matrix configuration and expansion of its sets. */
module SwapMatrix {
  import opened Wrappers
  import opened DslLexer
  import opened DslGrammar
  import opened DslExpand
  import opened DslCompile
  import opened ModelNames
  import opened TopoSort

  datatype SetEntry = SetEntry(name: string, dsl: string)

  datatype MatrixConfig = MatrixConfig(vars: map<string, string>, evictCosts: map<string, int>, sets: seq<SetEntry>)

  datatype MatrixError =
    | NoSets | NoVars | BadVarKey(id: string) | UnknownModel(id: string)
    | BadCost(key: string) | UnknownCostVar(key: string)
    | BadTokens(setName: string, lex: LexError) | UndefinedSet(setName: string, ref: string) | CircularReference
    | BadExpression(setName: string, dslError: DslError) | UnknownVar(setName: string) | TooManyCombinations

  // ----- What a valid configuration is -----

  /** One to eight letters or digits. */
  predicate IsVarKey(id: string) {
    1 <= |id| <= 8 && forall i :: 0 <= i < |id| ==> '0' <= id[i] <= '9' || 'a' <= id[i] <= 'z' || 'A' <= id[i] <= 'Z'
  }

  ghost predicate VarsValid(cfg: MatrixConfig, models: set<string>) {
    cfg.vars != map[] && forall id :: id in cfg.vars ==> IsVarKey(id) && cfg.vars[id] in models
  }

  ghost predicate CostsValid(cfg: MatrixConfig) {
    forall k :: k in cfg.evictCosts ==> cfg.evictCosts[k] > 0 && k in cfg.vars
  }

  /** The expression of each set; a later entry of the same name replaces an earlier one. */
  function Expressions(sets: seq<SetEntry>): (m: map<string, string>)
    ensures forall n :: n in m <==> exists e :: e in sets && e.name == n
  {
    if sets == [] then map[]
    else
      var last := sets[|sets| - 1];
      assert sets == sets[..|sets| - 1] + [last];
      Expressions(sets[..|sets| - 1])[last.name := last.dsl]
  }

  ghost predicate RefsIn(a: Alphabet, e: SetEntry, names: set<string>) {
    Lex(a, e.dsl).Ok? && forall s :: s in ReferredTo(Lex(a, e.dsl).value) ==> s in names
  }

  ghost predicate RefsDefined(a: Alphabet, sets: seq<SetEntry>, names: set<string>) {
    forall i :: 0 <= i < |sets| ==> RefsIn(a, sets[i], names)
  }

  function RefsOf(a: Alphabet, dsl: string): seq<string> {
    if Lex(a, dsl).Ok? then ReferredTo(Lex(a, dsl).value) else []
  }

  function References(a: Alphabet, sets: seq<SetEntry>): Graph {
    var m := Expressions(sets);
    map n | n in m :: RefsOf(a, m[n])
  }

  ghost predicate WellFormed(a: Alphabet, cfg: MatrixConfig, models: set<string>) {
    && cfg.sets != [] && VarsValid(cfg, models) && CostsValid(cfg)
    && RefsDefined(a, cfg.sets, Expressions(cfg.sets).Keys)
    && !Cyclic(References(a, cfg.sets))
  }

  /** A table in which every set's combinations are what its own expression
      compiles to, references being read from the same table. */
  ghost predicate Solves(a: Alphabet, m: map<string, string>, t: RefTable) {
    t.Keys == m.Keys && forall n :: n in m ==> Compile(a, m[n], t) == Ok(t[n])
  }

  predicate Known(vars: map<string, string>, combo: Combo) {
    forall i :: 0 <= i < |combo| ==> combo[i] in vars
  }

  ghost predicate AllKnown(vars: map<string, string>, t: RefTable) {
    forall n, c :: n in t && c in t[n] ==> Known(vars, c)
  }

  /** Combinations of the given sets taken together. */
  ghost function Total(names: set<string>, t: RefTable): nat
    requires names <= t.Keys
  {
    if names == {} then 0
    else
      var n :| n in names;
      |t[n]| + Total(names - {n}, t)
  }

  ghost predicate Fits(a: Alphabet, cfg: MatrixConfig, t: RefTable) {
    Solves(a, Expressions(cfg.sets), t) && AllKnown(cfg.vars, t) && Total(t.Keys, t) <= MAX_EXPANSIONS
  }

  /** The real model names of a combination, sorted. */
  function ModelsOf(vars: map<string, string>, combo: Combo): seq<string>
    requires Known(vars, combo)
  {
    Sort(seq(|combo|, i requires 0 <= i < |combo| => vars[combo[i]]))
  }

  /** x is a combination of set n under real model names. */
  ghost predicate Listed(cfg: MatrixConfig, t: RefTable, n: string, x: ExpandedSet) {
    && n in t && n in Expressions(cfg.sets) && x.name == n && x.dsl == Expressions(cfg.sets)[n]
    && exists c :: c in t[n] && Known(cfg.vars, c) && x.models == ModelsOf(cfg.vars, c)
  }

  // ----- Laws of the table -----

  lemma {:induction false} TotalRemove(names: set<string>, t: RefTable, n: string)
    requires names <= t.Keys && n in names
    ensures Total(names, t) == |t[n]| + Total(names - {n}, t)
    decreases names
  {
    var first :| first in names && Total(names, t) == |t[first]| + Total(names - {first}, t);
    if first != n {
      TotalRemove(names - {first}, t, n);
      TotalRemove(names - {n}, t, first);
      assert names - {first} - {n} == names - {n} - {first};
    }
  }

  lemma {:induction false} TotalAgrees(names: set<string>, t: RefTable, u: RefTable)
    requires names <= t.Keys && names <= u.Keys && forall n :: n in names ==> t[n] == u[n]
    ensures Total(names, t) == Total(names, u)
    decreases names
  {
    if n :| n in names {
      TotalRemove(names, t, n);
      TotalRemove(names, u, n);
      TotalAgrees(names - {n}, t, u);
    }
  }

  lemma {:induction false} TotalGrows(some: set<string>, all: set<string>, t: RefTable)
    requires some <= all <= t.Keys
    ensures Total(some, t) <= Total(all, t)
    decreases all
  {
    if some != all {
      assert all == some + (all - some) && all - some != {};
      var n :| n in all - some;
      TotalRemove(all, t, n);
      TotalGrows(some, all - {n}, t);
    }
  }

  /** Sets resolved so far, each from sets resolved too. */
  ghost predicate Partial(a: Alphabet, m: map<string, string>, t: RefTable) {
    && t.Keys <= m.Keys && NonEmpty(t)
    && (forall n :: n in t ==> Compile(a, m[n], t) == Ok(t[n]))
    && (forall n :: n in t ==> Resolvable(a, m[n], t))
  }

  ghost predicate Resolvable(a: Alphabet, dsl: string, t: RefTable) {
    Lex(a, dsl).Ok? && forall s :: s in RefsOf(a, dsl) ==> s in t
  }

  lemma Extend(a: Alphabet, m: map<string, string>, t: RefTable, n: string, combos: seq<Combo>)
    requires Sensible(a) && Partial(a, m, t) && n in m && n !in t && Resolvable(a, m[n], t)
    requires Compile(a, m[n], t) == Ok(combos)
    ensures Partial(a, m, t[n := combos])
  {
    var u := t[n := combos];
    CompilesExactly(a, m[n], t, []);
    forall k | k in u ensures Compile(a, m[k], u) == Ok(u[k]) && Resolvable(a, m[k], u) {
      CompileReads(a, m[k], t, u);
    }
  }

  ghost predicate Agrees(t: RefTable, u: RefTable) {
    forall n :: n in t ==> n in u && u[n] == t[n]
  }

  /** A solution that agrees with what is resolved so far also gives the next set. */
  lemma Forced(a: Alphabet, m: map<string, string>, t: RefTable, n: string, u: RefTable)
    requires Sensible(a) && Solves(a, m, u) && Agrees(t, u) && n in m && Resolvable(a, m[n], t)
    ensures Compile(a, m[n], t) == Ok(u[n])
  {
    CompileReads(a, m[n], t, u);
  }

  // ----- What each error says -----

  /** A short name that is malformed or stands for no model. */
  ghost predicate BadVar(cfg: MatrixConfig, models: set<string>, e: MatrixError) {
    match e
    case BadVarKey(id) => id in cfg.vars && !IsVarKey(id)
    case UnknownModel(id) => id in cfg.vars && IsVarKey(id) && cfg.vars[id] !in models
    case _ => false
  }

  /** A cost that is not positive or belongs to no short name. */
  ghost predicate BadCosts(cfg: MatrixConfig, e: MatrixError) {
    match e
    case BadCost(k) => k in cfg.evictCosts && cfg.evictCosts[k] <= 0
    case UnknownCostVar(k) => k in cfg.evictCosts && cfg.evictCosts[k] > 0 && k !in cfg.vars
    case _ => false
  }

  /** A set whose text has no tokens, or which mentions a set that is not there. */
  ghost predicate BadEntry(a: Alphabet, entry: SetEntry, names: set<string>, e: MatrixError) {
    match e
    case BadTokens(n, lex) => n == entry.name && Lex(a, entry.dsl) == Err(lex)
    case UndefinedSet(n, s) =>
      n == entry.name && Lex(a, entry.dsl).Ok? && RefTok(s) in Lex(a, entry.dsl).value && s !in names
    case _ => false
  }

  ghost predicate BadReference(a: Alphabet, sets: seq<SetEntry>, e: MatrixError) {
    exists i :: 0 <= i < |sets| && BadEntry(a, sets[i], Expressions(sets).Keys, e)
  }

  /** With the table resolved so far, a further set does not compile, gives a
      combination with an undeclared name, or is one too many. */
  ghost predicate FailsAt(a: Alphabet, cfg: MatrixConfig, t: RefTable, e: MatrixError) {
    && t.Keys < Expressions(cfg.sets).Keys && TableDone(a, cfg, t.Keys, t)
    && exists n ::
         && n in Expressions(cfg.sets) && n !in t && Resolvable(a, Expressions(cfg.sets)[n], t)
         && SetFails(cfg, t, n, Compile(a, Expressions(cfg.sets)[n], t), e)
  }

  ghost predicate SetFails(cfg: MatrixConfig, t: RefTable, n: string, combos: Result<seq<Combo>, DslError>,
      e: MatrixError) {
    match e
    case BadExpression(name, d) => name == n && combos == Err(d) && (d.ExpandFailed? ==> d.expand.TooMany?)
    case UnknownVar(name) => name == n && combos.Ok? && exists c :: c in combos.value && !Known(cfg.vars, c)
    case TooManyCombinations =>
      && combos.Ok? && (forall c :: c in combos.value ==> Known(cfg.vars, c))
      && Total(t.Keys, t) + |combos.value| > MAX_EXPANSIONS
    case _ => false
  }

  /** Each error means what it says, and is reported only when nothing checked
      before it is wrong. */
  ghost predicate Truthful(a: Alphabet, cfg: MatrixConfig, models: set<string>, t: RefTable, e: MatrixError) {
    match e
    case NoSets => cfg.sets == []
    case NoVars => cfg.sets != [] && cfg.vars == map[]
    case BadVarKey(_) => cfg.sets != [] && BadVar(cfg, models, e)
    case UnknownModel(_) => cfg.sets != [] && BadVar(cfg, models, e)
    case BadCost(_) => cfg.sets != [] && VarsValid(cfg, models) && BadCosts(cfg, e)
    case UnknownCostVar(_) => cfg.sets != [] && VarsValid(cfg, models) && BadCosts(cfg, e)
    case BadTokens(_, _) => VarsValid(cfg, models) && CostsValid(cfg) && BadReference(a, cfg.sets, e)
    case UndefinedSet(_, _) => VarsValid(cfg, models) && CostsValid(cfg) && BadReference(a, cfg.sets, e)
    case CircularReference =>
      && VarsValid(cfg, models) && CostsValid(cfg)
      && RefsDefined(a, cfg.sets, Expressions(cfg.sets).Keys) && Cyclic(References(a, cfg.sets))
    case _ => WellFormed(a, cfg, models) && FailsAt(a, cfg, t, e)
  }

  // ----- Validation -----

  method CheckVars(cfg: MatrixConfig, models: set<string>) returns (e: Option<MatrixError>)
    requires cfg.vars != map[]
    ensures e.None? <==> VarsValid(cfg, models)
    ensures e.Some? ==> BadVar(cfg, models, e.value)
  {
    var rest := cfg.vars.Keys;
    while rest != {}
      invariant rest <= cfg.vars.Keys
      invariant forall id :: id in cfg.vars && id !in rest ==> IsVarKey(id) && cfg.vars[id] in models
      decreases rest
    {
      var id :| id in rest;
      if !IsVarKey(id) {
        return Some(BadVarKey(id));
      }
      if cfg.vars[id] !in models {
        return Some(UnknownModel(id));
      }
      rest := rest - {id};
    }
    return None;
  }

  method CheckCosts(cfg: MatrixConfig) returns (e: Option<MatrixError>)
    ensures e.None? <==> CostsValid(cfg)
    ensures e.Some? ==> BadCosts(cfg, e.value)
  {
    var rest := cfg.evictCosts.Keys;
    while rest != {}
      invariant rest <= cfg.evictCosts.Keys
      invariant forall k :: k in cfg.evictCosts && k !in rest ==> cfg.evictCosts[k] > 0 && k in cfg.vars
      decreases rest
    {
      var k :| k in rest;
      if cfg.evictCosts[k] <= 0 {
        return Some(BadCost(k));
      }
      if k !in cfg.vars {
        return Some(UnknownCostVar(k));
      }
      rest := rest - {k};
    }
    return None;
  }

  method SetNames(sets: seq<SetEntry>) returns (names: set<string>)
    ensures names == Expressions(sets).Keys
  {
    names := {};
    for i := 0 to |sets|
      invariant names == Expressions(sets[..i]).Keys
    {
      assert sets[..i + 1][..i] == sets[..i];
      names := names + {sets[i].name};
    }
    assert sets[..|sets|] == sets;
  }

  /** The references of one entry, which must all be to named sets. */
  method EntryRefs(a: Alphabet, e: SetEntry, names: set<string>) returns (r: Result<seq<string>, MatrixError>)
    ensures r.Ok? <==> RefsIn(a, e, names)
    ensures r.Ok? ==> r.value == RefsOf(a, e.dsl)
    ensures r.Err? ==> BadEntry(a, e, names, r.error)
  {
    var refs := ExtractRefs(a, e.dsl);
    if refs.Err? {
      return Err(BadTokens(e.name, refs.error));
    }
    for j := 0 to |refs.value|
      invariant forall k :: 0 <= k < j ==> refs.value[k] in names
    {
      if refs.value[j] !in names {
        ReferredToIsExact(Lex(a, e.dsl).value);
        return Err(UndefinedSet(e.name, refs.value[j]));
      }
    }
    return Ok(refs.value);
  }

  lemma ReferencesLast(a: Alphabet, sets: seq<SetEntry>, e: SetEntry)
    ensures References(a, sets + [e]) == References(a, sets)[e.name := RefsOf(a, e.dsl)]
  {
    assert (sets + [e])[..|sets|] == sets;
  }

  /** The reference graph of the sets, once every reference is known to be defined. */
  method BuildGraph(a: Alphabet, sets: seq<SetEntry>) returns (r: Result<Graph, MatrixError>)
    ensures r.Ok? <==> RefsDefined(a, sets, Expressions(sets).Keys)
    ensures r.Ok? ==> r.value == References(a, sets)
    ensures r.Err? ==> BadReference(a, sets, r.error)
  {
    var names := SetNames(sets);
    var deps: Graph := map[];
    for i := 0 to |sets|
      invariant deps == References(a, sets[..i])
      invariant forall k :: 0 <= k < i ==> RefsIn(a, sets[k], names)
    {
      var refs := EntryRefs(a, sets[i], names);
      if refs.Err? {
        return Err(refs.error);
      }
      assert sets[..i + 1] == sets[..i] + [sets[i]];
      ReferencesLast(a, sets[..i], sets[i]);
      deps := deps[sets[i].name := refs.value];
    }
    assert sets[..|sets|] == sets;
    return Ok(deps);
  }

  method ResolveCombo(vars: map<string, string>, combo: Combo) returns (r: Option<seq<string>>)
    ensures r == if Known(vars, combo) then Some(ModelsOf(vars, combo)) else None
  {
    var resolved: seq<string> := [];
    for i := 0 to |combo|
      invariant |resolved| == i
      invariant forall k :: 0 <= k < i ==> combo[k] in vars && resolved[k] == vars[combo[k]]
    {
      if combo[i] !in vars {
        return None;
      }
      resolved := resolved + [vars[combo[i]]];
    }
    assert resolved == seq(|combo|, i requires 0 <= i < |combo| => vars[combo[i]]);
    return Some(Sort(resolved));
  }

  /** The rows of set n are its combinations under real model names. */
  ghost predicate RowsOfSet(cfg: MatrixConfig, n: string, combos: seq<Combo>, more: seq<ExpandedSet>)
    requires n in Expressions(cfg.sets)
  {
    && |more| == |combos|
    && forall i :: 0 <= i < |combos| ==>
         Known(cfg.vars, combos[i])
         && more[i] == ExpandedSet(n, Expressions(cfg.sets)[n], ModelsOf(cfg.vars, combos[i]))
  }

  /** All combinations of one set under real model names, or nothing when one of
      them uses an unknown name. */
  method ResolveSet(cfg: MatrixConfig, n: string, combos: seq<Combo>) returns (r: Option<seq<ExpandedSet>>)
    requires n in Expressions(cfg.sets)
    ensures r.Some? <==> forall c :: c in combos ==> Known(cfg.vars, c)
    ensures r.Some? ==> RowsOfSet(cfg, n, combos, r.value)
  {
    var dsl := Expressions(cfg.sets)[n];
    var rows: seq<ExpandedSet> := [];
    for i := 0 to |combos|
      invariant |rows| == i
      invariant forall k :: 0 <= k < i ==>
        Known(cfg.vars, combos[k]) && rows[k] == ExpandedSet(n, dsl, ModelsOf(cfg.vars, combos[k]))
    {
      var models := ResolveCombo(cfg.vars, combos[i]);
      if models.None? {
        assert combos[i] in combos;
        return None;
      }
      rows := rows + [ExpandedSet(n, dsl, models.value)];
    }
    return Some(rows);
  }

  /** The rows are exactly the combinations of the resolved sets. */
  ghost predicate RowsFor(cfg: MatrixConfig, t: RefTable, rows: seq<ExpandedSet>) {
    forall x :: x in rows <==> exists n :: Listed(cfg, t, n, x)
  }

  /** The rows are those of the listed sets, one set after the other. */
  ghost predicate InOrder(cfg: MatrixConfig, order: seq<string>, t: RefTable, rows: seq<ExpandedSet>) {
    if order == [] then rows == []
    else
      var n := order[|order| - 1];
      && n in t && n in Expressions(cfg.sets) && |t[n]| <= |rows|
      && RowsOfSet(cfg, n, t[n], rows[|rows| - |t[n]|..])
      && InOrder(cfg, order[..|order| - 1], t, rows[..|rows| - |t[n]|])
  }

  lemma {:induction false} InOrderStill(cfg: MatrixConfig, order: seq<string>, t: RefTable, rows: seq<ExpandedSet>,
      n: string, combos: seq<Combo>)
    requires InOrder(cfg, order, t, rows) && n !in order
    ensures InOrder(cfg, order, t[n := combos], rows)
  {
    if order != [] {
      var last := order[|order| - 1];
      InOrderStill(cfg, order[..|order| - 1], t, rows[..|rows| - |t[last]|], n, combos);
    }
  }

  lemma InOrderMore(cfg: MatrixConfig, order: seq<string>, t: RefTable, rows: seq<ExpandedSet>, n: string,
      combos: seq<Combo>, more: seq<ExpandedSet>)
    requires InOrder(cfg, order, t, rows) && n !in order
    requires n in Expressions(cfg.sets) && RowsOfSet(cfg, n, combos, more)
    ensures InOrder(cfg, order + [n], t[n := combos], rows + more)
  {
    InOrderStill(cfg, order, t, rows, n, combos);
    var all := rows + more;
    assert (order + [n])[..|order|] == order;
    assert all[|all| - |combos|..] == more && all[..|all| - |combos|] == rows;
  }

  /** The sets are listed in the order of their declarations, except that references
      come first. */
  ghost predicate SetOrder(a: Alphabet, sets: seq<SetEntry>, order: seq<string>) {
    && NoRepeats(order) && DepsFirst(References(a, sets), order)
    && InTurn(References(a, sets), NamesOf(sets), order)
    && forall n :: n in order <==> n in Expressions(sets)
  }

  function NamesOf(sets: seq<SetEntry>): seq<string> {
    seq(|sets|, i requires 0 <= i < |sets| => sets[i].name)
  }

  lemma RowsGrow(cfg: MatrixConfig, t: RefTable, rows: seq<ExpandedSet>, n: string, combos: seq<Combo>,
      more: seq<ExpandedSet>)
    requires RowsFor(cfg, t, rows) && n !in t && n in Expressions(cfg.sets) && RowsOfSet(cfg, n, combos, more)
    ensures RowsFor(cfg, t[n := combos], rows + more)
  {
    var u := t[n := combos];
    forall x ensures x in rows + more <==> exists k :: Listed(cfg, u, k, x) {
      if x in rows {
        var k :| Listed(cfg, t, k, x);
        assert Listed(cfg, u, k, x);
      }
      if x in more {
        var i :| 0 <= i < |more| && more[i] == x;
        assert combos[i] in u[n];
        assert Listed(cfg, u, n, x);
      }
      if k :| Listed(cfg, u, k, x) {
        if k == n {
          var c :| c in u[n] && Known(cfg.vars, c) && x.models == ModelsOf(cfg.vars, c);
          var i :| 0 <= i < |combos| && combos[i] == c;
          assert more[i] == x;
        } else {
          assert Listed(cfg, t, k, x);
        }
      }
    }
  }

  // ----- Expanding the sets in order -----

  /** The sets of done are expanded, in the only way any solution could have them. */
  ghost predicate TableDone(a: Alphabet, cfg: MatrixConfig, done: set<string>, t: RefTable) {
    && t.Keys == done && Partial(a, Expressions(cfg.sets), t) && AllKnown(cfg.vars, t)
    && (forall u :: Solves(a, Expressions(cfg.sets), u) ==> Agrees(t, u))
  }

  ghost predicate RowsDone(cfg: MatrixConfig, done: set<string>, t: RefTable, rows: seq<ExpandedSet>) {
    t.Keys == done && RowsFor(cfg, t, rows) && |rows| == Total(done, t) <= MAX_EXPANSIONS
  }

  /** Everything known after expanding the sets of done. */
  ghost predicate Progress(a: Alphabet, cfg: MatrixConfig, done: set<string>, t: RefTable, rows: seq<ExpandedSet>) {
    TableDone(a, cfg, done, t) && RowsDone(cfg, done, t, rows)
  }

  lemma ProgressStarts(a: Alphabet, cfg: MatrixConfig)
    ensures Progress(a, cfg, {}, map[], [])
  {
    assert Total({}, map[]) == 0;
  }

  lemma TotalContinues(done: set<string>, t: RefTable, n: string, combos: seq<Combo>)
    requires t.Keys == done && n !in done
    ensures Total(done + {n}, t[n := combos]) == Total(done, t) + |combos|
  {
    var u := t[n := combos];
    TotalRemove(done + {n}, u, n);
    assert done + {n} - {n} == done;
    TotalAgrees(done, t, u);
  }

  lemma ForcedContinues(a: Alphabet, m: map<string, string>, t: RefTable, n: string, combos: seq<Combo>, w: RefTable)
    requires Sensible(a) && Solves(a, m, w) && Agrees(t, w) && n in m && Resolvable(a, m[n], t)
    requires Compile(a, m[n], t) == Ok(combos)
    ensures Agrees(t[n := combos], w)
  {
    Forced(a, m, t, n, w);
  }

  lemma KnownContinues(cfg: MatrixConfig, t: RefTable, n: string, combos: seq<Combo>)
    requires AllKnown(cfg.vars, t) && forall i :: 0 <= i < |combos| ==> Known(cfg.vars, combos[i])
    ensures AllKnown(cfg.vars, t[n := combos])
  {
  }

  lemma TableContinues(a: Alphabet, cfg: MatrixConfig, done: set<string>, t: RefTable, n: string, combos: seq<Combo>)
    requires Sensible(a) && TableDone(a, cfg, done, t) && n in Expressions(cfg.sets) && n !in done
    requires Resolvable(a, Expressions(cfg.sets)[n], t) && Compile(a, Expressions(cfg.sets)[n], t) == Ok(combos)
    requires forall i :: 0 <= i < |combos| ==> Known(cfg.vars, combos[i])
    ensures TableDone(a, cfg, done + {n}, t[n := combos])
  {
    Extend(a, Expressions(cfg.sets), t, n, combos);
    KnownContinues(cfg, t, n, combos);
    forall w | Solves(a, Expressions(cfg.sets), w) ensures Agrees(t[n := combos], w) {
      ForcedContinues(a, Expressions(cfg.sets), t, n, combos, w);
    }
  }

  lemma RowsContinue(cfg: MatrixConfig, done: set<string>, t: RefTable, rows: seq<ExpandedSet>,
                     n: string, combos: seq<Combo>, more: seq<ExpandedSet>)
    requires RowsDone(cfg, done, t, rows) && n in Expressions(cfg.sets) && n !in done
    requires RowsOfSet(cfg, n, combos, more) && |rows| + |combos| <= MAX_EXPANSIONS
    ensures RowsDone(cfg, done + {n}, t[n := combos], rows + more)
  {
    RowsGrow(cfg, t, rows, n, combos, more);
    TotalContinues(done, t, n, combos);
  }

  /** No table fits when the next set fails to compile, uses an unknown name or
      brings the total over the limit. */
  lemma NothingFits(a: Alphabet, cfg: MatrixConfig, done: set<string>, t: RefTable, rows: seq<ExpandedSet>, n: string,
      w: RefTable)
    requires Sensible(a) && Progress(a, cfg, done, t, rows) && n in Expressions(cfg.sets) && n !in done
    requires Resolvable(a, Expressions(cfg.sets)[n], t)
    requires var r := Compile(a, Expressions(cfg.sets)[n], t);
      r.Err? || (exists c :: c in r.value && !Known(cfg.vars, c)) || |rows| + |r.value| > MAX_EXPANSIONS
    ensures !Fits(a, cfg, w)
  {
    if Fits(a, cfg, w) {
      Forced(a, Expressions(cfg.sets), t, n, w);
      TotalRemove(done + {n}, w, n);
      assert done + {n} - {n} == done;
      TotalAgrees(done, t, w);
      TotalGrows(done + {n}, w.Keys, w);
    }
  }

  ghost predicate SomethingFits(a: Alphabet, cfg: MatrixConfig) {
    exists w :: Fits(a, cfg, w)
  }

  ghost predicate ExpandsTo(cfg: MatrixConfig, n: string, t: RefTable, rows: seq<ExpandedSet>, combos: seq<Combo>,
      more: seq<ExpandedSet>, u: RefTable, all: seq<ExpandedSet>) {
    u == t[n := combos] && all == rows + more && n in Expressions(cfg.sets) && RowsOfSet(cfg, n, combos, more)
  }

  ghost predicate Expands(cfg: MatrixConfig, n: string, t: RefTable, rows: seq<ExpandedSet>, u: RefTable,
      all: seq<ExpandedSet>) {
    exists combos, more :: ExpandsTo(cfg, n, t, rows, combos, more, u, all)
  }

  lemma NextInOrder(cfg: MatrixConfig, order: seq<string>, i: nat, t: RefTable, rows: seq<ExpandedSet>, u: RefTable,
      all: seq<ExpandedSet>)
    requires i < |order| && NoRepeats(order) && InOrder(cfg, order[..i], t, rows)
    requires Expands(cfg, order[i], t, rows, u, all)
    ensures InOrder(cfg, order[..i + 1], u, all)
  {
    var combos, more :| ExpandsTo(cfg, order[i], t, rows, combos, more, u, all);
    InOrderMore(cfg, order[..i], t, rows, order[i], combos, more);
    assert order[..i + 1] == order[..i] + [order[i]];
  }

  /** Expands one set whose references are resolved. */
  method ExpandOne(a: Alphabet, cfg: MatrixConfig, n: string, resolved: RefTable, rows: seq<ExpandedSet>,
      ghost done: set<string>)
    returns (r: Result<(RefTable, seq<ExpandedSet>), MatrixError>)
    requires Sensible(a) && Progress(a, cfg, done, resolved, rows) && n in Expressions(cfg.sets) && n !in done
    requires Resolvable(a, Expressions(cfg.sets)[n], resolved)
    ensures r.Ok? ==> Progress(a, cfg, done + {n}, r.value.0, r.value.1)
    ensures r.Ok? ==> Expands(cfg, n, resolved, rows, r.value.0, r.value.1)
    ensures r.Err? ==> !SomethingFits(a, cfg) && FailsAt(a, cfg, resolved, r.error)
  {
    var combos := ParseAndExpand(a, Expressions(cfg.sets)[n], resolved);
    if combos.Err? {
      CompileReads(a, Expressions(cfg.sets)[n], resolved, resolved);
      forall w ensures !Fits(a, cfg, w) { NothingFits(a, cfg, done, resolved, rows, n, w); }
      return Err(BadExpression(n, combos.error));
    }
    var more := ResolveSet(cfg, n, combos.value);
    if more.None? || |rows| + |combos.value| > MAX_EXPANSIONS {
      forall w ensures !Fits(a, cfg, w) { NothingFits(a, cfg, done, resolved, rows, n, w); }
      return Err(if more.None? then UnknownVar(n) else TooManyCombinations);
    }
    TableContinues(a, cfg, done, resolved, n, combos.value);
    RowsContinue(cfg, done, resolved, rows, n, combos.value, more.value);
    r := Ok((resolved[n := combos.value], rows + more.value));
    assert ExpandsTo(cfg, n, resolved, rows, combos.value, more.value, r.value.0, r.value.1);
  }

  lemma ProgressEnds(a: Alphabet, cfg: MatrixConfig, t: RefTable, rows: seq<ExpandedSet>)
    requires Progress(a, cfg, Expressions(cfg.sets).Keys, t, rows)
    ensures Fits(a, cfg, t) && NonEmpty(t) && RowsFor(cfg, t, rows) && |rows| == Total(t.Keys, t)
  {
  }

  ghost function Taken(order: seq<string>, i: nat): set<string>
    requires i <= |order|
  {
    set n | n in order[..i]
  }

  lemma TakenMore(order: seq<string>, i: nat)
    requires i < |order|
    ensures Taken(order, i + 1) == Taken(order, i) + {order[i]}
  {
    assert order[..i + 1] == order[..i] + [order[i]];
  }

  lemma TakenAll(cfg: MatrixConfig, order: seq<string>)
    requires forall n :: n in order <==> n in Expressions(cfg.sets)
    ensures Taken(order, 0) == {} && Taken(order, |order|) == Expressions(cfg.sets).Keys
  {
    assert order[..|order|] == order;
  }

  /** The first i sets of the order are expanded. */
  ghost predicate Underway(a: Alphabet, cfg: MatrixConfig, order: seq<string>, i: nat, t: RefTable,
      rows: seq<ExpandedSet>) {
    i <= |order| && Progress(a, cfg, Taken(order, i), t, rows) && InOrder(cfg, order[..i], t, rows)
  }

  lemma UnderwayStarts(a: Alphabet, cfg: MatrixConfig, order: seq<string>)
    ensures Underway(a, cfg, order, 0, map[], [])
  {
    ProgressStarts(a, cfg);
    assert Taken(order, 0) == {};
  }

  lemma UnderwayEnds(a: Alphabet, cfg: MatrixConfig, order: seq<string>, t: RefTable, rows: seq<ExpandedSet>)
    requires Underway(a, cfg, order, |order|, t, rows) && SetOrder(a, cfg.sets, order)
    ensures Fits(a, cfg, t) && NonEmpty(t) && InOrder(cfg, order, t, rows)
    ensures RowsFor(cfg, t, rows) && |rows| == Total(t.Keys, t)
  {
    TakenAll(cfg, order);
    ProgressEnds(a, cfg, t, rows);
    assert order[..|order|] == order;
  }

  /** Expands the next set of the order. */
  method ExpandNext(a: Alphabet, cfg: MatrixConfig, order: seq<string>, i: nat, resolved: RefTable,
      rows: seq<ExpandedSet>)
    returns (r: Result<(RefTable, seq<ExpandedSet>), MatrixError>)
    requires Sensible(a) && RefsDefined(a, cfg.sets, Expressions(cfg.sets).Keys)
    requires SetOrder(a, cfg.sets, order) && i < |order| && Underway(a, cfg, order, i, resolved, rows)
    ensures r.Ok? ==> Underway(a, cfg, order, i + 1, r.value.0, r.value.1)
    ensures r.Err? ==> !SomethingFits(a, cfg) && FailsAt(a, cfg, resolved, r.error)
  {
    assert order[i] in order;
    NextIsReady(a, cfg, order, i, resolved);
    TakenMore(order, i);
    r := ExpandOne(a, cfg, order[i], resolved, rows, Taken(order, i));
    if r.Ok? {
      NextInOrder(cfg, order, i, resolved, rows, r.value.0, r.value.1);
    }
  }

  /** Expands the sets in an order that puts references first. */
  method ExpandAll(a: Alphabet, cfg: MatrixConfig, order: seq<string>)
    returns (r: Result<seq<ExpandedSet>, MatrixError>, ghost table: RefTable)
    requires Sensible(a) && RefsDefined(a, cfg.sets, Expressions(cfg.sets).Keys)
    requires SetOrder(a, cfg.sets, order)
    ensures r.Ok? <==> SomethingFits(a, cfg)
    ensures r.Ok? ==> Fits(a, cfg, table) && NonEmpty(table) && InOrder(cfg, order, table, r.value)
    ensures r.Ok? ==> RowsFor(cfg, table, r.value) && |r.value| == Total(table.Keys, table)
    ensures r.Err? ==> FailsAt(a, cfg, table, r.error)
  {
    var resolved: RefTable := map[];
    var rows: seq<ExpandedSet> := [];
    UnderwayStarts(a, cfg, order);
    for i := 0 to |order|
      invariant Underway(a, cfg, order, i, resolved, rows)
    {
      var next := ExpandNext(a, cfg, order, i, resolved, rows);
      if next.Err? {
        return Err(next.error), resolved;
      }
      resolved, rows := next.value.0, next.value.1;
    }
    UnderwayEnds(a, cfg, order, resolved, rows);
    return Ok(rows), resolved;
  }

  /** When its turn comes a set is new and its references are resolved. */
  lemma NextIsReady(a: Alphabet, cfg: MatrixConfig, order: seq<string>, i: nat, t: RefTable)
    requires RefsDefined(a, cfg.sets, Expressions(cfg.sets).Keys)
    requires NoRepeats(order) && DepsFirst(References(a, cfg.sets), order) && i < |order|
    requires order[i] in Expressions(cfg.sets) && t.Keys == Taken(order, i)
    ensures order[i] !in t && Resolvable(a, Expressions(cfg.sets)[order[i]], t)
  {
    var dsl := Expressions(cfg.sets)[order[i]];
    ExpressionIsSome(cfg.sets, order[i]);
    forall s | s in RefsOf(a, dsl) ensures s in t {
      assert s in Deps(References(a, cfg.sets), order[i]);
    }
  }

  lemma {:induction false} ExpressionIsSome(sets: seq<SetEntry>, n: string)
    requires n in Expressions(sets)
    ensures exists i :: 0 <= i < |sets| && sets[i].name == n && sets[i].dsl == Expressions(sets)[n]
  {
    var last := sets[|sets| - 1];
    if last.name == n {
      assert sets[|sets| - 1].dsl == Expressions(sets)[n];
    } else {
      ExpressionIsSome(sets[..|sets| - 1], n);
    }
  }

  /** Accepts exactly the well-formed configurations for which some table of
      combinations satisfies every set's expression at once, uses declared names
      only and holds at most 1000 combinations; then the result is that table under
      real model names. An error means what it says, and never an unknown reference. */
  method ValidateMatrix(a: Alphabet, cfg: MatrixConfig, models: set<string>)
    returns (r: Result<seq<ExpandedSet>, MatrixError>, ghost table: RefTable)
    requires Sensible(a)
    ensures r.Ok? <==> WellFormed(a, cfg, models) && SomethingFits(a, cfg)
    ensures r.Ok? ==> Fits(a, cfg, table) && NonEmpty(table)
    ensures r.Ok? ==> RowsFor(cfg, table, r.value) && |r.value| == Total(table.Keys, table)
    ensures r.Ok? ==> exists order :: SetOrder(a, cfg.sets, order) && InOrder(cfg, order, table, r.value)
    ensures r.Err? ==> Truthful(a, cfg, models, table, r.error)
  {
    table := map[];
    if cfg.sets == [] {
      return Err(NoSets), table;
    }
    if cfg.vars == map[] {
      return Err(NoVars), table;
    }
    var bad := CheckVars(cfg, models);
    if bad.Some? {
      return Err(bad.value), table;
    }
    bad := CheckCosts(cfg);
    if bad.Some? {
      return Err(bad.value), table;
    }
    var order := OrderSets(a, cfg.sets);
    if order.Err? {
      return Err(order.error), table;
    }
    r, table := ExpandAll(a, cfg, order.value);
  }

  /** The sets, each after those it refers to; fails exactly when a reference is
      undefined, a text cannot be tokenized, or the references form a cycle. */
  method OrderSets(a: Alphabet, sets: seq<SetEntry>) returns (r: Result<seq<string>, MatrixError>)
    ensures r.Ok? <==> RefsDefined(a, sets, Expressions(sets).Keys) && !Cyclic(References(a, sets))
    ensures r.Ok? ==> SetOrder(a, sets, r.value)
    ensures r.Err? ==>
      BadReference(a, sets, r.error) || (r.error == CircularReference && RefsDefined(a, sets, Expressions(sets).Keys))
  {
    var deps := BuildGraph(a, sets);
    if deps.Err? {
      return Err(deps.error);
    }
    var names := NamesOf(sets);
    forall e | e in sets ensures e.name in names {
      var i :| 0 <= i < |sets| && sets[i] == e;
      assert names[i] == e.name;
    }
    var ok, order := TopologicalSort(names, deps.value);
    if !ok {
      return Err(CircularReference);
    }
    OnlySets(a, sets, names);
    return Ok(order);
  }

  /** With every reference defined, the graph leads nowhere but to the sets. */
  lemma OnlySets(a: Alphabet, sets: seq<SetEntry>, names: seq<string>)
    requires RefsDefined(a, sets, Expressions(sets).Keys)
    requires forall n :: n in names ==> n in Expressions(sets)
    ensures Reached(names, References(a, sets)) <= Expressions(sets).Keys
  {
    var g := References(a, sets);
    forall k, d | k in g && d in g[k] ensures d in Expressions(sets) {
      ExpressionIsSome(sets, k);
    }
  }

  /** In a validated table every set holds the model sets of exactly the
      combinations its expression means, references meaning the referred set's. */
  lemma TableMeaning(a: Alphabet, cfg: MatrixConfig, t: RefTable, n: string, x: Combo)
    requires Sensible(a) && Fits(a, cfg, t) && NonEmpty(t) && n in t
    ensures var tree := Tree(a, Expressions(cfg.sets)[n]);
      && tree.Some? && |t[n]| == Size(tree.value, t)
      && (x in t[n] <==> DenotesModels(tree.value, t, x))
  {
    CompilesExactly(a, Expressions(cfg.sets)[n], t, x);
  }

  /** The k-th combination of a set in a validated table is that of the k-th meaning
      of its expression. */
  lemma TableOrder(a: Alphabet, cfg: MatrixConfig, t: RefTable, n: string, k: nat)
    requires Sensible(a) && Fits(a, cfg, t) && NonEmpty(t) && n in t && k < |t[n]|
    ensures var tree := Tree(a, Expressions(cfg.sets)[n]);
      && tree.Some? && Proper(tree.value) && Resolved(tree.value, t) && k < Size(tree.value, t)
      && t[n][k] == Canonical(Nth(tree.value, t, k))
  {
    CompilesInOrder(a, Expressions(cfg.sets)[n], t, k);
  }
}
