/** Depth-first ordering of named sets so that each comes after the sets it
    refers to. */
module TopoSort {
  import opened ModelNames

  type Graph = map<string, seq<string>>

  function Deps(deps: Graph, n: string): seq<string> {
    if n in deps then deps[n] else []
  }

  /** A walk that follows references. */
  ghost predicate Walk(deps: Graph, p: seq<string>) {
    p != [] && forall i :: 0 <= i < |p| - 1 ==> p[i + 1] in Deps(deps, p[i])
  }

  ghost predicate IsCycle(deps: Graph, p: seq<string>) {
    |p| >= 2 && Walk(deps, p) && p[0] == p[|p| - 1]
  }

  ghost predicate Cyclic(deps: Graph) {
    exists p :: IsCycle(deps, p)
  }

  /** Every reference of a listed set is listed before it. */
  ghost predicate DepsFirst(deps: Graph, order: seq<string>) {
    forall i, d :: 0 <= i < |order| && d in Deps(deps, order[i]) ==> d in order[..i]
  }

  /** Every set a graph can lead to. */
  ghost function Reached(sets: seq<string>, deps: Graph): set<string> {
    (set n | n in sets) + (set k, d | k in deps && d in deps[k] :: d)
  }

  datatype Mark = Visiting | Visited

  type Marks = map<string, Mark>

  /** The sets being visited are those on the path, the visited ones those listed. */
  ghost predicate Sound(deps: Graph, known: set<string>, state: Marks, order: seq<string>, path: seq<string>) {
    && (forall n :: n in state && state[n].Visiting? <==> n in path)
    && (forall n :: n in state && state[n].Visited? <==> n in order)
    && NoRepeats(order) && DepsFirst(deps, order)
    && state.Keys <= known
    && (forall k, d :: k in deps && d in deps[k] ==> d in known)
  }

  lemma Enter(deps: Graph, known: set<string>, state: Marks, order: seq<string>, path: seq<string>, name: string)
    requires Sound(deps, known, state, order, path) && name in known && name !in state
    ensures Sound(deps, known, state[name := Visiting], order, path + [name])
  {
    assert name !in path && name !in order;
    assert forall n :: n in path + [name] <==> n in path || n == name;
    assert state[name := Visiting].Keys == state.Keys + {name};
  }

  lemma DepsFirstMore(deps: Graph, order: seq<string>, name: string)
    requires DepsFirst(deps, order) && Listed(Deps(deps, name), |Deps(deps, name)|, order)
    ensures DepsFirst(deps, order + [name])
  {
    var listed := order + [name];
    forall i, d | 0 <= i < |listed| && d in Deps(deps, listed[i]) ensures d in listed[..i] {
      if i < |order| {
        assert d in order[..i] && listed[..i] == order[..i];
      } else {
        assert listed[..i] == order;
      }
    }
  }

  lemma Leave(deps: Graph, known: set<string>, state: Marks, order: seq<string>, path: seq<string>, name: string)
    requires Sound(deps, known, state, order, path + [name]) && name !in path
    requires Listed(Deps(deps, name), |Deps(deps, name)|, order)
    ensures Sound(deps, known, state[name := Visited], order + [name], path)
  {
    assert name in path + [name] && name !in order;
    DepsFirstMore(deps, order, name);
    assert forall n :: n in path + [name] <==> n in path || n == name;
  }

  lemma Smaller(a: set<string>, b: set<string>, x: string)
    requires a <= b && x in b - a
    ensures |a| < |b|
  {
    assert b == a + (b - a) && |b - a| > 0;
  }

  lemma NoLarger(a: set<string>, b: set<string>)
    requires a <= b
    ensures |a| <= |b|
  {
    assert b == a + (b - a);
  }

  /** The first k names are in the order. */
  ghost predicate Listed(names: seq<string>, k: nat, order: seq<string>) {
    k <= |names| && forall i :: 0 <= i < k ==> names[i] in order
  }

  lemma ListedMore(names: seq<string>, k: nat, before: seq<string>, after: seq<string>)
    requires Listed(names, k, before) && before <= after && k < |names| && names[k] in after
    ensures Listed(names, k + 1, after)
  {
    Kept(before, after);
  }

  lemma Kept(a: seq<string>, b: seq<string>)
    requires a <= b
    ensures forall x :: x in a ==> x in b
  {
    assert forall i :: 0 <= i < |a| ==> a[i] == b[i];
  }

  lemma WalkReturns(deps: Graph, path: seq<string>, name: string)
    requires Walk(deps, path + [name]) && name in path
    ensures Cyclic(deps)
  {
    var i :| 0 <= i < |path| && path[i] == name;
    var p := (path + [name])[i..];
    assert IsCycle(deps, p);
  }

  // ----- The turn of each set -----

  /** References lead from one set to another. */
  ghost predicate Leads(deps: Graph, a: string, b: string) {
    exists p :: Walk(deps, p) && p[0] == a && p[|p| - 1] == b
  }

  /** The i-th listed set is reached from a declared set before which all earlier
      declared ones are listed. */
  ghost predicate HasTurn(deps: Graph, sets: seq<string>, order: seq<string>, i: nat)
    requires i < |order|
  {
    exists j :: 0 <= j < |sets| && Leads(deps, sets[j], order[i]) && Listed(sets, j, order[..i])
  }

  ghost predicate InTurn(deps: Graph, sets: seq<string>, order: seq<string>) {
    forall i :: 0 <= i < |order| ==> HasTurn(deps, sets, order, i)
  }

  lemma NextTurn(deps: Graph, sets: seq<string>, order: seq<string>, j: nat, path: seq<string>, name: string)
    requires InTurn(deps, sets, order) && j < |sets| && Listed(sets, j, order)
    requires Walk(deps, path + [name]) && (path + [name])[0] == sets[j]
    ensures InTurn(deps, sets, order + [name])
  {
    var listed := order + [name];
    forall i | 0 <= i < |listed| ensures HasTurn(deps, sets, listed, i) {
      if i < |order| {
        assert HasTurn(deps, sets, order, i) && listed[..i] == order[..i];
      } else {
        assert listed[..i] == order && Leads(deps, sets[j], listed[i]);
      }
    }
  }

  lemma ListedStill(names: seq<string>, k: nat, before: seq<string>, after: seq<string>)
    requires Listed(names, k, before) && before <= after
    ensures Listed(names, k, after)
  {
    Kept(before, after);
  }

  lemma WalkStays(deps: Graph, p: seq<string>)
    requires Walk(deps, p)
    ensures |p| == 1 || Deps(deps, p[0]) != []
  {
    if |p| > 1 {
      assert p[0 + 1] in Deps(deps, p[0]);
    }
  }

  /** Sets that refer to nothing are listed as they are declared. */
  lemma {:induction false} DeclaredOrder(deps: Graph, sets: seq<string>, order: seq<string>, i: nat)
    requires InTurn(deps, sets, order) && NoRepeats(sets) && NoRepeats(order)
    requires (forall n :: Deps(deps, n) == []) && i < |order|
    ensures i < |sets| && order[i] == sets[i]
    decreases i
  {
    assert HasTurn(deps, sets, order, i);
    var j :| 0 <= j < |sets| && Leads(deps, sets[j], order[i]) && Listed(sets, j, order[..i]);
    var p :| Walk(deps, p) && p[0] == sets[j] && p[|p| - 1] == order[i];
    WalkStays(deps, p);
    assert order[i] == sets[j];
    forall k | 0 <= k < i ensures k < |sets| && order[k] == sets[k] {
      DeclaredOrder(deps, sets, order, k);
    }
  }

  class Sorter {
    const deps: Graph
    ghost const known: set<string>
    var state: Marks
    var order: seq<string>

    ghost const declared: seq<string>
    ghost var turn: nat

    ghost predicate Valid(path: seq<string>)
      reads this
    {
      && Sound(deps, known, state, order, path) && InTurn(deps, declared, order)
      && Listed(declared, turn, order)
    }

    /** The walk starts from the declared set whose turn it is. */
    ghost predicate OnTurn(walk: seq<string>)
      reads this
    {
      walk != [] && Walk(deps, walk) && turn < |declared| && walk[0] == declared[turn]
    }

    constructor (sets: seq<string>, deps: Graph)
      ensures Valid([]) && this.deps == deps && known == Reached(sets, deps) && order == []
      ensures declared == sets && turn == 0
    {
      this.deps := deps;
      known := Reached(sets, deps);
      state, order := map[], [];
      declared, turn := sets, 0;
    }

    /** Visits one set at the end of the path that led to it. */
    method Visit(name: string, ghost path: seq<string>) returns (ok: bool)
      requires Valid(path) && name in known && OnTurn(path + [name])
      modifies this`state, this`order
      ensures ok ==> Valid(path) && name in order && old(order) <= order
      ensures !ok ==> Cyclic(deps)
      ensures old(state.Keys) <= state.Keys
      decreases |known - state.Keys|, 0
    {
      if name in state {
        if state[name].Visiting? {
          WalkReturns(deps, path, name);
        }
        return state[name].Visited?;
      }
      Enter(deps, known, state, order, path, name);
      Smaller(known - (state.Keys + {name}), known - state.Keys, name);
      state := state[name := Visiting];
      assert state.Keys == old(state.Keys) + {name};
      ok := VisitRefs(name, path + [name]);
      if ok {
        List(name, path);
      }
    }

    /** Lists a set all of whose references are listed. */
    method List(name: string, ghost path: seq<string>)
      requires Valid(path + [name]) && OnTurn(path + [name]) && name !in path && name in state
      requires Listed(Deps(deps, name), |Deps(deps, name)|, order)
      modifies this`state, this`order
      ensures Valid(path) && order == old(order) + [name] && state.Keys == old(state.Keys)
    {
      Leave(deps, known, state, order, path, name);
      NextTurn(deps, declared, order, turn, path, name);
      ListedStill(declared, turn, order, order + [name]);
      state := state[name := Visited];
      order := order + [name];
    }

    /** Visits all the sets that the last one on the path refers to. */
    method VisitRefs(name: string, ghost path: seq<string>) returns (ok: bool)
      requires Valid(path) && OnTurn(path) && path[|path| - 1] == name
      modifies this`state, this`order
      ensures ok ==> Valid(path) && old(order) <= order && Listed(Deps(deps, name), |Deps(deps, name)|, order)
      ensures !ok ==> Cyclic(deps)
      ensures old(state.Keys) <= state.Keys
      decreases |known - state.Keys|, 1
    {
      var refs := Deps(deps, name);
      for i := 0 to |refs|
        invariant Valid(path)
        invariant old(order) <= order && old(state.Keys) <= state.Keys
        invariant Listed(refs, i, order)
      {
        WalkOn(deps, path, refs[i]);
        NoLarger(known - state.Keys, known - old(state.Keys));
        ghost var before := order;
        ok := Visit(refs[i], path);
        if !ok {
          return;
        }
        ListedMore(refs, i, before, order);
      }
      return true;
    }

    /** Visits the next declared set unless it is listed already. */
    method TakeTurn(name: string) returns (ok: bool)
      requires Valid([]) && turn < |declared| && declared[turn] == name && name in known
      modifies this
      ensures ok ==> Valid([]) && turn == old(turn) + 1
      ensures !ok ==> Cyclic(deps)
    {
      ok := true;
      ghost var before := order;
      if name !in state {
        ok := Visit(name, []);
      }
      if ok {
        ListedMore(declared, turn, before, order);
        turn := turn + 1;
      }
    }
  }

  lemma WalkOn(deps: Graph, p: seq<string>, d: string)
    requires Walk(deps, p) && d in Deps(deps, p[|p| - 1])
    ensures Walk(deps, p + [d])
  {
  }

  /** In an order with references first, a walk that starts in the order only
      leads to earlier sets. */
  lemma {:induction false} WalksLeadBack(deps: Graph, order: seq<string>, p: seq<string>, k: nat)
    requires DepsFirst(deps, order) && NoRepeats(order) && Walk(deps, p) && k < |order| && order[k] == p[0]
    ensures p[|p| - 1] in order[..k + 1] && (|p| >= 2 ==> p[|p| - 1] in order[..k])
  {
    if |p| >= 2 {
      assert p[0 + 1] in Deps(deps, p[0]);
      var j :| 0 <= j < k && order[j] == p[1];
      assert Walk(deps, p[1..]) by {
        forall i | 0 <= i < |p[1..]| - 1 ensures p[1..][i + 1] in Deps(deps, p[1..][i]) {
          assert p[i + 1 + 1] in Deps(deps, p[i + 1]);
        }
      }
      WalksLeadBack(deps, order, p[1..], j);
    }
  }

  lemma OrderedIsAcyclic(deps: Graph, order: seq<string>)
    requires DepsFirst(deps, order) && NoRepeats(order) && forall n :: n in deps ==> n in order
    ensures !Cyclic(deps)
  {
    if Cyclic(deps) {
      var p :| IsCycle(deps, p);
      assert p[0 + 1] in Deps(deps, p[0]);
      var k :| 0 <= k < |order| && order[k] == p[0];
      WalksLeadBack(deps, order, p, k);
    }
  }

  /** Fails exactly when the references form a cycle; otherwise lists every set
      once, after all the sets it refers to and otherwise as declared. Nothing else is listed when every
      reference is to a set. */
  method TopologicalSort(sets: seq<string>, deps: Graph) returns (ok: bool, order: seq<string>)
    requires deps.Keys == set n | n in sets
    ensures ok <==> !Cyclic(deps)
    ensures ok ==> NoRepeats(order) && DepsFirst(deps, order) && InTurn(deps, sets, order)
    ensures ok ==> forall n :: n in sets ==> n in order
    ensures ok ==> forall n :: n in order ==> n in Reached(sets, deps)
  {
    var s := new Sorter(sets, deps);
    for i := 0 to |sets|
      invariant s.Valid([]) && s.deps == deps && s.known == Reached(sets, deps)
      invariant s.declared == sets && s.turn == i
    {
      ok := s.TakeTurn(sets[i]);
      if !ok {
        return false, [];
      }
    }
    OrderedIsAcyclic(deps, s.order);
    return true, s.order;
  }
}
