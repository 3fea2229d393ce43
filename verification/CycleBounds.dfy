// Pass 5: every cycle of a machine gets at least one state that may be visited
// more than once.
module CycleBounds {
  import opened Common
  import opened Graph
  import opened Canonical
  import opened TarjanView
  import opened Tarjan

  // id's mutual-reachability class.
  ghost function Class(sm: StateMachine, id: StateId): set<StateId> {
    set m | m in sm.states && Mutual(StateEdges(sm), id, m)
  }

  // Some member of id's mutual-reachability class may be visited again.
  ghost predicate HasBound(sm: StateMachine, id: StateId) {
    exists m :: m in sm.states && Mutual(StateEdges(sm), id, m) && sm.states[m].maxVisits > 1
  }

  // The rule the checker enforces: every state on a cycle has a bounded
  // companion in its class.
  ghost predicate CyclesBounded(sm: StateMachine) {
    forall id | id in sm.states && OnCycle(StateEdges(sm), id) :: HasBound(sm, id)
  }

  // The states pass 5 changes: the least id of a cyclic class without a bound.
  ghost predicate Injects(sm: StateMachine, id: StateId) {
    && id in sm.states
    && OnCycle(StateEdges(sm), id)
    && !HasBound(sm, id)
    && (forall m | m in sm.states && Mutual(StateEdges(sm), id, m) :: LexLeq(id, m))
  }

  ghost function Pass5(sm: StateMachine, cap: nat): StateMachine {
    sm.(states := map id | id in sm.states ::
      if Injects(sm, id) then sm.states[id].(maxVisits := cap) else sm.states[id])
  }

  predicate HasSelfEdge(sm: StateMachine, id: StateId)
    ensures HasSelfEdge(sm, id) <==> (id, id) in StateEdges(sm)
  {
    id in sm.states && ToState(id) in Targets(sm.states[id])
  }

  // A component is cyclic when it has two members or a self-edge.
  lemma CyclicClass(g: Edges, c: seq<Id>, x: Id)
    requires IsClass(g, c) && x in c
    ensures OnCycle(g, x) <==> |c| >= 2 || (x, x) in g
  {
    if |c| == 1 {
      assert c == [x];
      if OnCycle(g, x) {
        var y :| (x, y) in g && Reach(g, y, x);
        ReachEdge(g, x, y);
        assert y in c;
      }
      if (x, x) in g { ReachRefl(g, x); }
    } else {
      assert exists y :: y in c && y != x by {
        assert c[0] != c[1] && c[0] in c && c[1] in c;
      }
      var y :| y in c && y != x;
      var p :| PathBetween(g, p, x, y);
      var q := p[1..];
      assert (p[0], p[1]) in g;
      assert PathBetween(g, q, p[1], y) by {
        forall i | 0 <= i < |q| - 1 ensures (q[i], q[i + 1]) in g { assert q[i] == p[i + 1] && q[i + 1] == p[i + 2]; }
      }
      ReachTrans(g, p[1], y, x);
    }
  }

  function LeastOf(c: seq<StateId>): (x: StateId)
    requires c != []
    ensures IsLeast(x, Members(c))
  {
    assert c[0] in Members(c);
    Least(Members(c))
  }

  // ---- the pass itself -----------------------------------------------------------

  method InjectIfUnset(sm: StateMachine, id: StateId, cap: nat) returns (out: StateMachine)
    ensures out == if id in sm.states && sm.states[id].maxVisits <= 1
      then sm.(states := sm.states[id := sm.states[id].(maxVisits := cap)]) else sm
  {
    out := sm;
    if id in sm.states && sm.states[id].maxVisits <= 1 {
      out := sm.(states := sm.states[id := sm.states[id].(maxVisits := cap)]);
    }
  }

  // The machine after the classes containing `seen` have been handled.
  ghost function Pass5Part(sm: StateMachine, cap: nat, seen: set<StateId>): StateMachine {
    sm.(states := map id | id in sm.states ::
      if id in seen && Injects(sm, id) then sm.states[id].(maxVisits := cap) else sm.states[id])
  }

  lemma Pass5Ends(sm: StateMachine, cap: nat)
    ensures Pass5Part(sm, cap, {}) == sm
    ensures Pass5Part(sm, cap, sm.states.Keys) == Pass5(sm, cap)
  {
  }

  // Caps are the only thing the pass touches, so the graph stays the same.
  lemma SameGraph(sm: StateMachine, cap: nat, seen: set<StateId>)
    ensures StateEdges(Pass5Part(sm, cap, seen)) == StateEdges(sm)
  {
  }

  lemma UntouchedClass(sm: StateMachine, cap: nat, seen: set<StateId>, c: seq<StateId>)
    requires forall x | x in c :: x in sm.states && x !in seen
    ensures forall x | x in c :: x in Pass5Part(sm, cap, seen).states && Pass5Part(sm, cap, seen).states[x] == sm.states[x]
  {
  }

  // The code's test for a declared bound, on a class the pass has not touched.
  lemma DeclaredIff(sm: StateMachine, c: seq<StateId>, x: StateId)
    requires IsClass(StateEdges(sm), c) && x in c && forall y | y in c :: y in sm.states
    ensures HasBound(sm, x) <==> exists y :: y in c && sm.states[y].maxVisits > 1
  {
  }

  // One class either is left alone or has its least member's cap replaced.
  lemma ClassStep(sm: StateMachine, cap: nat, seen: set<StateId>, c: seq<StateId>, x: StateId)
    requires IsClass(StateEdges(sm), c) && forall y | y in c :: y in sm.states && y !in seen
    requires c != [] && x == LeastOf(c)
    ensures x in sm.states && c != []
    ensures Pass5Part(sm, cap, seen + Members(c)) ==
      if OnCycle(StateEdges(sm), x) && !HasBound(sm, x)
      then
        var p := Pass5Part(sm, cap, seen);
        p.(states := p.states[x := sm.states[x].(maxVisits := cap)])
      else Pass5Part(sm, cap, seen)
  {
    forall y | y in c ensures Injects(sm, y) <==> y == x && OnCycle(StateEdges(sm), x) && !HasBound(sm, x) {
      InjectsInClass(sm, c, x, y);
    }
    var p := Pass5Part(sm, cap, seen);
    var q := Pass5Part(sm, cap, seen + Members(c));
    if OnCycle(StateEdges(sm), x) && !HasBound(sm, x) {
      assert q.states == p.states[x := sm.states[x].(maxVisits := cap)];
    } else {
      assert q.states == p.states;
    }
  }

  lemma InjectsInClass(sm: StateMachine, c: seq<StateId>, x: StateId, y: StateId)
    requires IsClass(StateEdges(sm), c) && forall z | z in c :: z in sm.states
    requires c != [] && x == LeastOf(c) && y in c
    ensures Injects(sm, y) <==> y == x && OnCycle(StateEdges(sm), x) && !HasBound(sm, x)
  {
    if Injects(sm, y) {
      assert Mutual(StateEdges(sm), y, x);
      LexAntisymmetric(x, y);
    }
  }

  lemma SortedHead(c: seq<StateId>)
    requires c != []
    ensures Sorted(Members(c)) != [] && Sorted(Members(c))[0] == LeastOf(c)
  {
    assert c[0] in Members(c);
    LeastUnique(Least(Members(c)), LeastOf(c), Members(c));
  }

  method ApplyPass5(sm: StateMachine, cap: nat) returns (out: StateMachine)
    ensures out == Pass5(sm, cap)
  {
    var sccs := TarjanScc(sm);
    out := sm;
    ghost var seen: set<StateId> := {};
    Pass5Ends(sm, cap);
    for i := 0 to |sccs|
      invariant seen == Union(sccs[..i])
      invariant out == Pass5Part(sm, cap, seen)
    {
      ClassReady(sm, sccs, i);
      out := InjectScc(sm, out, cap, sccs[i], seen);
      seen := seen + Members(sccs[i]);
    }
    assert sccs[..|sccs|] == sccs;
  }

  lemma ClassReady(sm: StateMachine, sccs: seq<seq<StateId>>, i: nat)
    requires IsSccList(sm, sccs) && i < |sccs|
    ensures IsClass(StateEdges(sm), sccs[i])
    ensures forall y | y in sccs[i] :: y in sm.states && y !in Union(sccs[..i])
    ensures Union(sccs[..i + 1]) == Union(sccs[..i]) + Members(sccs[i])
  {
  }

  // What the code reads off a component of `now`, the machine after the
  // components before it: the caps and the self-edge of c are still those of sm.
  lemma ClassFacts(sm: StateMachine, cap: nat, seen: set<StateId>, c: seq<StateId>)
    requires IsClass(StateEdges(sm), c) && forall y | y in c :: y in sm.states && y !in seen
    ensures c != []
    ensures var now := Pass5Part(sm, cap, seen); var x := LeastOf(c);
      && x in c && x in now.states && now.states[x] == sm.states[x]
      && (|c| == 1 ==> x == c[0])
      && (|c| == 1 ==> (OnCycle(StateEdges(sm), x) <==> HasSelfEdge(now, x)))
      && (|c| == 1 ==> (HasBound(sm, x) <==> now.states[x].maxVisits > 1))
      && (|c| >= 2 ==> OnCycle(StateEdges(sm), x))
      && (HasBound(sm, x) <==> exists y :: y in c && y in now.states && now.states[y].maxVisits > 1)
  {
    var x := LeastOf(c);
    assert x in Members(c);
    SameGraph(sm, cap, seen);
    UntouchedClass(sm, cap, seen, c);
    CyclicClass(StateEdges(sm), c, x);
    DeclaredIff(sm, c, x);
    if |c| == 1 { assert c == [c[0]]; }
  }

  // One component: `now` is the machine after the components before it.
  method InjectScc(ghost sm: StateMachine, now: StateMachine, cap: nat, scc: seq<StateId>, ghost seen: set<StateId>)
    returns (out: StateMachine)
    requires scc != [] && IsClass(StateEdges(sm), scc)
    requires forall y | y in scc :: y in sm.states && y !in seen
    requires now == Pass5Part(sm, cap, seen)
    ensures out == Pass5Part(sm, cap, seen + Members(scc))
  {
    hide LexLeq, Sorted, OnCycle, HasBound, HasSelfEdge, Pass5Part, LeastOf, IsClass, StateEdges, Members, IsLeast;
    ghost var x := LeastOf(scc);
    ClassFacts(sm, cap, seen, scc);
    ClassStep(sm, cap, seen, scc, x);
    out := now;
    if |scc| == 1 {
      var id := scc[0];
      if HasSelfEdge(now, id) {
        out := InjectIfUnset(now, id, cap);
      }
    } else {
      var anyDeclared := exists id :: id in scc && id in now.states && now.states[id].maxVisits > 1;
      if !anyDeclared {
        SortedHead(scc);
        var sorted := Sorted(Members(scc));
        out := InjectIfUnset(now, sorted[0], cap);
      }
    }
  }
}
