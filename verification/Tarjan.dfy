// Tarjan's strongly connected components over a machine's states, as the
// daemon runs it: index, lowlink and on-stack arrays over the sorted ids.
module Tarjan {
  import opened Common
  import opened Graph
  import opened TarjanView
  import opened Canonical

  class TarjanState {
    var index: nat
    var stack: seq<nat>
    const onStack: array<bool>
    const indices: array<Option<nat>>
    const lowlinks: array<nat>
    var sccs: seq<seq<StateId>>
    const ids: seq<StateId>
    ghost var view: View

    ghost predicate Arrays()
    {
      onStack.Length == indices.Length == lowlinks.Length == |ids| && Distinct(ids)
    }

    ghost predicate StackAgrees()
      reads this
    {
      && |view.stack| == |stack|
      && (forall i | 0 <= i < |stack| :: stack[i] < |ids| && view.stack[i] == ids[stack[i]])
    }

    // The arrays and the abstract view describe the same search state.
    ghost predicate Agrees()
      reads this, onStack, indices, lowlinks
    {
      && Arrays() && StackAgrees()
      && view.index == index
      && (forall i | 0 <= i < |ids| :: onStack[i] <==> ids[i] in view.stack)
      && (forall i | 0 <= i < |ids| :: indices[i] == if ids[i] in view.num then Some(view.num[ids[i]]) else None)
      && (forall i | 0 <= i < |ids| && ids[i] in view.low :: lowlinks[i] == view.low[ids[i]])
    }

    constructor (ids: seq<StateId>)
      requires Distinct(ids)
      ensures Agrees() && this.ids == ids && sccs == []
      ensures view == View(0, [], map[], map[], {})
      ensures fresh(onStack) && fresh(indices) && fresh(lowlinks)
    {
      index, stack, sccs := 0, [], [];
      onStack := new bool[|ids|](_ => false);
      indices := new Option<nat>[|ids|](_ => None);
      lowlinks := new nat[|ids|](_ => 0);
      this.ids := ids;
      view := View(0, [], map[], map[], {});
    }

    // Number v and push it.
    method Open(v: nat)
      requires Agrees() && v < |ids| && ids[v] !in view.num
      modifies this`index, this`stack, this`view, onStack, indices, lowlinks
      ensures Agrees() && view == Enter(old(view), ids[v])
    {
      indices[v] := Some(index);
      lowlinks[v] := index;
      index := index + 1;
      stack := stack + [v];
      onStack[v] := true;
      view := Enter(view, ids[v]);
    }

    // lowlinks[v] := min(lowlinks[v], n).
    method Lower(v: nat, n: nat)
      requires Agrees() && v < |ids| && ids[v] in view.low
      modifies this`view, lowlinks
      ensures Agrees()
      ensures view == Lowered(old(view), ids[v], n)
    {
      if n < lowlinks[v] {
        lowlinks[v] := n;
        view := SetLow(view, ids[v], n);
      }
    }

    method Pop() returns (w: nat)
      requires Agrees() && stack != [] && Distinct(view.stack)
      modifies this`stack, this`view, onStack
      ensures Agrees() && w < |ids| && ids[w] == old(view).stack[|old(stack)| - 1]
      ensures view == old(view).(stack := old(view).stack[..|old(stack)| - 1])
    {
      ghost var s := view.stack;
      w := stack[|stack| - 1];
      stack := stack[..|stack| - 1];
      onStack[w] := false;
      view := view.(stack := s[..|s| - 1]);
      assert s == s[..|s| - 1] + [s[|s| - 1]];
    }

    // Pop the stack down to, and including, v.
    method PopComponent(v: nat, ghost n: nat) returns (scc: seq<StateId>)
      requires Agrees() && v < |ids| && n < |stack| && view.stack[n] == ids[v]
      requires Distinct(view.stack)
      modifies this`stack, this`view, onStack
      ensures Agrees() && view == old(view).(stack := old(view).stack[..n])
      ensures scc == Reversed(old(view).stack[n..])
    {
      hide Agrees, Distinct, Reversed;
      scc := [];
      ghost var e := view;
      Sizes();
      while true
        invariant Agrees() && n < |stack| <= |e.stack|
        invariant view == e.(stack := e.stack[..|stack|])
        invariant scc == Reversed(e.stack[|stack|..])
        decreases |stack|
      {
        ghost var m := |stack| - 1;
        DistinctPrefix(e.stack, |stack|);
        var w := Pop();
        Sizes();
        PopStep(e.stack, m);
        SamePlace(ids, e.stack, w, v, m, n);
        scc := scc + [ids[w]];
        if w == v { break; }
      }
    }

    lemma Sizes()
      requires Agrees()
      ensures |view.stack| == |stack| && Distinct(ids)
    {
    }

    // Record the popped ids as one component.
    method Emit(v: nat, ghost n: nat)
      requires Agrees() && v < |ids| && n < |stack| && view.stack[n] == ids[v]
      requires Distinct(view.stack)
      modifies this`stack, this`view, this`sccs, onStack
      ensures Agrees() && view == PopTo(old(view), n)
      ensures sccs == old(sccs) + [Reversed(old(view).stack[n..])]
    {
      ghost var e := view;
      var scc := PopComponent(v, n);
      sccs := sccs + [scc];
      view := PopTo(e, n);
    }

    // The search state between visits: gray holds the vertices being scanned.
    ghost predicate Searching(g: Edges, gray: set<Id>, nodes: set<Id>)
      reads this, onStack, indices, lowlinks
    {
      && Agrees() && Inv(g, view, gray) && view.num.Keys <= nodes
      && (forall x | x in gray :: x in view.stack)
      && SccsOk(g, sccs) && Union(sccs) == view.out
    }

    // The state while the successors of v, entered in state a, are scanned.
    ghost predicate Scan(g: Edges, r: Edges, nodes: set<Id>, gray: set<Id>, a: View, v: nat, done: set<Id>)
      reads this, onStack, indices, lowlinks
      requires v < |ids|
    {
      && Agrees() && Inv(g, view, gray + {ids[v]}) && view.num.Keys <= nodes
      && SccsOk(g, sccs) && Union(sccs) == view.out
      && Scanning(g, r, a, view, ids[v], done)
    }

    // One depth-first visit. In the daemon the successors are read from sm
    // at the visit; idToIdx maps a state id to its position in ids.
    method StrongConnect(sm: StateMachine, idToIdx: map<StateId, nat>, v: nat, ghost r: Edges, ghost gray: set<Id>)
      requires Indexes(sm, ids, idToIdx) && v < |ids|
      requires Connects(StateEdges(sm), r, sm.states.Keys)
      requires Searching(StateEdges(sm), gray, sm.states.Keys)
      requires ids[v] !in view.num && AllReach(r, view.stack, ids[v])
      modifies this`index, this`stack, this`view, this`sccs, onStack, indices, lowlinks
      ensures Searching(StateEdges(sm), gray, sm.states.Keys)
      ensures Visited(StateEdges(sm), r, old(view), view, ids[v])
      decreases sm.states.Keys - view.num.Keys, 0
    {
      hide Connects, Indexes, StateEdges, Searching, Agrees, Arrays, Scan, Visited, AllReach, Numbered;
      ghost var g := StateEdges(sm);
      ghost var a := view;
      Begin(sm, idToIdx, v, r, gray);
      var neighbors := StateStateNeighbors(sm, ids, idToIdx, ids[v]);
      for k := 0 to |neighbors|
        invariant Scan(g, r, sm.states.Keys, gray, a, v, Prefix(ids, neighbors, k))
      {
        FewerFresh(g, r, sm.states.Keys, gray, a, v, Prefix(ids, neighbors, k));
        LookAt(sm, idToIdx, v, neighbors[k], r, gray, a, Prefix(ids, neighbors, k));
      }
      AllDone(g, ids, neighbors, ids[v]);
      Leave(sm, v, r, gray, a, Prefix(ids, neighbors, |neighbors|));
    }

    method Begin(sm: StateMachine, idToIdx: map<StateId, nat>, v: nat, ghost r: Edges, ghost gray: set<Id>)
      requires Indexes(sm, ids, idToIdx) && v < |ids|
      requires Connects(StateEdges(sm), r, sm.states.Keys)
      requires Searching(StateEdges(sm), gray, sm.states.Keys)
      requires ids[v] !in view.num && AllReach(r, view.stack, ids[v])
      modifies this`index, this`stack, this`view, onStack, indices, lowlinks
      ensures Scan(StateEdges(sm), r, sm.states.Keys, gray, old(view), v, {})
      ensures Numbered(old(view)) && forall z | z in gray :: z in old(view).stack
    {
      hide Connects, SccsOk, Union, Scanning, AllReach, StackAgrees;
      ghost var a := view;
      Open(v);
      EnterScan(StateEdges(sm), r, sm.states.Keys, a, gray, ids[v]);
    }

    lemma FewerFresh(g: Edges, r: Edges, nodes: set<Id>, gray: set<Id>, a: View, v: nat, done: set<Id>)
      requires v < |ids| && Scan(g, r, nodes, gray, a, v, done)
      ensures nodes - view.num.Keys < nodes - a.num.Keys
    {
      assert ids[v] in nodes - a.num.Keys && ids[v] !in nodes - view.num.Keys;
    }

    // One successor w of v: visit it if it is fresh, take its number if it is
    // on the stack.
    method LookAt(sm: StateMachine, idToIdx: map<StateId, nat>, v: nat, w: nat,
                  ghost r: Edges, ghost gray: set<Id>, ghost a: View, ghost done: set<Id>)
      requires Indexes(sm, ids, idToIdx) && v < |ids| && w < |ids|
      requires Connects(StateEdges(sm), r, sm.states.Keys) && (ids[v], ids[w]) in StateEdges(sm)
      requires Numbered(a) && forall z | z in gray :: z in a.stack
      requires Scan(StateEdges(sm), r, sm.states.Keys, gray, a, v, done)
      modifies this`index, this`stack, this`view, this`sccs, onStack, indices, lowlinks
      ensures Scan(StateEdges(sm), r, sm.states.Keys, gray, a, v, done + {ids[w]})
      decreases sm.states.Keys - view.num.Keys, 2
    {
      hide Connects, Inv, SccsOk, Union, Scanning, Visited, AllReach, Numbered, StackAgrees, Lowered;
      ghost var g := StateEdges(sm);
      if indices[w].None? {
        VisitFresh(sm, idToIdx, v, w, r, gray, a, done);
      } else if onStack[w] {
        ScanStacked(g, r, sm.states.Keys, a, view, gray, ids[v], done, ids[w]);
        Lower(v, indices[w].value);
      } else {
        ScanOffStack(g, r, a, view, ids[v], done, ids[w]);
      }
    }

    method VisitFresh(sm: StateMachine, idToIdx: map<StateId, nat>, v: nat, w: nat,
                      ghost r: Edges, ghost gray: set<Id>, ghost a: View, ghost done: set<Id>)
      requires Indexes(sm, ids, idToIdx) && v < |ids| && w < |ids|
      requires Connects(StateEdges(sm), r, sm.states.Keys) && (ids[v], ids[w]) in StateEdges(sm)
      requires Numbered(a) && forall z | z in gray :: z in a.stack
      requires Scan(StateEdges(sm), r, sm.states.Keys, gray, a, v, done)
      requires ids[w] !in view.num
      modifies this`index, this`stack, this`view, this`sccs, onStack, indices, lowlinks
      ensures Scan(StateEdges(sm), r, sm.states.Keys, gray, a, v, done + {ids[w]})
      decreases sm.states.Keys - view.num.Keys, 1
    {
      hide Connects, Inv, SccsOk, Union, Scanning, Visited, AllReach, Numbered, Agrees, Lowered, Indexes, StateEdges;
      ghost var g := StateEdges(sm);
      ghost var e := view;
      BeforeChild(g, r, sm.states.Keys, a, e, gray, ids[v], ids[w], done);
      StrongConnect(sm, idToIdx, w, r, gray + {ids[v]});
      FreshStep(g, r, sm.states.Keys, a, e, view, gray, ids[v], done, ids[w]);
      LowAt(w);
      Lower(v, lowlinks[w]);
    }

    lemma LowAt(w: nat)
      requires Agrees() && w < |ids| && ids[w] in view.low
      ensures w < lowlinks.Length && lowlinks[w] == view.low[ids[w]]
    {
    }

    // Visit every state that no earlier visit has reached.
    method Run(sm: StateMachine, idToIdx: map<StateId, nat>, ghost r: Edges)
      requires Indexes(sm, ids, idToIdx) && Connects(StateEdges(sm), r, sm.states.Keys)
      requires Searching(StateEdges(sm), {}, sm.states.Keys) && view.stack == []
      modifies this`index, this`stack, this`view, this`sccs, onStack, indices, lowlinks
      ensures IsSccList(sm, sccs)
    {
      hide Connects, Inv, SccsOk, Union, StackAgrees, StateEdges, IsSccList, Visited;
      ghost var g := StateEdges(sm);
      for v := 0 to |ids|
        invariant Searching(g, {}, sm.states.Keys) && view.stack == []
        invariant forall i | 0 <= i < v :: ids[i] in view.num
      {
        if indices[v].None? {
          ghost var e := view;
          StrongConnect(sm, idToIdx, v, r, {});
          AfterTree(g, r, e, view, ids[v]);
        }
      }
      AllEmitted(sm, view, ids, sccs);
    }

    // If v is the root of its component, emit the component.
    method Leave(sm: StateMachine, v: nat, ghost r: Edges, ghost gray: set<Id>, ghost a: View, ghost done: set<Id>)
      requires v < |ids| && Connects(StateEdges(sm), r, sm.states.Keys)
      requires Scan(StateEdges(sm), r, sm.states.Keys, gray, a, v, done) && Numbered(a)
      requires forall y | (ids[v], y) in StateEdges(sm) :: y in done
      requires forall z | z in gray :: z in a.stack
      modifies this`stack, this`view, this`sccs, onStack
      ensures Searching(StateEdges(sm), gray, sm.states.Keys)
      ensures Visited(StateEdges(sm), r, a, view, ids[v])
    {
      hide Connects, Inv, SccsOk, Union, Scanning, Visited, Numbered, StackAgrees, PopTo;
      ghost var g := StateEdges(sm);
      ghost var e := view;
      AtLeave(g, r, a, e, ids[v], done);
      if lowlinks[v] == indices[v].value {
        Sizes();
        RootLeaves(g, r, sm.states.Keys, a, e, gray, ids[v], done, sccs);
        Emit(v, |a.stack|);
      } else {
        NonRootLeaves(g, r, a, e, gray, ids[v], done);
      }
    }
  }

  lemma AtLeave(g: Edges, r: Edges, a: View, e: View, x: Id, done: set<Id>)
    requires Scanning(g, r, a, e, x, done)
    ensures |a.stack| < |e.stack| && e.stack[|a.stack|] == x
    ensures x in e.num && e.num[x] == a.index && x in e.low
  {
    hide AllReach, ReachesAll, Bounded, Scanned, Touches;
    assert (a.stack + [x])[|a.stack|] == x;
  }

  // A root takes the stack from itself upwards with it, as one component.
  lemma RootLeaves(g: Edges, r: Edges, nodes: set<Id>, a: View, e: View, gray: set<Id>, x: Id, done: set<Id>, sccs: seq<seq<Id>>)
    requires Connects(g, r, nodes) && Scanning(g, r, a, e, x, done) && Numbered(a) && Inv(g, e, gray + {x})
    requires (forall y | (x, y) in g :: y in done) && (forall z | z in gray :: z in a.stack)
    requires SccsOk(g, sccs) && Union(sccs) == e.out && e.low[x] == a.index
    ensures |a.stack| <= |e.stack| && Distinct(e.stack)
    ensures var f := PopTo(e, |a.stack|);
      && Visited(g, r, a, f, x) && Inv(g, f, gray) && (forall z | z in gray :: z in f.stack) && f.num == e.num
      && SccsOk(g, sccs + [Reversed(e.stack[|a.stack|..])]) && Union(sccs + [Reversed(e.stack[|a.stack|..])]) == f.out
  {
    assert IsReachability(g, r, nodes);
    hide Connects, SccsOk, Union, Numbered, Reach, IsReachability;
    LeaveInv(g, e, gray, x, done);
    LeaveRoot(g, r, a, e, x, done);
    EmitClass(g, r, nodes, a, e, gray, x, done, sccs);
    PopInv(g, e, gray, |a.stack|);
    BeforeEmit(e);
    hide Inv, Visited, Reversed, Scanned;
    assert PopTo(e, |a.stack|).stack == a.stack;
  }

  lemma NonRootLeaves(g: Edges, r: Edges, a: View, e: View, gray: set<Id>, x: Id, done: set<Id>)
    requires Scanning(g, r, a, e, x, done) && Inv(g, e, gray + {x}) && e.low[x] != a.index
    requires (forall y | (x, y) in g :: y in done) && (forall z | z in gray :: z in a.stack)
    ensures Visited(g, r, a, e, x) && Inv(g, e, gray) && (forall z | z in gray :: z in e.stack)
  {
    LeaveInv(g, e, gray, x, done);
    LeaveNonRoot(g, r, a, e, x, done);
    hide Inv, Visited;
    GrayStays(a, e, gray);
  }

  lemma SamePlace(ids: seq<StateId>, s: seq<StateId>, w: nat, v: nat, m: nat, n: nat)
    requires Distinct(ids) && Distinct(s) && w < |ids| && v < |ids| && m < |s| && n < |s|
    requires ids[w] == s[m] && ids[v] == s[n]
    ensures w == v <==> m == n
  {
  }

  lemma DistinctPrefix(s: seq<StateId>, n: nat)
    requires Distinct(s) && n <= |s|
    ensures Distinct(s[..n])
  {
  }

  lemma BeforeEmit(e: View)
    requires Numbered(e)
    ensures Distinct(e.stack)
  {
  }

  lemma GrayStays(a: View, e: View, gray: set<Id>)
    requires a.stack <= e.stack && forall z | z in gray :: z in a.stack
    ensures forall z | z in gray :: z in e.stack
  {
  }

  // The precondition of a recursive visit of the fresh successor y of x.
  lemma BeforeChild(g: Edges, r: Edges, nodes: set<Id>, a: View, e: View, gray: set<Id>, x: Id, y: Id, done: set<Id>)
    requires Connects(g, r, nodes) && (x, y) in g
    requires Scanning(g, r, a, e, x, done)
    requires forall z | z in gray :: z in a.stack
    ensures AllReach(r, e.stack, y)
    ensures forall z | z in gray + {x} :: z in e.stack
  {
    GrayStays(a, e, gray);
    assert e.stack[|a.stack|] == x;
  }

  lemma EnterScan(g: Edges, r: Edges, nodes: set<Id>, a: View, gray: set<Id>, x: Id)
    requires Connects(g, r, nodes) && x in nodes && a.num.Keys <= nodes
    requires Inv(g, a, gray) && x !in a.num && AllReach(r, a.stack, x)
    ensures Inv(g, Enter(a, x), gray + {x}) && Scanning(g, r, a, Enter(a, x), x, {})
    ensures Enter(a, x).num.Keys <= nodes && Numbered(a)
  {
    EnterInv(g, a, gray, x);
    ScanStart(g, r, a, x);
  }

  lemma FreshStep(g: Edges, r: Edges, nodes: set<Id>, a: View, e: View, f: View, gray: set<Id>, x: Id, done: set<Id>, y: Id)
    requires Connects(g, r, nodes) && (x, y) in g
    requires Numbered(a) && Inv(g, e, gray + {x}) && Inv(g, f, gray + {x})
    requires Scanning(g, r, a, e, x, done) && Visited(g, r, e, f, y)
    requires y !in e.num
    ensures x in f.low && y in f.low
    ensures var f' := Lowered(f, x, f.low[y]);
      Inv(g, f', gray + {x}) && Scanning(g, r, a, f', x, done + {y}) && f'.num == f.num && f'.out == f.out
  {
    ScanFresh(g, r, a, e, f, x, done, y);
    SetLowInv(g, f, gray + {x}, x, f.low[y]);
  }

  lemma ScanStacked(g: Edges, r: Edges, nodes: set<Id>, a: View, e: View, gray: set<Id>, x: Id, done: set<Id>, y: Id)
    requires Connects(g, r, nodes) && (x, y) in g
    requires Scanning(g, r, a, e, x, done) && Numbered(a) && Inv(g, e, gray + {x})
    requires y in e.stack && y in e.num
    ensures x in e.low
    ensures var e' := Lowered(e, x, e.num[y]);
      Inv(g, e', gray + {x}) && Scanning(g, r, a, e', x, done + {y}) && e'.num == e.num && e'.out == e.out
  {
    SetLowInv(g, e, gray + {x}, x, e.num[y]);
    if e.low[x] <= e.num[y] {
      ScanOffStack(g, r, a, e, x, done, y);
    } else {
      LowInRange(g, r, a, e, x, done);
      BelowV(a, e, x, y);
      ScanLower(g, r, a, e, x, done, y, y);
    }
  }

  // ids lists the states in order and idToIdx inverts it.
  ghost predicate Indexes(sm: StateMachine, ids: seq<StateId>, idToIdx: map<StateId, nat>) {
    && Distinct(ids)
    && (forall id :: id in ids <==> id in sm.states)
    && idToIdx.Keys == sm.states.Keys
    && (forall id | id in idToIdx :: idToIdx[id] < |ids| && ids[idToIdx[id]] == id)
  }

  // A state's targets in the order the daemon lists them.
  function TargetList(s: State): (ts: seq<EdgeTarget>)
    ensures forall t :: t in ts <==> t in Targets(s)
  {
    var names := Sorted(s.directives.Keys);
    DirectiveTargets(s, names);
    [s.onDone, s.onFail] + TargetsOf(s.directives, names)
  }

  function TargetsOf(m: map<DirectiveName, EdgeTarget>, names: seq<DirectiveName>): (ts: seq<EdgeTarget>)
    requires forall i | 0 <= i < |names| :: names[i] in m
    ensures |ts| == |names| && forall i | 0 <= i < |names| :: ts[i] == m[names[i]]
  {
    seq(|names|, i requires 0 <= i < |names| => m[names[i]])
  }

  lemma DirectiveTargets(s: State, names: seq<DirectiveName>)
    requires forall n :: n in names <==> n in s.directives
    ensures forall t :: t in TargetsOf(s.directives, names) <==> t in s.directives.Values
  {
  }

  ghost predicate Listed(ids: seq<StateId>, out: seq<nat>, y: StateId) {
    exists k :: 0 <= k < |out| && out[k] < |ids| && ids[out[k]] == y
  }

  // The ids at the first k positions of a successor list.
  ghost function Prefix(ids: seq<StateId>, out: seq<nat>, k: nat): set<Id>
    requires k <= |out| && forall i | 0 <= i < |out| :: out[i] < |ids|
  {
    if k == 0 then {} else Prefix(ids, out, k - 1) + {ids[out[k - 1]]}
  }

  lemma {:induction false} InPrefix(ids: seq<StateId>, out: seq<nat>, k: nat, i: nat)
    requires i < k <= |out| && forall i | 0 <= i < |out| :: out[i] < |ids|
    ensures ids[out[i]] in Prefix(ids, out, k)
  {
    if i < k - 1 { InPrefix(ids, out, k - 1, i); }
  }

  lemma AllDone(g: Edges, ids: seq<StateId>, out: seq<nat>, x: Id)
    requires forall i | 0 <= i < |out| :: out[i] < |ids|
    requires forall y | (x, y) in g :: Listed(ids, out, y)
    ensures forall y | (x, y) in g :: y in Prefix(ids, out, |out|)
  {
    forall y | (x, y) in g ensures y in Prefix(ids, out, |out|) {
      var k :| 0 <= k < |out| && out[k] < |ids| && ids[out[k]] == y;
      InPrefix(ids, out, |out|, k);
    }
  }

  // The positions of those targets that are State-tagged and name a state.
  function Positions(ts: seq<EdgeTarget>, idToIdx: map<StateId, nat>): seq<nat> {
    if ts == [] then []
    else
      var t := ts[|ts| - 1];
      Positions(ts[..|ts| - 1], idToIdx) + if t.ToState? && t.id in idToIdx then [idToIdx[t.id]] else []
  }

  lemma {:induction false} PositionsMember(ts: seq<EdgeTarget>, idToIdx: map<StateId, nat>, n: nat)
    ensures n in Positions(ts, idToIdx) <==> exists t :: t in ts && t.ToState? && t.id in idToIdx && idToIdx[t.id] == n
  {
    if ts == [] {
    } else {
      var t := ts[|ts| - 1];
      assert forall u :: u in ts <==> u in ts[..|ts| - 1] || u == t by {
        assert ts == ts[..|ts| - 1] + [t];
      }
      PositionsMember(ts[..|ts| - 1], idToIdx, n);
    }
  }

  // Positions of the State-tagged targets of one state that are states.
  method StateStateNeighbors(sm: StateMachine, ids: seq<StateId>, idToIdx: map<StateId, nat>, id: StateId)
    returns (out: seq<nat>)
    requires Indexes(sm, ids, idToIdx)
    ensures forall k | 0 <= k < |out| :: out[k] < |ids| && (id, ids[out[k]]) in StateEdges(sm)
    ensures forall y | (id, y) in StateEdges(sm) :: Listed(ids, out, y)
  {
    hide Targets, TargetList;
    if id !in sm.states { return []; }
    var targets := TargetList(sm.states[id]);
    out := [];
    for i := 0 to |targets|
      invariant out == Positions(targets[..i], idToIdx)
    {
      assert targets[..i + 1][..i] == targets[..i];
      if targets[i].ToState? && targets[i].id in idToIdx {
        out := out + [idToIdx[targets[i].id]];
      }
    }
    assert targets[..|targets|] == targets;
    NeighborsRight(sm, ids, idToIdx, id, targets, out);
  }

  lemma NeighborsRight(sm: StateMachine, ids: seq<StateId>, idToIdx: map<StateId, nat>, id: StateId, ts: seq<EdgeTarget>, out: seq<nat>)
    requires Indexes(sm, ids, idToIdx) && id in sm.states
    requires forall t :: t in ts <==> t in Targets(sm.states[id])
    requires out == Positions(ts, idToIdx)
    ensures forall k | 0 <= k < |out| :: out[k] < |ids| && (id, ids[out[k]]) in StateEdges(sm)
    ensures forall y | (id, y) in StateEdges(sm) :: Listed(ids, out, y)
  {
    forall k | 0 <= k < |out| ensures out[k] < |ids| && (id, ids[out[k]]) in StateEdges(sm) {
      PositionsMember(ts, idToIdx, out[k]);
    }
    forall y | (id, y) in StateEdges(sm) ensures Listed(ids, out, y) {
      assert ToState(y) in ts;
      PositionsMember(ts, idToIdx, idToIdx[y]);
      var k :| 0 <= k < |out| && out[k] == idToIdx[y];
    }
  }

  lemma PopStep(s: seq<Id>, m: nat)
    requires m < |s|
    ensures s[..m + 1][..m] == s[..m] && s[..m + 1][m] == s[m]
    ensures Reversed(s[m..]) == Reversed(s[m + 1..]) + [s[m]]
  {
  }

  // The components of a machine's state graph, each exactly one
  // mutual-reachability class, sinks first.
  ghost predicate IsSccList(sm: StateMachine, sccs: seq<seq<StateId>>) {
    SccsOk(StateEdges(sm), sccs) && Union(sccs) == sm.states.Keys
  }

  // A visit from an empty stack empties it again.
  lemma AfterTree(g: Edges, r: Edges, a: View, b: View, x: Id)
    requires Visited(g, r, a, b, x) && a.stack == []
    ensures b.stack == [] && x in b.num && a.num.Keys <= b.num.Keys
  {
    hide AllReach, ReachesAll, Bounded;
  }

  lemma AllEmitted(sm: StateMachine, e: View, ids: seq<Id>, sccs: seq<seq<StateId>>)
    requires Inv(StateEdges(sm), e, {}) && e.stack == [] && e.num.Keys <= sm.states.Keys
    requires forall x | x in sm.states :: x in ids
    requires forall i | 0 <= i < |ids| :: ids[i] in e.num
    requires SccsOk(StateEdges(sm), sccs) && Union(sccs) == e.out
    ensures IsSccList(sm, sccs)
  {
  }

  lemma EmptySearch(g: Edges, nodes: set<Id>)
    ensures View(0, [], map[], map[], {}).num.Keys <= nodes
    ensures Inv(g, View(0, [], map[], map[], {}), {}) && SccsOk(g, [])
    ensures Union([]) == {}
  {
  }

  // The position of each id.
  function Index(ids: seq<StateId>): (m: map<StateId, nat>)
    requires Distinct(ids)
    ensures forall id :: id in m <==> id in ids
    ensures forall id | id in m :: m[id] < |ids| && ids[m[id]] == id
  {
    if ids == [] then map[]
    else
      var n := |ids| - 1;
      assert ids == ids[..n] + [ids[n]];
      Index(ids[..n])[ids[n] := n]
  }

  lemma SortedIndexes(sm: StateMachine)
    ensures var ids := Sorted(sm.states.Keys); Indexes(sm, ids, Index(ids))
  {
    hide Sorted, Index;
    var ids := Sorted(sm.states.Keys);
    assert Index(ids).Keys == sm.states.Keys;
  }

  method TarjanScc(sm: StateMachine) returns (sccs: seq<seq<StateId>>)
    ensures IsSccList(sm, sccs)
  {
    hide Connects, Sorted, Index, Indexes, SccsOk, Inv, StateEdges;
    var ids := Sorted(sm.states.Keys);
    var idToIdx := Index(ids);
    ghost var r := Reachability(StateEdges(sm), sm.states.Keys);
    var state := new TarjanState(ids);
    EmptySearch(StateEdges(sm), sm.states.Keys);
    SortedIndexes(sm);
    state.Run(sm, idToIdx, r);
    sccs := state.sccs;
  }
}
