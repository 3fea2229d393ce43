// What expansion guarantees about the machines it produces.
module ExpansionFacts {
  import opened Common
  import opened Graph
  import opened Canonical
  import opened CycleBounds
  import opened Durations
  import opened Sugar

  // ---- visit bounds ----------------------------------------------------------------

  lemma MutualTrans(g: Edges, x: Id, y: Id, z: Id)
    requires Mutual(g, x, y) && Mutual(g, y, z)
    ensures Mutual(g, x, z)
  {
    ReachTrans(g, x, y, z);
    ReachTrans(g, z, y, x);
  }

  // Being on a cycle is a property of the whole class.
  lemma CycleOfClass(g: Edges, x: Id, y: Id)
    requires OnCycle(g, x) && Mutual(g, x, y)
    ensures OnCycle(g, y)
  {
    if x != y {
      var p :| PathBetween(g, p, y, x);
      var q := p[1..];
      assert (p[0], p[1]) in g;
      forall i | 0 <= i < |q| - 1 ensures (q[i], q[i + 1]) in g { assert q[i] == p[i + 1] && q[i + 1] == p[i + 2]; }
      assert PathBetween(g, q, p[1], x);
      ReachTrans(g, p[1], x, y);
    }
  }

  // The least member of a cyclic class without a bound is the one injected.
  lemma LeastInjected(sm: StateMachine, id: StateId)
    requires id in sm.states && OnCycle(StateEdges(sm), id) && !HasBound(sm, id)
    ensures exists x :: x in sm.states && Injects(sm, x) && Mutual(StateEdges(sm), id, x)
  {
    var g := StateEdges(sm);
    ReachRefl(g, id);
    assert id in Class(sm, id);
    var x := Least(Class(sm, id));
    CycleOfClass(g, id, x);
    forall m | m in sm.states && Mutual(g, x, m) ensures LexLeq(x, m) && sm.states[m].maxVisits <= 1 {
      MutualTrans(g, id, x, m);
      assert m in Class(sm, id);
    }
    assert Injects(sm, x);
  }

  // With a cap that allows a second visit pass 5 bounds every cycle, whatever
  // the operator declared; with a smaller cap it bounds exactly the machines
  // that were bounded already.
  lemma Pass5Bounds(sm: StateMachine, cap: nat)
    ensures CyclesBounded(Pass5(sm, cap)) <==> cap >= 2 || CyclesBounded(sm)
  {
    Pass5Ends(sm, cap);
    SameGraph(sm, cap, sm.states.Keys);
    var g := StateEdges(sm);
    var p := Pass5(sm, cap);
    forall id | id in sm.states && OnCycle(g, id) ensures HasBound(p, id) <==> cap >= 2 || HasBound(sm, id) {
      if HasBound(sm, id) {
        var m :| m in sm.states && Mutual(g, id, m) && sm.states[m].maxVisits > 1;
        BoundedNotInjected(sm, m);
        assert p.states[m] == sm.states[m];
      } else if cap >= 2 {
        LeastInjected(sm, id);
        var x :| x in sm.states && Injects(sm, x) && Mutual(g, id, x);
        assert p.states[x].maxVisits == cap;
      }
    }
  }

  lemma BoundedNotInjected(sm: StateMachine, m: StateId)
    requires m in sm.states && sm.states[m].maxVisits > 1
    ensures !Injects(sm, m)
  {
    ReachRefl(StateEdges(sm), m);
  }

  // Pass 5 replaces at most one cap in each class.
  lemma OneInjectionPerClass(sm: StateMachine, x: StateId, y: StateId)
    requires Injects(sm, x) && Injects(sm, y) && Mutual(StateEdges(sm), x, y)
    ensures x == y
  {
    LexAntisymmetric(x, y);
  }

  // Retagging only cuts edges whose target is both a state and a terminal.
  lemma ClassifyKeepsGraph(sm: StateMachine)
    requires sm.states.Keys !! sm.terminals.Keys
    ensures StateEdges(Classified(sm)) == StateEdges(sm)
  {
    var c := Classified(sm);
    forall x, y | x in sm.states && y in sm.states
      ensures ToState(y) in Targets(c.states[x]) <==> ToState(y) in Targets(sm.states[x])
    {
      ReclassifiedTarget(sm.states[x], sm.terminals.Keys, ToState(y));
    }
  }

  lemma ReclassifiedTarget(s: State, terminals: set<StateId>, t: EdgeTarget)
    ensures t in Targets(ReclassifyState(s, terminals)) <==> exists u :: u in Targets(s) && Reclassify(u, terminals) == t
  {
    var c := ReclassifyState(s, terminals);
    if t in c.directives.Values {
      var n :| n in c.directives && c.directives[n] == t;
      assert s.directives[n] in s.directives.Values;
    }
    if u :| u in s.directives.Values && Reclassify(u, terminals) == t {
      var n :| n in s.directives && s.directives[n] == u;
      assert c.directives[n] == t;
    }
  }

  lemma ClassifyKeepsBounds(sm: StateMachine)
    requires sm.states.Keys !! sm.terminals.Keys
    ensures CyclesBounded(Classified(sm)) <==> CyclesBounded(sm)
  {
    ClassifyKeepsGraph(sm);
    var c := Classified(sm);
    forall id | id in sm.states ensures HasBound(c, id) <==> HasBound(sm, id) {
    }
  }

  lemma Pass1KeepsBounds(sm: StateMachine)
    ensures CyclesBounded(Pass1(sm)) <==> CyclesBounded(sm)
  {
  }

  // No state shares its id with a declared or injected terminal.
  ghost predicate NamesDisjoint(built: StateMachine) {
    built.states.Keys !! Pass1(built).terminals.Keys
  }

  // The checker's cycle rule and pass 5 agree: on every body none of whose
  // states shares an id with a terminal, expansion leaves no unbounded cycle
  // exactly when the default cap allows a second visit or the operator bounded
  // every cycle.
  lemma ExpansionBounded(body: RawBody, ruleIdx: nat, cap: nat)
    requires Built(body, ruleIdx).Ok? && NamesDisjoint(Built(body, ruleIdx).value)
    ensures CyclesBounded(Expand(body, ruleIdx, cap).value) <==> cap >= 2 || CyclesBounded(Built(body, ruleIdx).value)
  {
    hide Pass1, Pass5, Classified, CyclesBounded, Built;
    MachineBounded(Built(body, ruleIdx).value, cap);
  }

  lemma MachineBounded(built: StateMachine, cap: nat)
    requires NamesDisjoint(built)
    ensures CyclesBounded(Classified(Pass5(Pass1(built), cap))) <==> cap >= 2 || CyclesBounded(built)
  {
    hide CyclesBounded, Classified;
    Pass1KeepsBounds(built);
    Pass5Bounds(Pass1(built), cap);
    ClassifyKeepsBounds(Pass5(Pass1(built), cap));
  }

  // Without that, what counts is the graph that retagging leaves: every cycle of
  // it needs, in its class there, a state with a cap of its own or one that pass 5
  // chose on the graph before.
  ghost predicate KeepsBound(sm: StateMachine, cap: nat, id: StateId) {
    exists m :: m in sm.states && Mutual(StateEdges(Classified(sm)), id, m)
                && (sm.states[m].maxVisits > 1 || (cap >= 2 && Injects(sm, m)))
  }

  lemma RetaggedGraph(sm: StateMachine, cap: nat)
    ensures StateEdges(Classified(Pass5(sm, cap))) == StateEdges(Classified(sm))
    ensures Classified(Pass5(sm, cap)).states.Keys == sm.states.Keys
  {
    var c, d := Classified(Pass5(sm, cap)), Classified(sm);
    RetaggedKeys(sm, cap);
    hide Classified, Pass5;
    forall x | x in sm.states ensures c.states[x] == d.states[x].(maxVisits := c.states[x].maxVisits) {
      RetaggedState(sm, cap, x);
    }
    SameTargets(c, d);
  }

  lemma RetaggedKeys(sm: StateMachine, cap: nat)
    ensures Classified(Pass5(sm, cap)).states.Keys == Classified(sm).states.Keys == sm.states.Keys
  {
    hide Injects, ReclassifyState;
  }

  lemma RetaggedState(sm: StateMachine, cap: nat, x: StateId)
    requires x in sm.states
    ensures var c, d := Classified(Pass5(sm, cap)), Classified(sm);
      x in c.states && x in d.states && c.states[x] == d.states[x].(maxVisits := c.states[x].maxVisits)
  {
    hide Injects, Reclassify;
  }

  lemma SameTargets(c: StateMachine, d: StateMachine)
    requires c.states.Keys == d.states.Keys
    requires forall x | x in d.states :: c.states[x] == d.states[x].(maxVisits := c.states[x].maxVisits)
    ensures StateEdges(c) == StateEdges(d)
  {
    forall x | x in d.states ensures Targets(c.states[x]) == Targets(d.states[x]) {
    }
    hide Targets;
  }

  lemma CapAfter(sm: StateMachine, cap: nat, m: StateId)
    requires m in sm.states
    ensures m in Classified(Pass5(sm, cap)).states
    ensures Classified(Pass5(sm, cap)).states[m].maxVisits > 1 <==> sm.states[m].maxVisits > 1 || (cap >= 2 && Injects(sm, m))
  {
    hide Injects;
    if sm.states[m].maxVisits > 1 { BoundedNotInjected(sm, m); }
  }

  lemma BoundAfter(sm: StateMachine, cap: nat, id: StateId)
    ensures HasBound(Classified(Pass5(sm, cap)), id) <==> KeepsBound(sm, cap, id)
  {
    var c := Classified(Pass5(sm, cap));
    RetaggedGraph(sm, cap);
    forall m | m in sm.states ensures c.states[m].maxVisits > 1 <==> sm.states[m].maxVisits > 1 || (cap >= 2 && Injects(sm, m)) {
      CapAfter(sm, cap, m);
    }
    hide Classified, Pass5, Injects, Mutual, StateEdges;
  }

  lemma RetaggedBounded(sm: StateMachine, cap: nat)
    ensures CyclesBounded(Classified(Pass5(sm, cap)))
            <==> forall id | id in sm.states && OnCycle(StateEdges(Classified(sm)), id) :: KeepsBound(sm, cap, id)
  {
    RetaggedGraph(sm, cap);
    forall id ensures HasBound(Classified(Pass5(sm, cap)), id) <==> KeepsBound(sm, cap, id) {
      BoundAfter(sm, cap, id);
    }
    hide Classified, Pass5, HasBound, KeepsBound, OnCycle, StateEdges;
  }

  // The same for every body that builds, shared ids or not: exactly when expansion
  // leaves no unbounded cycle.
  lemma ExpansionBoundedExactly(body: RawBody, ruleIdx: nat, cap: nat)
    requires Built(body, ruleIdx).Ok?
    ensures var sm := Pass1(Built(body, ruleIdx).value);
      CyclesBounded(Expand(body, ruleIdx, cap).value)
      <==> forall id | id in sm.states && OnCycle(StateEdges(Classified(sm)), id) :: KeepsBound(sm, cap, id)
  {
    hide Built, Pass1, Pass5, Classified, CyclesBounded, KeepsBound;
    RetaggedBounded(Pass1(Built(body, ruleIdx).value), cap);
  }

  // In this body the state `a` shares its id with a terminal, pass 5 puts the
  // bound on `a`, and retagging then cuts `a` out of the cycle, so `b` and `c` are
  // left on an unbounded cycle whatever the cap.
  const OVERLAP_BODY: RawBody := CanonicalBody(
    "b",
    map["a" := Bare(Some("b"), None), "b" := Bare(Some("c"), None), "c" := Bare(Some("b"), Some("a"))],
    map["a" := "stop"])

  function Bare(onDone: Option<StateId>, onFail: Option<StateId>): RawState {
    RawState(Some("true"), None, None, None, onDone, onFail, map[], None)
  }

  predicate Linked(s: State, onDone: EdgeTarget, onFail: EdgeTarget) {
    s.onDone == onDone && s.onFail == onFail && s.directives.Keys == {} && s.maxVisits == 1
  }

  predicate Overlapping(sm: StateMachine) {
    && sm.states.Keys == {"a", "b", "c"} && "a" in sm.terminals && "b" !in sm.terminals && "c" !in sm.terminals
    && Linked(sm.states["a"], ToState("b"), ToTerminal(FAILURE))
    && Linked(sm.states["b"], ToState("c"), ToTerminal(FAILURE))
    && Linked(sm.states["c"], ToState("b"), ToState("a"))
  }

  lemma OverlapBuilt(ruleIdx: nat)
    ensures Built(OVERLAP_BODY, ruleIdx).Ok? && Overlapping(Pass1(Built(OVERLAP_BODY, ruleIdx).value))
  {
    var raw := OVERLAP_BODY.states;
    NoneMalformed(raw);
    BareState("a", Some("b"), None);
    BareState("b", Some("c"), None);
    BareState("c", Some("b"), Some("a"));
    hide FirstMalformed, Pass1, Overlapping, RawToState, Bare, Linked;
    var built := Built(OVERLAP_BODY, ruleIdx).value;
    assert built.states.Keys == {"a", "b", "c"} && built.terminals.Keys == {"a"};
    OverlapInjected(built);
  }

  lemma OverlapInjected(built: StateMachine)
    requires built.states.Keys == {"a", "b", "c"} && built.terminals.Keys == {"a"}
    requires Linked(built.states["a"], ToState("b"), ToTerminal(FAILURE))
    requires Linked(built.states["b"], ToState("c"), ToTerminal(FAILURE))
    requires Linked(built.states["c"], ToState("b"), ToState("a"))
    ensures Overlapping(Pass1(built))
  {
    hide Referenced, Linked;
  }

  lemma BareState(id: StateId, onDone: Option<StateId>, onFail: Option<StateId>)
    ensures Linked(RawToState(id, Bare(onDone, onFail)), EdgeOr(onDone, SUCCESS), EdgeOr(onFail, FAILURE))
    ensures !Unreadable(Bare(onDone, onFail).timeout)
  {
  }

  lemma OverlapUnbounded(ruleIdx: nat, cap: nat)
    ensures Expand(OVERLAP_BODY, ruleIdx, cap).Ok? && !CyclesBounded(Expand(OVERLAP_BODY, ruleIdx, cap).value)
  {
    OverlapBuilt(ruleIdx);
    hide Built, Overlapping, CyclesBounded;
    LeftoverCycle(Pass1(Built(OVERLAP_BODY, ruleIdx).value), cap);
  }

  // A state pass 5 leaves alone is only retagged.
  lemma NotInjected(sm: StateMachine, cap: nat, id: StateId)
    requires id in sm.states && !Injects(sm, id)
    ensures var c := Classified(Pass5(sm, cap));
      c.states.Keys == sm.states.Keys && c.states[id] == ReclassifyState(sm.states[id], sm.terminals.Keys)
  {
  }

  lemma LeftoverCycle(sm: StateMachine, cap: nat)
    requires Overlapping(sm)
    ensures !CyclesBounded(Classified(Pass5(sm, cap)))
  {
    OverlapInjection(sm);
    NotInjected(sm, cap, "b");
    NotInjected(sm, cap, "c");
    var c := Classified(Pass5(sm, cap));
    hide Classified, Pass5, Injects;
    assert Linked(c.states["b"], ToState("c"), ToTerminal(FAILURE)) && Linked(c.states["c"], ToState("b"), ToTerminal("a"));
    PairUnbounded(c);
  }

  lemma PairUnbounded(c: StateMachine)
    requires c.states.Keys == {"a", "b", "c"}
    requires Linked(c.states["b"], ToState("c"), ToTerminal(FAILURE)) && Linked(c.states["c"], ToState("b"), ToTerminal("a"))
    ensures !CyclesBounded(c)
  {
    var h := StateEdges(c);
    assert c.states["b"].directives.Values == {} && c.states["c"].directives.Values == {};
    assert ("b", "c") in h && ("c", "b") in h;
    ReachEdge(h, "c", "b");
    forall m | m in c.states && Mutual(h, "b", m) ensures c.states[m].maxVisits <= 1 {
      ReachClosed(h, {"b", "c"}, "b", m);
    }
    assert OnCycle(h, "b") && !HasBound(c, "b");
  }

  lemma OverlapInjection(sm: StateMachine)
    requires Overlapping(sm)
    ensures !Injects(sm, "b") && !Injects(sm, "c")
  {
    var g := StateEdges(sm);
    assert ("a", "b") in g && ("b", "c") in g && ("c", "a") in g;
    ReachEdge(g, "a", "b"); ReachEdge(g, "b", "c"); ReachEdge(g, "c", "a");
    ReachTrans(g, "b", "c", "a"); ReachTrans(g, "a", "b", "c");
    assert Mutual(g, "b", "a") && Mutual(g, "c", "a");
    assert !LexLeq("b", "a") && !LexLeq("c", "a");
  }

  // ---- caps written inside directives ------------------------------------------------

  function Stripped(raw: map<DirectiveName, RawTarget>): map<DirectiveName, RawTarget> {
    map n | n in raw :: Short(TargetId(raw[n]))
  }

  function StripState(s: RawState): RawState {
    s.(directives := Stripped(s.directives))
  }

  function StripTask(t: RawTask): RawTask {
    t.(directives := Stripped(t.directives))
  }

  // Every long-form directive cut down to its target.
  function StripBody(body: RawBody): RawBody {
    match body
    case EmptyBody => EmptyBody
    case CanonicalBody(start, states, terminals) =>
      CanonicalBody(start, map id | id in states :: StripState(states[id]), terminals)
    case SugarBody(tasks, states, terminals, onFail) =>
      SugarBody(seq(|tasks|, i requires 0 <= i < |tasks| => StripTask(tasks[i])), map id | id in states :: StripState(states[id]), terminals, onFail)
  }

  lemma StrippedState(id: StateId, s: RawState)
    ensures RawToState(id, StripState(s)) == RawToState(id, s)
  {
    hide Timeout;
    assert ConvertDirectives(Stripped(s.directives)) == ConvertDirectives(s.directives);
  }

  lemma StrippedInline(states: map<StateId, RawState>)
    ensures var bare := map id | id in states :: StripState(states[id]);
      InlineStates(bare) == InlineStates(states) && FirstMalformed(bare) == FirstMalformed(states)
  {
    var bare := map id | id in states :: StripState(states[id]);
    hide RawToState, Unreadable, Stripped, Least;
    forall id | id in states ensures RawToState(id, bare[id]) == RawToState(id, states[id]) {
      StrippedState(id, states[id]);
    }
    assert InlineStates(bare) == InlineStates(states);
    hide InlineStates;
    assert (set id | id in bare && Unreadable(bare[id].timeout)) == (set id | id in states && Unreadable(states[id].timeout));
  }

  lemma {:induction false} StrippedTasks(inline: map<StateId, State>, tasks: seq<RawTask>, bare: seq<RawTask>, onFail: Option<StateId>, k: nat)
    requires k <= |tasks| == |bare| && forall i | 0 <= i < |tasks| :: bare[i] == StripTask(tasks[i])
    ensures WithTasks(inline, bare, onFail, k) == WithTasks(inline, tasks, onFail, k)
    ensures FirstBadTask(bare, k) == FirstBadTask(tasks, k)
  {
    if k == 0 {
    } else {
      StrippedTasks(inline, tasks, bare, onFail, k - 1);
      StrippedTask(tasks[k - 1], NextId(tasks, k - 1), onFail);
      assert NextId(bare, k - 1) == NextId(tasks, k - 1);
      hide TaskState, NextId, Stripped, Unreadable;
    }
  }

  lemma StrippedTask(task: RawTask, next: Option<StateId>, onFail: Option<StateId>)
    ensures TaskState(StripTask(task), next, onFail) == TaskState(task, next, onFail)
  {
    assert ConvertDirectives(Stripped(task.directives)) == ConvertDirectives(task.directives);
  }

  lemma StrippedBuilt(body: RawBody, ruleIdx: nat)
    ensures Built(StripBody(body), ruleIdx) == Built(body, ruleIdx)
  {
    hide InlineStates, FirstMalformed, StripState, WithTasks, FirstBadTask;
    match body {
      case EmptyBody =>
      case CanonicalBody(_, states, _) => StrippedInline(states);
      case SugarBody(tasks, states, _, onFail) =>
        StrippedInline(states);
        StrippedTasks(InlineStates(states), tasks, StripBody(body).tasks, onFail, |tasks|);
    }
  }

  // A `max_visits` inside a directive changes nothing: bodies that differ only in
  // those expand to the same machine, or to the same error.
  lemma DirectiveCapsDropped(body: RawBody, other: RawBody, ruleIdx: nat, cap: nat)
    requires StripBody(body) == StripBody(other)
    ensures Expand(body, ruleIdx, cap) == Expand(other, ruleIdx, cap)
  {
    hide Built, StripBody;
    StrippedBuilt(body, ruleIdx);
    StrippedBuilt(other, ruleIdx);
  }

  // ---- when expansion fails --------------------------------------------------------

  predicate Readable(t: Option<string>) {
    t == None || ParseDuration(t.value) != None
  }

  // The first task whose timeout cannot be read.
  predicate FirstBad(tasks: seq<RawTask>, i: nat) {
    i < |tasks| && !Readable(tasks[i].timeout) && forall j | 0 <= j < i :: Readable(tasks[j].timeout)
  }

  // The inline state, least in id order, whose timeout cannot be read.
  predicate LeastBad(states: map<StateId, RawState>, id: StateId) {
    id in states && !Readable(states[id].timeout) && forall x | x in states && !Readable(states[x].timeout) :: LexLeq(id, x)
  }

  lemma {:induction false} FirstBadIs(tasks: seq<RawTask>, k: nat)
    requires k <= |tasks|
    ensures FirstBadTask(tasks, k) == None <==> forall j | 0 <= j < k :: Readable(tasks[j].timeout)
    ensures FirstBadTask(tasks, k).Some? ==> exists i: nat :: i < k && FirstBad(tasks, i) && tasks[i].timeout == FirstBadTask(tasks, k)
  {
    hide ParseDuration;
    if k == 0 {
    } else {
      FirstBadIs(tasks, k - 1);
      if FirstBadTask(tasks, k - 1) == None && !Readable(tasks[k - 1].timeout) { assert FirstBad(tasks, k - 1); }
    }
  }

  lemma LeastBadIs(states: map<StateId, RawState>)
    ensures FirstMalformed(states) == None <==> forall id | id in states :: Readable(states[id].timeout)
    ensures FirstMalformed(states).Some? ==> exists id :: LeastBad(states, id) && states[id].timeout == FirstMalformed(states)
  {
    hide ParseDuration;
    var bad := set id | id in states && Unreadable(states[id].timeout);
    if bad != {} {
      assert LeastBad(states, Least(bad));
    } else {
      forall id | id in states ensures Readable(states[id].timeout) { assert id !in bad; }
    }
  }

  // A body expands exactly when it has states or tasks and every timeout can be
  // read. The inline states are read before the tasks, in id order, and the tasks
  // in their own; the first text that is no duration is reported.
  lemma ExpansionFails(body: RawBody, ruleIdx: nat, cap: nat)
    ensures var r := Expand(body, ruleIdx, cap);
      match body
      case EmptyBody => r == Err(NoBody(ruleIdx))
      case CanonicalBody(_, states, _) =>
        if forall id | id in states :: Readable(states[id].timeout) then r.Ok?
        else exists id :: LeastBad(states, id) && r == Err(InvalidDuration(ruleIdx, states[id].timeout.value))
      case SugarBody(tasks, states, _, _) =>
        if tasks == [] then r == Err(EmptyTasks(ruleIdx))
        else if exists id :: id in states && !Readable(states[id].timeout) then
          exists id :: LeastBad(states, id) && r == Err(InvalidDuration(ruleIdx, states[id].timeout.value))
        else if exists j :: 0 <= j < |tasks| && !Readable(tasks[j].timeout) then
          exists i: nat :: FirstBad(tasks, i) && r == Err(InvalidDuration(ruleIdx, tasks[i].timeout.value))
        else r.Ok?
  {
    hide FirstMalformed, FirstBadTask, Pass1, Pass5, Classified, InlineStates, WithTasks, Readable, LexLeq;
    match body {
      case EmptyBody =>
      case CanonicalBody(_, states, _) => LeastBadIs(states);
      case SugarBody(tasks, states, _, _) =>
        LeastBadIs(states);
        FirstBadIs(tasks, |tasks|);
    }
  }
}
