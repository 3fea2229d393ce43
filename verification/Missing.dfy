// Exactly when a cycle can ask for a state that does not exist.
module Missing {
  import opened Common
  import opened Totals
  import opened Canonical
  import opened Validate
  import opened Driver
  import opened RealRunner

  type CondEval = (string, StateId, nat, Ctx) -> CondResult

  // A state the driver will run when it first gets there.
  predicate Runs(sm: StateMachine, id: StateId) {
    id in sm.states && id !in sm.terminals && sm.states[id].maxVisits >= 1
  }

  // This ending of the child makes the runner go to y.
  predicate Picks(s: State, ending: Ending, y: StateId) {
    var o := ResolveEdge(s, ending);
    o.Edge? && o.next.id == y
  }

  ghost predicate Leads(sm: StateMachine, x: StateId, y: StateId) {
    Runs(sm, x) && exists ending :: Picks(sm.states[x], ending, y)
  }

  ghost predicate Walk(sm: StateMachine, p: seq<StateId>) {
    |p| >= 1 && (forall x <- p :: Runs(sm, x)) && forall i | 0 <= i < |p| - 1 :: Leads(sm, p[i], p[i + 1])
  }

  ghost predicate WalkTo(sm: StateMachine, p: seq<StateId>, x: StateId) {
    Walk(sm, p) && p[0] == sm.start && p[|p| - 1] == x
  }

  // Some children lead the driver from the start to x.
  ghost predicate Reached(sm: StateMachine, x: StateId) {
    exists p :: WalkTo(sm, p, x)
  }

  ghost predicate DanglesAt(sm: StateMachine, s: StateId, missing: StateId) {
    Reached(sm, s) && exists name :: DanglingDefault(sm, s, name, missing)
  }

  // The run reports `missing` as a state it cannot find.
  ghost predicate Hits(sm: StateMachine, cond: CondEval, child: Child, missing: StateId) {
    var v := Drive(sm, RealEnv(cond, child), FRESH, sm.start, None).verdict;
    NotFound(v) && v.meta.stateId == missing
  }

  // ---- a run that hits has a source --------------------------------------------

  ghost predicate Sourced(sm: StateMachine, id: StateId) {
    if Declared(sm, id) then Runs(sm, id) ==> Reached(sm, id) else exists s :: DanglesAt(sm, s, id)
  }

  lemma ReachedNext(sm: StateMachine, x: StateId, y: StateId)
    requires Reached(sm, x) && Leads(sm, x, y) && Runs(sm, y)
    ensures Reached(sm, y)
  {
    var p :| WalkTo(sm, p, x);
    var q := p + [y];
    assert Walk(sm, q);
    assert WalkTo(sm, q, y);
  }

  lemma StepSourced(sm: StateMachine, cond: CondEval, child: Child, c: Ctx, current: StateId, override: Option<string>)
    requires EdgesDeclared(sm) && Keyed(sm) && Sourced(sm, current)
    ensures var turn := Step(sm, RealEnv(cond, child), c, current, override);
      (turn.Go? ==> Sourced(sm, turn.id)) && (turn.Stop? && NotFound(turn.trip.verdict) ==> !Declared(sm, current) && turn.trip.verdict.meta.stateId == current)
  {
    var turn := Step(sm, RealEnv(cond, child), c, current, override);
    if turn.Go? {
      var s := sm.states[current];
      var ending := if turn.event.Executed? then child(s, Bump(c, current)) else Exited(0, None);
      assert Picks(s, ending, turn.id);
      assert Runs(sm, current);
      EdgeDeclared(sm, current, ending);
      if Runs(sm, turn.id) { ReachedNext(sm, current, turn.id); }
      if !Declared(sm, turn.id) { assert DanglesAt(sm, current, turn.id); }
    }
  }

  lemma {:induction false} HitHasSource(sm: StateMachine, cond: CondEval, child: Child, c: Ctx, current: StateId, override: Option<string>)
    requires EdgesDeclared(sm) && Keyed(sm) && Sourced(sm, current)
    ensures var v := Drive(sm, RealEnv(cond, child), c, current, override).verdict;
      NotFound(v) ==> exists s :: DanglesAt(sm, s, v.meta.stateId)
    decreases Budget(Caps(sm), c.visits)
  {
    hide Budget, EdgesDeclared, Keyed, DanglesAt;
    var env := RealEnv(cond, child);
    var turn := Step(sm, env, c, current, override);
    StepSourced(sm, cond, child, c, current, override);
    if turn.Go? {
      StepDrops(sm, env, c, current, override);
      HitHasSource(sm, cond, child, turn.ctx, turn.id, turn.override);
    }
  }

  // ---- and a source is hit -----------------------------------------------------

  function Play(plan: map<StateId, Ending>): Child {
    (s: State, c: Ctx) => if s.id in plan then plan[s.id] else Exited(0, None)
  }

  // Its `if:` never keeps the state from running.
  ghost predicate Unskipped(sm: StateMachine, cond: CondEval, x: StateId) {
    x in sm.states && (sm.states[x].ifCond.None? || forall text, id, n, d :: cond(text, id, n, d) == Holds)
  }

  function Following(p: seq<StateId>, i: nat, missing: StateId): StateId {
    if i + 1 < |p| then p[i + 1] else missing
  }

  ghost predicate Planned(sm: StateMachine, plan: map<StateId, Ending>, p: seq<StateId>, missing: StateId) {
    forall i | 0 <= i < |p| :: Runs(sm, p[i]) && p[i] in plan
      && Picks(sm.states[p[i]], plan[p[i]], Following(p, i, missing))
  }

  lemma StepPlanned(sm: StateMachine, cond: CondEval, plan: map<StateId, Ending>, c: Ctx, x: StateId, y: StateId, override: Option<string>)
    requires Keyed(sm) && Runs(sm, x) && Unskipped(sm, cond, x) && x in plan && Picks(sm.states[x], plan[x], y) && At(c.visits, x) == 0
    ensures var turn := Step(sm, RealEnv(cond, Play(plan)), c, x, override);
      turn.Go? && turn.id == y && forall z | z != x :: At(turn.ctx.visits, z) == At(c.visits, z)
  {
    var s := sm.states[x];
    var env := RealEnv(cond, Play(plan));
    assert env.run(s, Bump(c, x)) == ResolveEdge(s, plan[x]);
  }

  lemma PlanRest(sm: StateMachine, plan: map<StateId, Ending>, p: seq<StateId>, missing: StateId)
    requires p != [] && Planned(sm, plan, p, missing)
    ensures Planned(sm, plan, p[1..], missing)
    ensures Runs(sm, p[0]) && p[0] in plan && Picks(sm.states[p[0]], plan[p[0]], Following(p, 0, missing))
  {
    hide Picks;
    var rest := p[1..];
    forall i | 0 <= i < |rest|
      ensures Runs(sm, rest[i]) && rest[i] in plan && rest[i] in sm.states
        && Picks(sm.states[rest[i]], plan[rest[i]], Following(rest, i, missing))
    {
      assert rest[i] == p[i + 1] && Following(rest, i, missing) == Following(p, i + 1, missing);
    }
  }

  lemma {:induction false} PlanHits(sm: StateMachine, cond: CondEval, plan: map<StateId, Ending>, c: Ctx, p: seq<StateId>, missing: StateId, override: Option<string>)
    requires Keyed(sm) && !Declared(sm, missing) && Distinct(p) && Planned(sm, plan, p, missing)
    requires forall x <- p :: Unskipped(sm, cond, x) && At(c.visits, x) == 0
    ensures var v := Drive(sm, RealEnv(cond, Play(plan)), c, if p == [] then missing else p[0], override).verdict;
      NotFound(v) && v.meta.stateId == missing
    decreases |p|
  {
    hide Budget;
    var env := RealEnv(cond, Play(plan));
    if p == [] {
    } else {
      var next := Following(p, 0, missing);
      assert p[0] in p;
      PlanRest(sm, plan, p, missing);
      StepPlanned(sm, cond, plan, c, p[0], next, override);
      var turn := Step(sm, env, c, p[0], override);
      StepDrops(sm, env, c, p[0], override);
      hide Step, Keyed, Picks, Unskipped;
      forall x | x in p[1..] ensures x in p && x != p[0] { }
      assert p[1..] != [] ==> p[1..][0] == next;
      PlanHits(sm, cond, plan, turn.ctx, p[1..], missing, turn.override);
    }
  }

  lemma PlanFirst(sm: StateMachine, plan: map<StateId, Ending>, p: seq<StateId>, missing: StateId, ending: Ending)
    requires p != [] && Distinct(p) && Planned(sm, plan, p[1..], missing)
    requires Runs(sm, p[0]) && Picks(sm.states[p[0]], ending, Following(p, 0, missing))
    ensures Planned(sm, plan[p[0] := ending], p, missing)
  {
    hide Picks;
    var all, rest := plan[p[0] := ending], p[1..];
    forall i | 0 <= i < |p|
      ensures Runs(sm, p[i]) && p[i] in all && p[i] in sm.states
        && Picks(sm.states[p[i]], all[p[i]], Following(p, i, missing))
    {
      if i > 0 { assert rest[i - 1] == p[i] && p[i] != p[0] && Following(rest, i - 1, missing) == Following(p, i, missing); }
    }
  }

  lemma WalkRest(sm: StateMachine, p: seq<StateId>)
    requires Walk(sm, p) && |p| > 1
    ensures Walk(sm, p[1..])
  {
    hide Leads, Runs;
    forall x | x in p[1..] ensures Runs(sm, x) { assert x in p; }
    forall i | 0 <= i < |p[1..]| - 1 ensures Leads(sm, p[1..][i], p[1..][i + 1]) {
      assert Leads(sm, p[i + 1], p[i + 2]);
    }
  }

  // A walk without a repetition has a plan: each state has its own ending.
  lemma {:induction false} MakePlan(sm: StateMachine, p: seq<StateId>, missing: StateId) returns (plan: map<StateId, Ending>)
    requires Distinct(p) && (p != [] ==> Walk(sm, p) && Leads(sm, p[|p| - 1], missing))
    ensures Planned(sm, plan, p, missing)
  {
    if p == [] {
      plan := map[];
    } else {
      var next, tail := Following(p, 0, missing), p[1..];
      assert Leads(sm, p[0], next);
      if |p| > 1 { WalkRest(sm, p); }
      var rest := MakePlan(sm, tail, missing);
      var ending :| Picks(sm.states[p[0]], ending, next);
      plan := rest[p[0] := ending];
      PlanFirst(sm, rest, p, missing, ending);
    }
  }

  // Cutting out the loops of a walk.
  lemma {:induction false} Simple(sm: StateMachine, p: seq<StateId>, x: StateId) returns (q: seq<StateId>)
    requires WalkTo(sm, p, x)
    ensures WalkTo(sm, q, x) && Distinct(q)
    decreases |p|
  {
    if Distinct(p) {
      q := p;
    } else {
      var i, j :| 0 <= i < j < |p| && p[i] == p[j];
      var r := p[..i] + p[j..];
      assert forall k | 0 <= k < |r| :: r[k] == if k < i then p[k] else p[k + j - i];
      forall k | 0 <= k < |r| - 1 ensures Leads(sm, r[k], r[k + 1]) {
        if k < i { assert Leads(sm, p[k], p[k + 1]); } else { assert Leads(sm, p[k + j - i], p[k + j - i + 1]); }
      }
      q := Simple(sm, r, x);
    }
  }

  ghost predicate AllUnskipped(sm: StateMachine, cond: CondEval) {
    forall x | x in sm.states :: Unskipped(sm, cond, x)
  }

  lemma SourceIsHit(sm: StateMachine, cond: CondEval, s: StateId, missing: StateId) returns (child: Child)
    requires Keyed(sm) && AllUnskipped(sm, cond) && DanglesAt(sm, s, missing)
    ensures Hits(sm, cond, child, missing)
  {
    var name :| DanglingDefault(sm, s, name, missing);
    var p :| WalkTo(sm, p, s);
    p := Simple(sm, p, s);
    assert Picks(sm.states[s], Exited(0, Some(Directive(name, None))), missing);
    var plan := MakePlan(sm, p, missing);
    PlanHits(sm, cond, plan, FRESH, p, missing, None);
    child := Play(plan);
  }

  // ---- the exact condition -----------------------------------------------------

  lemma HitIsSourced(sm: StateMachine, cond: CondEval, child: Child, missing: StateId)
    requires EdgesDeclared(sm) && Keyed(sm) && Declared(sm, sm.start) && Hits(sm, cond, child, missing)
    ensures exists s :: DanglesAt(sm, s, missing)
  {
    if Runs(sm, sm.start) { assert WalkTo(sm, [sm.start], sm.start); }
    HitHasSource(sm, cond, child, FRESH, sm.start, None);
  }

  // On a machine whose written edges and start are declared, as the checker
  // demands, some children and conditions make a cycle report `missing` exactly
  // when some state, reached from the start through states that may run, has an
  // undeclared built-in default of that name.
  lemma MissingExactly(sm: StateMachine, missing: StateId)
    requires EdgesDeclared(sm) && Keyed(sm) && Declared(sm, sm.start)
    ensures (exists cond: CondEval, child: Child :: Hits(sm, cond, child, missing)) <==> exists s :: DanglesAt(sm, s, missing)
  {
    hide EdgesDeclared, Keyed, DanglesAt, Hits;
    if cond: CondEval, child: Child :| Hits(sm, cond, child, missing) {
      HitIsSourced(sm, cond, child, missing);
    }
    if s :| DanglesAt(sm, s, missing) {
      var always: CondEval := (text: string, id: StateId, n: nat, d: Ctx) => Holds;
      var child := SourceIsHit(sm, always, s, missing);
    }
  }

  // Where no state has an `if:` the children alone decide, whatever evaluates it.
  lemma MissingExactlyUnconditional(sm: StateMachine, cond: CondEval, missing: StateId)
    requires EdgesDeclared(sm) && Keyed(sm) && Declared(sm, sm.start)
    requires forall x | x in sm.states :: sm.states[x].ifCond.None?
    ensures (exists child: Child :: Hits(sm, cond, child, missing)) <==> exists s :: DanglesAt(sm, s, missing)
  {
    assert AllUnskipped(sm, cond);
    hide EdgesDeclared, Keyed, DanglesAt, Hits, AllUnskipped;
    if child: Child :| Hits(sm, cond, child, missing) {
      HitIsSourced(sm, cond, child, missing);
    }
    if s :| DanglesAt(sm, s, missing) {
      var child := SourceIsHit(sm, cond, s, missing);
    }
  }
}
