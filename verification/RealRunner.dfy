// The production state runner's last step: from how the child process ended,
// pick the next edge. Spawning and watching the child are not part of this
// model; the child's ending is an arbitrary function of the state and context.
module RealRunner {
  import opened Common
  import opened Canonical
  import opened Sugar
  import opened CycleBounds
  import opened Validate
  import opened Driver

  datatype Ending =
    | Exited(code: int, directive: Option<Directive>)
    | Broke(kind: FailureKind, detail: string)

  type Child = (State, Ctx) -> Ending

  function ResolveEdge(state: State, ending: Ending): StateOutcome {
    match ending
    case Broke(kind, detail) => Failure(kind, detail)
    case Exited(code, None) => Edge(if code == 0 then state.onDone else state.onFail, Captures(code, None))
    case Exited(code, Some(d)) =>
      match ResolveDirective(d.name, state)
      case Some(t) => Edge(t, Captures(code, Some(d)))
      case None => Failure(SchemaDrift, UnknownDirective(d.name))
  }

  function UnknownDirective(name: DirectiveName): string {
    "directive '" + name + "' not in state.directives \U{222A} defaults"
  }

  ghost function RealEnv(cond: (string, StateId, nat, Ctx) -> CondResult, child: Child): Env {
    Env(cond, (s, c) => ResolveEdge(s, child(s, c)))
  }

  // ---- tags after expansion -----------------------------------------------------

  // Every written edge is Terminal-tagged exactly when its id is a terminal.
  ghost predicate Tagged(sm: StateMachine) {
    forall id, t | id in sm.states && t in Targets(sm.states[id]) :: t.ToTerminal? <==> t.id in sm.terminals
  }

  // Before the last pass, a Terminal tag already names a terminal.
  ghost predicate TerminalTagsDeclared(sm: StateMachine) {
    forall id, t | id in sm.states && t in Targets(sm.states[id]) && t.ToTerminal? :: t.id in sm.terminals
  }

  // Builders only ever write Terminal tags for the two default targets.
  ghost predicate DefaultTags(s: State) {
    forall t | t in Targets(s) && t.ToTerminal? :: t.id == SUCCESS || t.id == FAILURE
  }

  lemma TaskStateTags(task: RawTask, next: Option<StateId>, onFail: Option<StateId>)
    ensures DefaultTags(TaskState(task, next, onFail))
  {
  }

  ghost predicate GoodStates(states: map<StateId, State>) {
    forall id | id in states :: states[id].id == id && DefaultTags(states[id])
  }

  lemma InlineGood(raw: map<StateId, RawState>)
    ensures GoodStates(InlineStates(raw))
  {
  }

  lemma {:induction false} WithTasksGood(inline: map<StateId, State>, tasks: seq<RawTask>, onFail: Option<StateId>, k: nat)
    requires k <= |tasks| && GoodStates(inline)
    ensures GoodStates(WithTasks(inline, tasks, onFail, k))
  {
    hide DefaultTags;
    if k == 0 {
    } else {
      WithTasksGood(inline, tasks, onFail, k - 1);
      TaskStateTags(tasks[k - 1], NextId(tasks, k - 1), onFail);
    }
  }

  lemma BuiltGood(body: RawBody, ruleIdx: nat)
    requires Built(body, ruleIdx).Ok?
    ensures GoodStates(Built(body, ruleIdx).value.states)
    ensures Keyed(Built(body, ruleIdx).value)
  {
    hide DefaultTags;
    match body {
      case CanonicalBody(start, states, terminals) => InlineGood(states);
      case SugarBody(tasks, states, terminals, onFail) =>
        InlineGood(states);
        WithTasksGood(InlineStates(states), tasks, onFail, |tasks|);
    }
  }

  lemma Pass1Declares(sm: StateMachine)
    requires GoodStates(sm.states)
    ensures TerminalTagsDeclared(Pass1(sm))
  {
  }

  lemma ClassifyTags(sm: StateMachine)
    requires TerminalTagsDeclared(sm)
    ensures Tagged(Classified(sm))
  {
    var c := Classified(sm);
    forall id, t | id in c.states && t in Targets(c.states[id]) ensures t.ToTerminal? <==> t.id in c.terminals {
      ReclassifiedTag(sm.states[id], sm.terminals.Keys, t);
    }
  }

  lemma ReclassifiedTag(s: State, terminals: set<StateId>, t: EdgeTarget)
    requires forall u | u in Targets(s) && u.ToTerminal? :: u.id in terminals
    requires t in Targets(ReclassifyState(s, terminals))
    ensures t.ToTerminal? <==> t.id in terminals
  {
  }

  // Every expanded machine is filed under its own ids and tagged right, whether
  // or not it then passes the checker.
  lemma ExpandTagged(body: RawBody, ruleIdx: nat, cap: nat)
    requires Expand(body, ruleIdx, cap).Ok?
    ensures Tagged(Expand(body, ruleIdx, cap).value) && Keyed(Expand(body, ruleIdx, cap).value)
  {
    hide Built;
    BuiltGood(body, ruleIdx);
    TagsThroughPasses(Built(body, ruleIdx).value, cap);
  }

  lemma TagsThroughPasses(built: StateMachine, cap: nat)
    requires GoodStates(built.states) && Keyed(built)
    ensures Tagged(Classified(Pass5(Pass1(built), cap))) && Keyed(Classified(Pass5(Pass1(built), cap)))
  {
    Pass1Declares(built);
    var p := Pass1(built);
    Pass5KeepsTags(p, cap);
    ClassifyTags(Pass5(p, cap));
  }

  lemma Pass5KeepsTags(sm: StateMachine, cap: nat)
    requires TerminalTagsDeclared(sm) && Keyed(sm)
    ensures TerminalTagsDeclared(Pass5(sm, cap)) && Keyed(Pass5(sm, cap))
  {
  }

  // ---- when a run can ask for a state that does not exist ----------------------

  // A child of state s answered with a built-in directive that s does not
  // remap, and whose default terminal `missing` is not declared.
  ghost predicate DanglingDefault(sm: StateMachine, s: StateId, name: DirectiveName, missing: StateId) {
    && s in sm.states && name !in sm.states[s].directives
    && BuiltinTarget(name) == Some(missing) && !Declared(sm, missing)
  }

  ghost predicate EdgesDeclared(sm: StateMachine) {
    forall id, t | id in sm.states && t in Targets(sm.states[id]) :: Declared(sm, t.id)
  }

  ghost predicate Dangles(sm: StateMachine, missing: StateId) {
    exists s, name :: DanglingDefault(sm, s, name, missing)
  }

  // The driver asked for an id that is neither a state nor a terminal.
  ghost predicate NotFound(v: Verdict) {
    v.Aborted? && v.meta.errorText == StateNotFound
  }

  // One turn from a declared id leads to a declared id, or to the undeclared
  // default of a built-in directive.
  lemma StepDeclared(sm: StateMachine, cond: (string, StateId, nat, Ctx) -> CondResult, child: Child,
      c: Ctx, current: StateId, override: Option<string>)
    requires EdgesDeclared(sm) && Keyed(sm) && Declared(sm, current)
    ensures match Step(sm, RealEnv(cond, child), c, current, override)
      case Stop(trip) => !NotFound(trip.verdict)
      case Go(e, d, id, o) => Declared(sm, id) || Dangles(sm, id)
  {
    var turn := Step(sm, RealEnv(cond, child), c, current, override);
    if turn.Go? {
      var s := sm.states[current];
      if turn.event.Executed? {
        EdgeDeclared(sm, current, child(s, Bump(c, current)));
      } else {
        assert s.onDone in Targets(s);
      }
    }
  }

  lemma EdgeDeclared(sm: StateMachine, id: StateId, ending: Ending)
    requires EdgesDeclared(sm) && Keyed(sm) && id in sm.states
    ensures var o := ResolveEdge(sm.states[id], ending);
      o.Edge? ==> Declared(sm, o.next.id) || exists name :: DanglingDefault(sm, id, name, o.next.id)
  {
    var s := sm.states[id];
    var o := ResolveEdge(s, ending);
    if o.Edge? {
      if ending.directive == None {
        assert o.next in Targets(s);
      } else {
        var name := ending.directive.value.name;
        if name in s.directives {
          assert s.directives[name] in s.directives.Values;
          assert o.next in Targets(s);
        } else if BuiltinTarget(name).Some? && !Declared(sm, o.next.id) {
          assert DanglingDefault(sm, id, name, o.next.id);
        }
      }
    }
  }

  // A machine whose written edges are all declared, as the checker demands, can
  // only ask for a missing state through the undeclared default of a built-in
  // directive.
  lemma {:induction false} NotFoundDangles(sm: StateMachine, cond: (string, StateId, nat, Ctx) -> CondResult, child: Child,
      c: Ctx, current: StateId, override: Option<string>)
    requires EdgesDeclared(sm) && Keyed(sm) && (Declared(sm, current) || Dangles(sm, current))
    ensures var v := Drive(sm, RealEnv(cond, child), c, current, override).verdict;
      NotFound(v) ==> v.meta.kind == SchemaDrift && Dangles(sm, v.meta.stateId)
    decreases Budget(Caps(sm), c.visits)
  {
    hide Budget, EdgesDeclared, Dangles, Keyed;
    var env := RealEnv(cond, child);
    var turn := Step(sm, env, c, current, override);
    if Declared(sm, current) {
      StepDeclared(sm, cond, child, c, current, override);
    }
    if turn.Go? {
      StepDrops(sm, env, c, current, override);
      NotFoundDangles(sm, cond, child, turn.ctx, turn.id, turn.override);
    }
  }

  // So with all four built-in terminals declared it never happens.
  lemma AllDeclaredNeverNotFound(sm: StateMachine, cond: (string, StateId, nat, Ctx) -> CondResult, child: Child)
    requires WellFormed(sm) && Keyed(sm) && BUILTINS <= sm.terminals.Keys
    ensures !NotFound(Drive(sm, RealEnv(cond, child), FRESH, sm.start, None).verdict)
  {
    hide CyclesBounded;
    NotFoundDangles(sm, cond, child, FRESH, sm.start, None);
    forall s, name, m ensures !DanglingDefault(sm, s, name, m) {
    }
  }

  // Any body that expands and passes the checker, under any child and `if:`
  // evaluator.
  lemma CheckedExpansionRuns(body: RawBody, ruleIdx: nat, cap: nat, cond: (string, StateId, nat, Ctx) -> CondResult, child: Child)
    requires Expand(body, ruleIdx, cap).Ok? && WellFormed(Expand(body, ruleIdx, cap).value)
    ensures var sm := Expand(body, ruleIdx, cap).value;
      var v := Drive(sm, RealEnv(cond, child), FRESH, sm.start, None).verdict;
      Tagged(sm) && (NotFound(v) ==> v.meta.kind == SchemaDrift && Dangles(sm, v.meta.stateId))
  {
    ExpandTagged(body, ruleIdx, cap);
    var sm := Expand(body, ruleIdx, cap).value;
    hide Expand, CyclesBounded;
    NotFoundDangles(sm, cond, child, FRESH, sm.start, None);
  }
}
