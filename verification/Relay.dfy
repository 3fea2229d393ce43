// A two-state body that expands, passes the checker, and shows at run time two
// things the checker does not exclude.
module Relay {
  import opened Common
  import opened Graph
  import opened Canonical
  import opened CycleBounds
  import opened Durations
  import opened Sugar
  import opened Validate
  import opened Driver
  import opened DriverFacts
  import opened RealRunner
  import opened Missing

  // `a` knows the directive `next`, which hands over to `b`, and `b` knows `stop`.
  const BODY: RawBody := CanonicalBody(
    "a",
    map[
      "a" := RawOneWay(Some("b"), "next", "b"),
      "b" := RawOneWay(None, "stop", "done")],
    map["done" := "stopped"])

  function RawOneWay(onDone: Option<StateId>, name: DirectiveName, to: StateId): RawState {
    RawState(Some("true"), None, None, None, onDone, None, map[name := Short(to)], None)
  }

  predicate OneWay(s: State, id: StateId, onDone: EdgeTarget, name: DirectiveName, to: EdgeTarget) {
    && s.id == id && s.body == Run("true") && s.ifCond == None && s.maxVisits == 1
    && s.onDone == onDone && s.onFail == ToTerminal(FAILURE)
    && s.directives.Keys == {name} && s.directives[name] == to
  }

  // The two states; `stop` is the edge where `b` ends early.
  predicate TwoStates(sm: StateMachine, stop: EdgeTarget) {
    && sm.start == "a" && sm.states.Keys == {"a", "b"}
    && OneWay(sm.states["a"], "a", ToState("b"), "next", ToState("b"))
    && OneWay(sm.states["b"], "b", ToTerminal(SUCCESS), "stop", stop)
  }

  predicate ThreeTerminals(sm: StateMachine) {
    && sm.terminals.Keys == {"done", SUCCESS, FAILURE}
    && sm.terminals["done"] == Terminal("done", "stopped")
    && sm.terminals[SUCCESS] == Terminal(SUCCESS, "success") && sm.terminals[FAILURE] == Terminal(FAILURE, "failure")
  }

  // What the body expands to.
  predicate IsRelay(sm: StateMachine) {
    TwoStates(sm, ToTerminal("done")) && ThreeTerminals(sm)
  }

  lemma BodyBuilds(ruleIdx: nat)
    ensures Built(BODY, ruleIdx).Ok?
    ensures var built := Built(BODY, ruleIdx).value;
      && TwoStates(built, ToState("done"))
      && built.terminals.Keys == {"done"} && built.terminals["done"] == Terminal("done", "stopped")
  {
    var raw := BODY.states;
    NoneMalformed(raw);
    hide FirstMalformed, OneWay;
    assert InlineStates(raw).Keys == {"a", "b"};
    StateBuilds("a", Some("b"), "next", "b");
    StateBuilds("b", None, "stop", "done");
    assert raw["a"] == RawOneWay(Some("b"), "next", "b") && raw["b"] == RawOneWay(None, "stop", "done");
    hide RawToState, RawOneWay;
  }

  lemma StateBuilds(id: StateId, onDone: Option<StateId>, name: DirectiveName, to: StateId)
    ensures OneWay(RawToState(id, RawOneWay(onDone, name, to)), id, EdgeOr(onDone, SUCCESS), name, ToState(to))
  {
  }

  lemma RelayTargets(sm: StateMachine, stop: EdgeTarget)
    requires TwoStates(sm, stop)
    ensures Targets(sm.states["a"]) == {ToState("b"), ToTerminal(FAILURE)}
    ensures Targets(sm.states["b"]) == {ToTerminal(SUCCESS), ToTerminal(FAILURE), stop}
  {
    assert sm.states["a"].directives.Values == {ToState("b")};
    assert sm.states["b"].directives.Values == {stop};
  }

  lemma TerminalsInjected(sm: StateMachine)
    requires TwoStates(sm, ToState("done"))
    requires sm.terminals.Keys == {"done"} && sm.terminals["done"] == Terminal("done", "stopped")
    ensures TwoStates(Pass1(sm), ToState("done")) && ThreeTerminals(Pass1(sm))
  {
    forall id ensures Referenced(sm, id) <==> id in {"a", "b", "done", SUCCESS, FAILURE} { NamedIds(sm, id); }
    hide Referenced, TwoStates;
    assert Pass1(sm).terminals.Keys == {"done", SUCCESS, FAILURE};
  }

  lemma NamedIds(sm: StateMachine, id: StateId)
    requires TwoStates(sm, ToState("done"))
    ensures Referenced(sm, id) <==> id in {"a", "b", "done", SUCCESS, FAILURE}
  {
    RelayTargets(sm, ToState("done"));
    hide Targets;
    var a, b := sm.states["a"], sm.states["b"];
    assert ToState("b") in Targets(a) && ToTerminal(FAILURE) in Targets(a);
    assert ToTerminal(SUCCESS) in Targets(b) && ToState("done") in Targets(b);
  }

  // The only edge between states goes from `a` to `b`.
  lemma NoCycle(sm: StateMachine, stop: EdgeTarget, id: StateId)
    requires TwoStates(sm, stop) && stop.id == "done"
    ensures !OnCycle(StateEdges(sm), id)
  {
    var g := StateEdges(sm);
    RelayTargets(sm, stop);
    assert forall x, y | (x, y) in g :: x == "a" && y == "b";
    if OnCycle(g, id) {
      var y :| (id, y) in g && Reach(g, y, id);
      ReachClosed(g, {"b"}, y, id);
    }
  }

  lemma Retagged(sm: StateMachine, cap: nat)
    requires TwoStates(sm, ToState("done")) && ThreeTerminals(sm)
    ensures IsRelay(Classified(Pass5(sm, cap)))
  {
    forall id ensures !Injects(sm, id) { NoCycle(sm, ToState("done"), id); }
    hide Injects, OnCycle, StateEdges;
    var p := Pass5(sm, cap);
    assert p.states.Keys == {"a", "b"} && p.states["a"] == sm.states["a"] && p.states["b"] == sm.states["b"];
    hide Pass5;
    var c := Classified(p);
    assert c.states.Keys == {"a", "b"};
  }

  lemma BodyExpands(ruleIdx: nat, cap: nat)
    ensures Expand(BODY, ruleIdx, cap).Ok? && IsRelay(Expand(BODY, ruleIdx, cap).value)
  {
    hide Built, Pass1, Pass5, Classified, TwoStates, ThreeTerminals, IsRelay;
    BodyBuilds(ruleIdx);
    TerminalsInjected(Built(BODY, ruleIdx).value);
    Retagged(Pass1(Built(BODY, ruleIdx).value), cap);
  }

  lemma TextsAccepted()
    ensures !Blank("true") && !Blank("success") && !Blank("failure") && !Blank("stopped")
    ensures IsEnvSafeId("a") && IsEnvSafeId("b")
  {
    assert 't' in "true" && 's' in "success" && 'f' in "failure" && 's' in "stopped";
  }

  lemma RelayChecked(sm: StateMachine)
    requires IsRelay(sm)
    ensures WellFormed(sm) && Keyed(sm)
  {
    TextsAccepted();
    RelayTargets(sm, ToTerminal("done"));
    forall id ensures !OnCycle(StateEdges(sm), id) { NoCycle(sm, ToTerminal("done"), id); }
    hide OnCycle, StateEdges, Blank, IsEnvSafeId, Targets;
  }

  // ---- the outcome leaks -------------------------------------------------------

  // `a` answers `next` with an outcome, `b` just succeeds.
  const EARLY: Child := (s: State, c: Ctx) => if s.id == "a" then Exited(0, Some(Directive("next", Some("early")))) else Exited(0, None)

  // The cycle reports the outcome that came with the edge to `b`, where the one
  // documented is the terminal's own.
  lemma OverrideLeaks(ruleIdx: nat, cap: nat, cond: (string, StateId, nat, Ctx) -> CondResult)
    ensures Expand(BODY, ruleIdx, cap).Ok? && WellFormed(Expand(BODY, ruleIdx, cap).value)
    ensures var sm := Expand(BODY, ruleIdx, cap).value;
      var r := Drive(sm, RealEnv(cond, EARLY), FRESH, sm.start, None);
      r.verdict.Finished? && r.verdict.result == CycleResult(SUCCESS, "early", 2) && Documented(r.trace, "success") == "success"
  {
    BodyExpands(ruleIdx, cap);
    RelayChecked(Expand(BODY, ruleIdx, cap).value);
    hide Expand, WellFormed;
    LeakRuns(Expand(BODY, ruleIdx, cap).value, RealEnv(cond, EARLY));
  }

  lemma LeakRuns(sm: StateMachine, env: Env)
    requires IsRelay(sm) && forall s, c :: env.run(s, c) == ResolveEdge(s, EARLY(s, c))
    ensures var r := Drive(sm, env, FRESH, "a", None);
      r.verdict.Finished? && r.verdict.result == CycleResult(SUCCESS, "early", 2) && Documented(r.trace, "success") == "success"
  {
    hide Budget;
    var first := Step(sm, env, FRESH, "a", None);
    assert first.Go? && first.id == "b" && first.override == Some("early") && "b" !in first.ctx.visits;
    StepDrops(sm, env, FRESH, "a", None);
    var second := Step(sm, env, first.ctx, "b", first.override);
    assert second.Go? && second.id == SUCCESS && second.override == Some("early");
    StepDrops(sm, env, first.ctx, "b", first.override);
    var third := Step(sm, env, second.ctx, SUCCESS, second.override);
    assert third.Stop? && third.trip.verdict.result.outcome == "early";
    hide Step;
    assert Drive(sm, env, second.ctx, SUCCESS, second.override) == third.trip;
    assert Drive(sm, env, first.ctx, "b", first.override) == Prepend(second.event, third.trip);
  }

  // ---- a checked body with a missing state -------------------------------------

  lemma RelayDangles(sm: StateMachine, cond: CondEval)
    requires IsRelay(sm)
    ensures DanglesAt(sm, "b", NO_ACTION) && AllUnskipped(sm, cond)
  {
    assert Picks(sm.states["a"], Exited(0, None), "b");
    assert WalkTo(sm, ["a", "b"], "b");
    assert DanglingDefault(sm, "b", "skip", NO_ACTION);
  }

  // `__no_action__` is not injected, because nothing written names it, and `b`,
  // which is reached from the start, may still be answered with `skip`.
  lemma SkipIsMissing(ruleIdx: nat, cap: nat, cond: CondEval) returns (child: Child)
    ensures Expand(BODY, ruleIdx, cap).Ok? && WellFormed(Expand(BODY, ruleIdx, cap).value)
    ensures var sm := Expand(BODY, ruleIdx, cap).value;
      DanglesAt(sm, "b", NO_ACTION) && Hits(sm, cond, child, NO_ACTION)
  {
    BodyExpands(ruleIdx, cap);
    var sm := Expand(BODY, ruleIdx, cap).value;
    RelayChecked(sm);
    RelayDangles(sm, cond);
    hide Expand, WellFormed, Hits, Keyed, DanglesAt, AllUnskipped;
    child := SourceIsHit(sm, cond, "b", NO_ACTION);
  }
}
