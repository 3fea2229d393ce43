// How often a run can go round a cycle: pass 5 puts its cap on one member of a
// class, and every member that keeps a cap of one stops the second round.
module Rounds {
  import opened Common
  import opened Totals
  import opened Canonical
  import opened CycleBounds
  import opened Sugar
  import opened Driver

  function VisitsOf(trace: seq<Event>, id: StateId): nat {
    if trace == [] then 0 else VisitsOf(trace[1..], id) + if trace[0].id == id then 1 else 0
  }

  // Whatever happens in a run, no state completes more visits than its cap.
  lemma {:induction false} VisitsWithinCap(sm: StateMachine, env: Env, c: Ctx, current: StateId, override: Option<string>, id: StateId)
    requires id in sm.states && At(c.visits, id) <= sm.states[id].maxVisits
    ensures At(c.visits, id) + VisitsOf(Drive(sm, env, c, current, override).trace, id) <= sm.states[id].maxVisits
    decreases Budget(Caps(sm), c.visits)
  {
    hide Budget;
    var turn := Step(sm, env, c, current, override);
    if turn.Go? {
      StepDrops(sm, env, c, current, override);
      assert At(turn.ctx.visits, id) == At(c.visits, id) + (if turn.event.id == id then 1 else 0) <= sm.states[id].maxVisits;
      VisitsWithinCap(sm, env, turn.ctx, turn.id, turn.override, id);
      var rest := Drive(sm, env, turn.ctx, turn.id, turn.override);
      assert ([turn.event] + rest.trace)[1..] == rest.trace;
    }
  }

  // So no run of an expanded machine goes twice through a state that was given no cap
  // of its own and was not chosen by pass 5, however large the default cap is.
  lemma NoSecondRound(body: RawBody, ruleIdx: nat, cap: nat, env: Env, id: StateId)
    requires Built(body, ruleIdx).Ok?
    requires var sm := Pass1(Built(body, ruleIdx).value);
      id in sm.states && sm.states[id].maxVisits <= 1 && !Injects(sm, id)
    ensures var sm := Expand(body, ruleIdx, cap).value;
      VisitsOf(Drive(sm, env, FRESH, sm.start, None).trace, id) <= 1
  {
    var sm := Pass1(Built(body, ruleIdx).value);
    var out := Expand(body, ruleIdx, cap).value;
    assert out == Classified(Pass5(sm, cap));
    hide Built, Pass1, Expand, Injects;
    assert id in out.states && out.states[id].maxVisits == sm.states[id].maxVisits;
    VisitsWithinCap(out, env, FRESH, out.start, None, id);
  }
}
