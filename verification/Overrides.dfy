// On which machines a cycle can report an outcome other than the documented one.
module Overrides {
  import opened Common
  import opened Totals
  import opened Canonical
  import opened Driver
  import opened DriverFacts
  import opened RealRunner
  import opened Missing
  import opened Rounds

  // A directive that x accepts leads to y; it may carry an outcome.
  ghost predicate Directed(sm: StateMachine, x: StateId, y: StateId) {
    x in sm.states && exists name :: Directs(sm.states[x], name, y)
  }

  predicate Directs(s: State, name: DirectiveName, y: StateId) {
    ResolveDirective(name, s).Some? && ResolveDirective(name, s).value.id == y
  }

  function Count(p: seq<StateId>, id: StateId): nat {
    if p == [] then 0 else Count(p[1..], id) + if p[0] == id then 1 else 0
  }

  ghost predicate WithinCaps(sm: StateMachine, p: seq<StateId>) {
    forall x | x in sm.states :: Count(p, x) <= sm.states[x].maxVisits
  }

  // A walk from the start to a terminal, within every cap, whose i-th edge is not
  // the last and can be taken by a directive.
  ghost predicate StrayWalk(sm: StateMachine, p: seq<StateId>, end: StateId, i: nat) {
    && i + 1 < |p| && p[0] == sm.start && end in sm.terminals
    && (forall j | 0 <= j < |p| :: Leads(sm, p[j], Following(p, j, end)))
    && WithinCaps(sm, p)
    && Directed(sm, p[i], p[i + 1])
  }

  ghost predicate CanStray(sm: StateMachine) {
    exists p, end, i: nat :: StrayWalk(sm, p, end, i)
  }

  // The run finishes with an outcome that its last edge does not account for.
  ghost predicate Strays(sm: StateMachine, cond: CondEval, child: Child) {
    var r := Drive(sm, RealEnv(cond, child), FRESH, sm.start, None);
    r.verdict.Finished? && r.verdict.result.terminalId in sm.terminals
    && r.verdict.result.outcome != Documented(r.trace, sm.terminals[r.verdict.result.terminalId].outcome)
  }

  // ---- what the trace of a finished run is -------------------------------------

  function Ids(trace: seq<Event>): (p: seq<StateId>)
    ensures |p| == |trace| && forall i | 0 <= i < |p| :: p[i] == trace[i].id
  {
    seq(|trace|, i requires 0 <= i < |trace| => trace[i].id)
  }

  lemma {:induction false} VisitsCount(trace: seq<Event>, id: StateId)
    ensures VisitsOf(trace, id) == Count(Ids(trace), id)
  {
    if trace == [] {
    } else {
      VisitsCount(trace[1..], id);
      assert Ids(trace)[1..] == Ids(trace[1..]);
    }
  }

  // Each event is a visit of a state that runs, and leads to the next one; one with
  // an outcome took its edge by a directive.
  ghost predicate Traced(sm: StateMachine, trace: seq<Event>, end: StateId) {
    forall j | 0 <= j < |trace| ::
      && Leads(sm, trace[j].id, Following(Ids(trace), j, end))
      && (EdgeOutcome(trace[j]).Some? ==> Directed(sm, trace[j].id, Following(Ids(trace), j, end)))
  }

  lemma TracedPrepend(sm: StateMachine, e: Event, trace: seq<Event>, end: StateId)
    requires Traced(sm, trace, end)
    requires var y := if trace == [] then end else trace[0].id;
      Leads(sm, e.id, y) && (EdgeOutcome(e).Some? ==> Directed(sm, e.id, y))
    ensures Traced(sm, [e] + trace, end)
  {
    hide Leads, Directed;
    var all := [e] + trace;
    forall j | 0 <= j < |all|
      ensures Leads(sm, all[j].id, Following(Ids(all), j, end))
      ensures EdgeOutcome(all[j]).Some? ==> Directed(sm, all[j].id, Following(Ids(all), j, end))
    {
      if j > 0 {
        assert all[j] == trace[j - 1] && Following(Ids(all), j, end) == Following(Ids(trace), j - 1, end);
      }
    }
  }

  lemma StepTraced(sm: StateMachine, cond: CondEval, child: Child, c: Ctx, current: StateId, override: Option<string>)
    ensures var turn := Step(sm, RealEnv(cond, child), c, current, override);
      turn.Go? ==>
        && turn.event.id == current && Leads(sm, current, turn.id)
        && (EdgeOutcome(turn.event).Some? ==> Directed(sm, current, turn.id))
  {
    var turn := Step(sm, RealEnv(cond, child), c, current, override);
    if turn.Go? {
      var s := sm.states[current];
      var ending := if turn.event.Executed? then child(s, Bump(c, current)) else Exited(0, None);
      assert Picks(s, ending, turn.id);
      if EdgeOutcome(turn.event).Some? { assert Directs(s, ending.directive.value.name, turn.id); }
    }
  }

  lemma {:induction false} DriveTraced(sm: StateMachine, cond: CondEval, child: Child, c: Ctx, current: StateId, override: Option<string>)
    requires Keyed(sm)
    ensures var r := Drive(sm, RealEnv(cond, child), c, current, override);
      r.verdict.Finished? ==>
        && r.verdict.result.terminalId in sm.terminals
        && Traced(sm, r.trace, r.verdict.result.terminalId)
        && current == if r.trace == [] then r.verdict.result.terminalId else r.trace[0].id
    decreases Budget(Caps(sm), c.visits)
  {
    hide Budget;
    var env := RealEnv(cond, child);
    var turn := Step(sm, env, c, current, override);
    StepTraced(sm, cond, child, c, current, override);
    if turn.Go? {
      StepDrops(sm, env, c, current, override);
      DriveTraced(sm, cond, child, turn.ctx, turn.id, turn.override);
      var rest := Drive(sm, env, turn.ctx, turn.id, turn.override);
      hide Step, Traced, Leads, Directed, Keyed;
      if rest.verdict.Finished? {
        TracedPrepend(sm, turn.event, rest.trace, rest.verdict.result.terminalId);
      }
    }
  }

  // An override other than None was left by some event.
  lemma {:induction false} OverrideLeft(trace: seq<Event>) returns (i: nat)
    requires LastOverride(trace, None).Some?
    ensures i < |trace| && EdgeOutcome(trace[i]).Some?
  {
    LastOverrideFromEnd(trace, None);
    if EdgeOutcome(trace[|trace| - 1]).Some? {
      i := |trace| - 1;
    } else {
      i := OverrideLeft(trace[..|trace| - 1]);
    }
  }

  lemma DriveWithinCaps(sm: StateMachine, env: Env)
    requires Keyed(sm)
    ensures WithinCaps(sm, Ids(Drive(sm, env, FRESH, sm.start, None).trace))
  {
    hide Drive, VisitsOf, Count, Ids, Keyed;
    var trace := Drive(sm, env, FRESH, sm.start, None).trace;
    forall x | x in sm.states ensures Count(Ids(trace), x) <= sm.states[x].maxVisits {
      VisitsWithinCap(sm, env, FRESH, sm.start, None, x);
      VisitsCount(trace, x);
    }
  }

  lemma StrayLeaves(sm: StateMachine, cond: CondEval, child: Child) returns (i: nat)
    requires Keyed(sm) && Strays(sm, cond, child)
    ensures var trace := Drive(sm, RealEnv(cond, child), FRESH, sm.start, None).trace;
      i + 1 < |trace| && EdgeOutcome(trace[i]).Some?
  {
    hide Drive, LastOverride, EdgeOutcome, Documented, Keyed;
    var trace := Drive(sm, RealEnv(cond, child), FRESH, sm.start, None).trace;
    DocumentedExactly(sm, RealEnv(cond, child));
    i := OverrideLeft(trace[..|trace| - 1]);
    assert trace[..|trace| - 1][i] == trace[i];
  }

  lemma StrayHasWalk(sm: StateMachine, cond: CondEval, child: Child)
    requires Keyed(sm) && Strays(sm, cond, child)
    ensures CanStray(sm)
  {
    var env := RealEnv(cond, child);
    var r := Drive(sm, env, FRESH, sm.start, None);
    var end := r.verdict.result.terminalId;
    hide Drive, Documented, Leads, Directed, EdgeOutcome, Keyed, WithinCaps;
    DriveTraced(sm, cond, child, FRESH, sm.start, None);
    var i := StrayLeaves(sm, cond, child);
    DriveWithinCaps(sm, env);
    assert StrayWalk(sm, Ids(r.trace), end, i);
  }

  // ---- children that play a walk -----------------------------------------------

  // The k-th state to run is answered with the k-th ending, counting from one.
  function PlayInTurn(plan: seq<Ending>): Child {
    (s: State, c: Ctx) => if 1 <= c.iter <= |plan| then plan[c.iter - 1] else Exited(0, None)
  }

  function Said(ending: Ending): Option<string> {
    if ending.Exited? && ending.directive.Some? then ending.directive.value.outcome else None
  }

  // From position k on the plan leads along p to end.
  ghost predicate Leading(sm: StateMachine, plan: seq<Ending>, k: nat, p: seq<StateId>, end: StateId) {
    && k + |p| == |plan|
    && forall j | 0 <= j < |p| :: Runs(sm, p[j]) && Picks(sm.states[p[j]], plan[k + j], Following(p, j, end))
  }

  // Every state still has room for its visits on p.
  ghost predicate Room(sm: StateMachine, visits: map<StateId, nat>, p: seq<StateId>) {
    forall x | x in sm.states :: At(visits, x) + Count(p, x) <= sm.states[x].maxVisits
  }

  lemma LeadingRest(sm: StateMachine, plan: seq<Ending>, k: nat, p: seq<StateId>, end: StateId)
    requires p != [] && Leading(sm, plan, k, p, end)
    ensures Leading(sm, plan, k + 1, p[1..], end) && k < |plan|
    ensures p[0] in sm.states && Runs(sm, p[0]) && Picks(sm.states[p[0]], plan[k], Following(p, 0, end))
  {
    hide Picks;
    var rest := p[1..];
    forall j | 0 <= j < |rest| ensures Runs(sm, rest[j]) && Picks(sm.states[rest[j]], plan[k + 1 + j], Following(rest, j, end)) {
      assert rest[j] == p[j + 1] && Following(rest, j, end) == Following(p, j + 1, end);
    }
  }

  lemma StepLeads(sm: StateMachine, cond: CondEval, plan: seq<Ending>, c: Ctx, x: StateId, y: StateId, override: Option<string>)
    requires Keyed(sm) && Runs(sm, x) && Unskipped(sm, cond, x) && c.iter < |plan| && Picks(sm.states[x], plan[c.iter], y)
    requires At(c.visits, x) < sm.states[x].maxVisits
    ensures var turn := Step(sm, RealEnv(cond, PlayInTurn(plan)), c, x, override);
      && turn.Go? && turn.id == y && turn.ctx.iter == c.iter + 1
      && turn.event.id == x && EdgeOutcome(turn.event) == Said(plan[c.iter])
      && forall z :: At(turn.ctx.visits, z) == At(c.visits, z) + if z == x then 1 else 0
  {
    var s := sm.states[x];
    var env := RealEnv(cond, PlayInTurn(plan));
    assert env.run(s, Bump(c, x)) == ResolveEdge(s, plan[c.iter]);
  }

  // The outcomes of the trace are those of the plan from position k on.
  predicate Speaks(plan: seq<Ending>, k: nat, trace: seq<Event>) {
    k + |trace| <= |plan| && forall j | 0 <= j < |trace| :: EdgeOutcome(trace[j]) == Said(plan[k + j])
  }

  lemma SpeaksPrepend(plan: seq<Ending>, k: nat, e: Event, trace: seq<Event>)
    requires Speaks(plan, k + 1, trace) && k < |plan| && EdgeOutcome(e) == Said(plan[k])
    ensures Speaks(plan, k, [e] + trace)
  {
  }

  lemma RoomRest(sm: StateMachine, before: map<StateId, nat>, after: map<StateId, nat>, p: seq<StateId>)
    requires p != [] && Room(sm, before, p)
    requires forall z :: At(after, z) == At(before, z) + if z == p[0] then 1 else 0
    ensures Room(sm, after, p[1..])
  {
    forall x | x in sm.states ensures At(after, x) + Count(p[1..], x) <= sm.states[x].maxVisits {
      assert Count(p, x) == Count(p[1..], x) + if p[0] == x then 1 else 0;
    }
  }

  // One turn of a plan leads on to the rest of the walk.
  lemma StepPlays(sm: StateMachine, cond: CondEval, plan: seq<Ending>, c: Ctx, p: seq<StateId>, end: StateId, override: Option<string>)
    requires Keyed(sm) && AllUnskipped(sm, cond) && p != []
    requires Leading(sm, plan, c.iter, p, end) && Room(sm, c.visits, p)
    ensures var turn := Step(sm, RealEnv(cond, PlayInTurn(plan)), c, p[0], override);
      && turn.Go? && turn.id == (if p[1..] == [] then end else p[1]) && turn.ctx.iter == c.iter + 1
      && c.iter < |plan| && EdgeOutcome(turn.event) == Said(plan[c.iter])
      && Leading(sm, plan, turn.ctx.iter, p[1..], end) && Room(sm, turn.ctx.visits, p[1..])
  {
    hide Keyed, Picks, AllUnskipped, Unskipped, Leading, Room, Runs, Step, Said, EdgeOutcome, Count;
    HeadReady(sm, cond, c.visits, p);
    LeadingRest(sm, plan, c.iter, p, end);
    StepLeads(sm, cond, plan, c, p[0], Following(p, 0, end), override);
    RoomRest(sm, c.visits, Step(sm, RealEnv(cond, PlayInTurn(plan)), c, p[0], override).ctx.visits, p);
  }

  lemma HeadReady(sm: StateMachine, cond: CondEval, visits: map<StateId, nat>, p: seq<StateId>)
    requires AllUnskipped(sm, cond) && p != [] && Room(sm, visits, p)
    ensures p[0] in sm.states ==> Unskipped(sm, cond, p[0]) && At(visits, p[0]) < sm.states[p[0]].maxVisits
  {
    hide Unskipped;
    assert Count(p, p[0]) >= 1;
  }

  lemma EndStops(sm: StateMachine, env: Env, c: Ctx, end: StateId, override: Option<string>)
    requires Keyed(sm) && end in sm.terminals
    ensures var turn := Step(sm, env, c, end, override);
      turn.Stop? && turn.trip.trace == [] && turn.trip.verdict.Finished? && turn.trip.verdict.result.terminalId == end
  {
  }

  lemma {:induction false} LeadingRuns(sm: StateMachine, cond: CondEval, plan: seq<Ending>, c: Ctx, p: seq<StateId>, end: StateId, override: Option<string>)
    requires Keyed(sm) && AllUnskipped(sm, cond) && end in sm.terminals
    requires Leading(sm, plan, c.iter, p, end) && Room(sm, c.visits, p)
    ensures var r := Drive(sm, RealEnv(cond, PlayInTurn(plan)), c, if p == [] then end else p[0], override);
      && r.verdict.Finished? && r.verdict.result.terminalId == end
      && |r.trace| == |p| && Speaks(plan, c.iter, r.trace)
    decreases |p|
  {
    hide Budget, Keyed, AllUnskipped, Room, Said, EdgeOutcome;
    if p == [] {
      hide Step;
      EndStops(sm, RealEnv(cond, PlayInTurn(plan)), c, end, override);
    } else {
      hide Step, Speaks, Leading;
      StepPlays(sm, cond, plan, c, p, end, override);
      var env := RealEnv(cond, PlayInTurn(plan));
      var turn := Step(sm, env, c, p[0], override);
      LeadingRuns(sm, cond, plan, turn.ctx, p[1..], end, turn.override);
      SpeaksPrepend(plan, c.iter, turn.event, Drive(sm, env, turn.ctx, turn.id, turn.override).trace);
    }
  }

  // Directives without their outcomes lead where they led.
  function Silent(ending: Ending): Ending {
    if ending.Exited? && ending.directive.Some? then Exited(ending.code, Some(Directive(ending.directive.value.name, None))) else ending
  }

  lemma SilentPicks(s: State, ending: Ending, y: StateId)
    requires Picks(s, ending, y)
    ensures Picks(s, Silent(ending), y) && Said(Silent(ending)) == None
  {
  }

  // What the k-th ending has to do: take the k-th edge, and say `word` only there.
  ghost predicate Fits(sm: StateMachine, p: seq<StateId>, end: StateId, i: nat, word: string, k: nat, ending: Ending) {
    k < |p| && Runs(sm, p[k]) && Picks(sm.states[p[k]], ending, Following(p, k, end))
    && Said(ending) == if k == i then Some(word) else None
  }

  lemma FittingEnding(sm: StateMachine, p: seq<StateId>, end: StateId, i: nat, word: string, k: nat) returns (ending: Ending)
    requires StrayWalk(sm, p, end, i) && k < |p|
    ensures Fits(sm, p, end, i, word, k, ending)
  {
    assert Leads(sm, p[k], Following(p, k, end));
    var s := sm.states[p[k]];
    if k == i {
      var name :| Directs(s, name, p[i + 1]);
      ending := Exited(0, Some(Directive(name, Some(word))));
    } else {
      ending :| Picks(s, ending, Following(p, k, end));
      SilentPicks(s, ending, Following(p, k, end));
      ending := Silent(ending);
    }
  }

  ghost predicate AllFit(sm: StateMachine, p: seq<StateId>, end: StateId, i: nat, word: string, plan: seq<Ending>) {
    |plan| <= |p| && forall k | 0 <= k < |plan| :: Fits(sm, p, end, i, word, k, plan[k])
  }

  lemma AllFitAppend(sm: StateMachine, p: seq<StateId>, end: StateId, i: nat, word: string, plan: seq<Ending>, ending: Ending)
    requires AllFit(sm, p, end, i, word, plan) && |plan| < |p| && Fits(sm, p, end, i, word, |plan|, ending)
    ensures AllFit(sm, p, end, i, word, plan + [ending])
  {
    hide Fits;
  }

  lemma AllFitLeads(sm: StateMachine, p: seq<StateId>, end: StateId, i: nat, word: string, plan: seq<Ending>)
    requires AllFit(sm, p, end, i, word, plan) && |plan| == |p|
    ensures Leading(sm, plan, 0, p, end)
    ensures forall j | 0 <= j < |p| :: Said(plan[j]) == if j == i then Some(word) else None
  {
    hide Picks;
    forall j | 0 <= j < |p|
      ensures Runs(sm, p[j]) && Picks(sm.states[p[j]], plan[0 + j], Following(p, j, end))
      ensures Said(plan[j]) == if j == i then Some(word) else None
    {
      assert Fits(sm, p, end, i, word, j, plan[j]);
    }
  }

  // A walk has a plan that says `word` on its i-th edge and nothing elsewhere.
  lemma {:induction false} StrayPlan(sm: StateMachine, p: seq<StateId>, end: StateId, i: nat, word: string, n: nat) returns (plan: seq<Ending>)
    requires StrayWalk(sm, p, end, i) && n <= |p|
    ensures AllFit(sm, p, end, i, word, plan) && |plan| == n
  {
    plan := [];
    if n > 0 {
      hide Fits, StrayWalk, AllFit;
      var before := StrayPlan(sm, p, end, i, word, n - 1);
      var ending := FittingEnding(sm, p, end, i, word, n - 1);
      AllFitAppend(sm, p, end, i, word, before, ending);
      plan := before + [ending];
    }
  }

  // With one outcome in the trace, that is the override.
  lemma {:induction false} OneOverride(trace: seq<Event>, i: nat, word: string)
    requires i < |trace|
    requires forall j | 0 <= j < |trace| :: EdgeOutcome(trace[j]) == if j == i then Some(word) else None
    ensures LastOverride(trace, None) == Some(word)
  {
    LastOverrideFromEnd(trace, None);
    if i < |trace| - 1 { OneOverride(trace[..|trace| - 1], i, word); }
  }

  lemma WalkStrays(sm: StateMachine, cond: CondEval, p: seq<StateId>, end: StateId, i: nat) returns (child: Child)
    requires Keyed(sm) && AllUnskipped(sm, cond) && StrayWalk(sm, p, end, i)
    ensures Strays(sm, cond, child)
  {
    var own := sm.terminals[end].outcome;
    var word := own + "!";
    assert |word| == |own| + 1;
    var plan := StrayPlan(sm, p, end, i, word, |p|);
    AllFitLeads(sm, p, end, i, word, plan);
    child := PlayInTurn(plan);
    var env := RealEnv(cond, child);
    assert Room(sm, FRESH.visits, p);
    hide Leads, Directed, AllUnskipped, Leading, Drive, Keyed;
    LeadingRuns(sm, cond, plan, FRESH, p, end, None);
    var r := Drive(sm, env, FRESH, sm.start, None);
    OverrideSticks(sm, env, FRESH, sm.start, None);
    OneOverride(r.trace, i, word);
    OneTerminal(sm, r.verdict.result.terminalId);
  }

  // A keyed machine has one terminal of each id.
  lemma OneTerminal(sm: StateMachine, id: StateId)
    requires Keyed(sm)
    ensures forall t | t in sm.terminals && sm.terminals[t].id == id :: t == id
  {
  }

  // ---- the exact condition -----------------------------------------------------

  // On a machine that files its entries under their ids, some conditions and
  // children make a cycle report an outcome its last edge does not account for,
  // exactly when a walk from the start to a terminal, within every cap, has an edge
  // before the last one that a directive can take.
  lemma StraysExactly(sm: StateMachine)
    requires Keyed(sm)
    ensures (exists cond: CondEval, child: Child :: Strays(sm, cond, child)) <==> CanStray(sm)
  {
    hide Keyed, Strays, StrayWalk;
    if cond: CondEval, child: Child :| Strays(sm, cond, child) {
      StrayHasWalk(sm, cond, child);
    }
    if p, end, i: nat :| StrayWalk(sm, p, end, i) {
      var always: CondEval := (text: string, id: StateId, n: nat, d: Ctx) => Holds;
      var child := WalkStrays(sm, always, p, end, i);
    }
  }

  // Where no state has an `if:` the children alone decide, whatever evaluates it.
  lemma StraysExactlyUnconditional(sm: StateMachine, cond: CondEval)
    requires Keyed(sm) && forall x | x in sm.states :: sm.states[x].ifCond.None?
    ensures (exists child: Child :: Strays(sm, cond, child)) <==> CanStray(sm)
  {
    assert AllUnskipped(sm, cond);
    hide Keyed, Strays, StrayWalk, AllUnskipped;
    if child: Child :| Strays(sm, cond, child) {
      StrayHasWalk(sm, cond, child);
    }
    if p, end, i: nat :| StrayWalk(sm, p, end, i) {
      var child := WalkStrays(sm, cond, p, end, i);
    }
  }
}
