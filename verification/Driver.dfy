// The cycle driver: visit a state, run it, follow the edge it picks, until a
// terminal or a failure. The per-state runner and the `if:` evaluator are
// parameters; they may answer differently at every visit, because they see the
// visit counters, which change at every step.
module Driver {
  import opened Common
  import opened Totals
  import opened Canonical

  datatype Directive = Directive(name: DirectiveName, outcome: Option<string>)

  datatype Captures = Captures(exitCode: int, directive: Option<Directive>)

  datatype FailureKind = SchemaDrift | RecursionBound | TemplateError | Unparseable | FsPoison | ProcessCrash | Stall | OtherFailure

  // The failure texts the driver composes, and the ones it passes through.
  datatype ErrorText =
    | StateNotFound
    | VisitedTooOften(visits: nat, maxVisits: nat)
    | IfCondRender(detail: string)
    | FromRunner(detail: string)

  datatype StateOutcome =
    | Edge(next: EdgeTarget, captures: Captures)
    | Failure(kind: FailureKind, errorText: string)

  datatype CondResult = Holds | Fails | CondError(detail: string)

  datatype Ctx = Ctx(visits: map<StateId, nat>, captures: map<StateId, Captures>, iter: nat)

  datatype Env = Env(
    cond: (string, StateId, nat, Ctx) -> CondResult,
    run: (State, Ctx) -> StateOutcome
  )

  datatype CycleResult = CycleResult(terminalId: StateId, outcome: string, iterations: nat)
  datatype FailureMetadata = FailureMetadata(kind: FailureKind, stateId: StateId, visitN: nat, errorText: ErrorText)
  datatype Verdict = Finished(result: CycleResult) | Aborted(meta: FailureMetadata)

  // What an observer sees of one completed visit.
  datatype Event = Skipped(id: StateId, visitN: nat) | Executed(id: StateId, visitN: nat, captures: Captures)

  datatype Trip = Trip(verdict: Verdict, ctx: Ctx, trace: seq<Event>)

  const FRESH: Ctx := Ctx(map[], map[], 0)

  // ---- the counters ------------------------------------------------------------

  function Bump(c: Ctx, id: StateId): Ctx {
    c.(visits := c.visits[id := At(c.visits, id) + 1], iter := c.iter + 1)
  }

  function Record(c: Ctx, id: StateId, captures: Captures): Ctx {
    c.(captures := c.captures[id := captures])
  }

  class CycleContext {
    var visits: map<StateId, nat>
    var taskCaptures: map<StateId, Captures>
    var iter: nat

    function Snapshot(): Ctx
      reads this
    {
      Ctx(visits, taskCaptures, iter)
    }

    constructor ()
      ensures Snapshot() == FRESH
    {
      visits, taskCaptures, iter := map[], map[], 0;
    }

    method RecordCapture(id: StateId, captures: Captures)
      modifies this
      ensures Snapshot() == Record(old(Snapshot()), id, captures)
    {
      taskCaptures := taskCaptures[id := captures];
    }

    method BumpVisit(id: StateId) returns (n: nat)
      modifies this
      ensures Snapshot() == Bump(old(Snapshot()), id)
      ensures n == At(visits, id) == At(old(visits), id) + 1
    {
      n := (if id in visits then visits[id] else 0) + 1;
      visits := visits[id := n];
      iter := iter + 1;
    }
  }

  // ---- the visit budget -----------------------------------------------------------

  ghost function Caps(sm: StateMachine): map<StateId, nat> {
    map id | id in sm.states :: sm.states[id].maxVisits
  }

  ghost function Keys(caps: map<StateId, nat>): seq<StateId> {
    Sorted(caps.Keys)
  }

  lemma KeysListed(caps: map<StateId, nat>)
    ensures Distinct(Keys(caps)) && forall x :: x in Keys(caps) <==> x in caps
  {
  }

  // Visits each state may still take before its bound trips.
  ghost function Remaining(caps: map<StateId, nat>, visits: map<StateId, nat>): map<StateId, nat> {
    map id | id in caps :: if At(visits, id) <= caps[id] then caps[id] + 1 - At(visits, id) else 0
  }

  ghost function Budget(caps: map<StateId, nat>, visits: map<StateId, nat>): nat {
    Total(Keys(caps), Remaining(caps, visits))
  }

  lemma BudgetDrops(caps: map<StateId, nat>, visits: map<StateId, nat>, id: StateId)
    requires id in caps && At(visits, id) + 1 <= caps[id]
    ensures Budget(caps, visits[id := At(visits, id) + 1]) < Budget(caps, visits)
  {
    hide Keys;
    KeysListed(caps);
    var r := Remaining(caps, visits);
    var v := caps[id] - At(visits, id);
    assert Remaining(caps, visits[id := At(visits, id) + 1]) == r[id := v];
    TotalUpdate(Keys(caps), r, id, v);
  }

  // ---- the driver, as a function of its starting point ----------------------------

  ghost function Prepend(e: Event, r: Trip): Trip {
    r.(trace := [e] + r.trace)
  }

  ghost function Abort(kind: FailureKind, id: StateId, n: nat, text: ErrorText, c: Ctx): Trip {
    Trip(Aborted(FailureMetadata(kind, id, n, text)), c, [])
  }

  function NewOverride(captures: Captures, override: Option<string>): Option<string> {
    if captures.directive.Some? && captures.directive.value.outcome.Some? then captures.directive.value.outcome else override
  }

  // One turn of the loop: stop, or go on from another id.
  datatype Turn = Stop(trip: Trip) | Go(event: Event, ctx: Ctx, id: StateId, override: Option<string>)

  // What a state does once its visit has been counted and is within bounds.
  ghost function Perform(state: State, env: Env, d: Ctx, id: StateId, n: nat, override: Option<string>): Turn {
    var cond := if state.ifCond.Some? then env.cond(state.ifCond.value, state.id, n, d) else Holds;
    match cond
    case CondError(detail) => Stop(Abort(TemplateError, id, n, IfCondRender(detail), d))
    case Fails => Go(Skipped(id, n), d, state.onDone.id, override)
    case Holds =>
      match env.run(state, d)
      case Failure(kind, text) => Stop(Abort(kind, id, n, FromRunner(text), d))
      case Edge(next, captures) =>
        Go(Executed(id, n, captures), Record(d, id, captures), next.id, NewOverride(captures, override))
  }

  ghost function Step(sm: StateMachine, env: Env, c: Ctx, current: StateId, override: Option<string>): Turn {
    if current in sm.terminals then
      var t := sm.terminals[current];
      Stop(Trip(Finished(CycleResult(t.id, override.GetOr(t.outcome), c.iter)), c, []))
    else if current !in sm.states then
      Stop(Abort(SchemaDrift, current, At(c.visits, current), StateNotFound, c))
    else
      var state := sm.states[current];
      var d := Bump(c, current);
      var n := At(d.visits, current);
      if n > state.maxVisits then
        Stop(Abort(RecursionBound, current, n, VisitedTooOften(n, state.maxVisits), d))
      else
        Perform(state, env, d, current, n, override)
  }

  lemma StepDrops(sm: StateMachine, env: Env, c: Ctx, current: StateId, override: Option<string>)
    requires Step(sm, env, c, current, override).Go?
    ensures Budget(Caps(sm), Step(sm, env, c, current, override).ctx.visits) < Budget(Caps(sm), c.visits)
  {
    hide Budget;
    BudgetDrops(Caps(sm), c.visits, current);
  }

  ghost function Drive(sm: StateMachine, env: Env, c: Ctx, current: StateId, override: Option<string>): Trip
    decreases Budget(Caps(sm), c.visits)
  {
    match Step(sm, env, c, current, override)
    case Stop(trip) => trip
    case Go(event, d, id, o) =>
      StepDrops(sm, env, c, current, override);
      Prepend(event, Drive(sm, env, d, id, o))
  }

  // `whole` is what remains to be driven, after `trace`.
  ghost predicate Continues(whole: Trip, trace: seq<Event>, rest: Trip) {
    whole == Trip(rest.verdict, rest.ctx, trace + rest.trace)
  }

  lemma StopIsBare(sm: StateMachine, env: Env, c: Ctx, current: StateId, override: Option<string>)
    ensures var turn := Step(sm, env, c, current, override); turn.Stop? ==> turn.trip.trace == []
  {
  }

  lemma ContinueStep(whole: Trip, trace: seq<Event>, sm: StateMachine, env: Env, c: Ctx, current: StateId, override: Option<string>)
    requires Continues(whole, trace, Drive(sm, env, c, current, override))
    ensures var turn := Step(sm, env, c, current, override);
      match turn
      case Stop(trip) => trip.trace == [] && whole == trip.(trace := trace)
      case Go(e, d, id, o) =>
        Continues(whole, trace + [e], Drive(sm, env, d, id, o)) && Budget(Caps(sm), d.visits) < Budget(Caps(sm), c.visits)
  {
    hide Step, Budget;
    var turn := Step(sm, env, c, current, override);
    StopIsBare(sm, env, c, current, override);
    if turn.Go? {
      StepDrops(sm, env, c, current, override);
      var rest := Drive(sm, env, turn.ctx, turn.id, turn.override);
      assert trace + ([turn.event] + rest.trace) == (trace + [turn.event]) + rest.trace;
    }
  }

  // The driver loop; `trace` collects what an observer sees.
  method RunCycle(sm: StateMachine, env: Env, ctx: CycleContext) returns (verdict: Verdict, ghost trace: seq<Event>)
    modifies ctx
    ensures Trip(verdict, ctx.Snapshot(), trace) == Drive(sm, env, old(ctx.Snapshot()), sm.start, None)
  {
    hide Budget, Drive, Continues;
    ghost var whole := Drive(sm, env, ctx.Snapshot(), sm.start, None);
    var currentId := sm.start;
    var override: Option<string> := None;
    trace := [];
    ContinuesStart(whole);
    while true
      invariant Continues(whole, trace, Drive(sm, env, ctx.Snapshot(), currentId, override))
      decreases Budget(Caps(sm), ctx.visits)
    {
      ContinueStep(whole, trace, sm, env, ctx.Snapshot(), currentId, override);
      if currentId in sm.terminals {
        var t := sm.terminals[currentId];
        return Finished(CycleResult(t.id, override.GetOr(t.outcome), ctx.iter)), trace;
      }
      if currentId !in sm.states {
        return Aborted(FailureMetadata(SchemaDrift, currentId, At(ctx.visits, currentId), StateNotFound)), trace;
      }
      var state := sm.states[currentId];
      var n := ctx.BumpVisit(currentId);
      if n > state.maxVisits {
        return Aborted(FailureMetadata(RecursionBound, currentId, n, VisitedTooOften(n, state.maxVisits))), trace;
      }
      if state.ifCond.Some? {
        var cond := env.cond(state.ifCond.value, state.id, n, ctx.Snapshot());
        match cond {
          case Holds =>
          case Fails =>
            trace := trace + [Skipped(currentId, n)];
            currentId := state.onDone.id;
            continue;
          case CondError(detail) =>
            return Aborted(FailureMetadata(TemplateError, currentId, n, IfCondRender(detail))), trace;
        }
      }
      var outcome := env.run(state, ctx.Snapshot());
      match outcome {
        case Edge(next, captures) =>
          ctx.RecordCapture(currentId, captures);
          trace := trace + [Executed(currentId, n, captures)];
          override := NewOverride(captures, override);
          currentId := next.id;
        case Failure(kind, text) =>
          return Aborted(FailureMetadata(kind, currentId, n, FromRunner(text))), trace;
      }
    }
  }

  lemma ContinuesStart(whole: Trip)
    ensures Continues(whole, [], whole)
  {
  }
}
