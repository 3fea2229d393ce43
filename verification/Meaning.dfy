// Expansion preserves meaning: a direct interpreter that walks the body as it is
// written and the cycle driver on the expanded machine produce the same run.
module Meaning {
  import opened Common
  import opened Totals
  import opened Canonical
  import opened CycleBounds
  import opened Durations
  import opened Sugar
  import opened Driver
  import opened RealRunner

  // What a child process is given: nothing about edges or caps.
  datatype Job = Job(id: StateId, body: StateBody, timeout: Option<nat>)

  type Worker = (Job, Ctx) -> Ending
  type CondEval = (string, StateId, nat, Ctx) -> CondResult

  function JobOf(s: State): Job {
    Job(s.id, s.body, s.timeout)
  }

  ghost function WorkerEnv(cond: CondEval, worker: Worker): Env {
    RealEnv(cond, (s, c) => worker(JobOf(s), c))
  }

  // ---- the direct interpreter ----------------------------------------------------

  // A position in a sugar body: an index into the task array, an inline state,
  // a terminal, or an id that names nothing.
  datatype Loc = AtTask(i: nat) | AtInline(id: StateId) | AtTerminal(id: StateId) | Nowhere(id: StateId)

  // A sugar body as the interpreter reads it, with the caps in force.
  datatype Script = Script(
    tasks: seq<RawTask>,
    inline: map<StateId, RawState>,
    terminals: map<StateId, Terminal>,
    onFail: Option<StateId>,
    caps: map<StateId, nat>
  )

  ghost predicate TaskNamed(tasks: seq<RawTask>, id: StateId, i: nat) {
    i < |tasks| && tasks[i].id == id
  }

  ghost predicate Named(tasks: seq<RawTask>, id: StateId) {
    exists i: nat :: TaskNamed(tasks, id, i)
  }

  // The task an id stands for: of several with that id, the last.
  ghost predicate LastNamed(tasks: seq<RawTask>, id: StateId, i: nat) {
    TaskNamed(tasks, id, i) && forall j | i < j < |tasks| :: tasks[j].id != id
  }

  lemma {:induction false} LastExists(tasks: seq<RawTask>, id: StateId)
    requires Named(tasks, id)
    ensures exists i: nat :: LastNamed(tasks, id, i)
  {
    var k: nat :| TaskNamed(tasks, id, k);
    var n := |tasks| - 1;
    if tasks[n].id == id {
      assert LastNamed(tasks, id, n);
    } else {
      assert TaskNamed(tasks[..n], id, k);
      LastExists(tasks[..n], id);
      var i: nat :| LastNamed(tasks[..n], id, i);
      assert LastNamed(tasks, id, i);
    }
  }

  ghost function Locate(p: Script, id: StateId): Loc {
    if id in p.terminals then AtTerminal(id)
    else if Named(p.tasks, id) then
      LastExists(p.tasks, id);
      var i: nat :| LastNamed(p.tasks, id, i);
      AtTask(i)
    else if id in p.inline then AtInline(id)
    else Nowhere(id)
  }

  ghost predicate ValidLoc(p: Script, loc: Loc) {
    match loc
    case AtTask(i) => i < |p.tasks|
    case AtInline(id) => id in p.inline
    case AtTerminal(id) => id in p.terminals
    case Nowhere(id) => true
  }

  ghost function IdOf(p: Script, loc: Loc): StateId
    requires ValidLoc(p, loc)
  {
    match loc
    case AtTask(i) => p.tasks[i].id
    case AtInline(id) => id
    case AtTerminal(id) => id
    case Nowhere(id) => id
  }

  // On done: the next task of the array; after the last one, success.
  ghost function DoneLoc(p: Script, loc: Loc): Loc
    requires ValidLoc(p, loc) && (loc.AtTask? || loc.AtInline?)
  {
    match loc
    case AtTask(i) => Locate(p, if i + 1 < |p.tasks| then p.tasks[i + 1].id else SUCCESS)
    case AtInline(id) => Locate(p, p.inline[id].onDone.GetOr(SUCCESS))
  }

  // On fail: the task's own target, then the rule's, then failure.
  ghost function FailLoc(p: Script, loc: Loc): Loc
    requires ValidLoc(p, loc) && (loc.AtTask? || loc.AtInline?)
  {
    match loc
    case AtTask(i) =>
      (match p.tasks[i].onFail
       case Some(id) => Locate(p, id)
       case None =>
         match p.onFail
         case Some(id) => Locate(p, id)
         case None => Locate(p, FAILURE))
    case AtInline(id) => Locate(p, p.inline[id].onFail.GetOr(FAILURE))
  }

  ghost function RawDirectives(p: Script, loc: Loc): map<DirectiveName, RawTarget>
    requires ValidLoc(p, loc) && (loc.AtTask? || loc.AtInline?)
  {
    match loc
    case AtTask(i) => p.tasks[i].directives
    case AtInline(id) => p.inline[id].directives
  }

  // A target in the short form, or in the long one with whatever cap it carries.
  function Aim(t: RawTarget): StateId {
    if t.Short? then t.id else t.target
  }

  ghost function DirectiveLoc(p: Script, loc: Loc, name: DirectiveName): Option<Loc>
    requires ValidLoc(p, loc) && (loc.AtTask? || loc.AtInline?)
  {
    var ds := RawDirectives(p, loc);
    if name in ds then Some(Locate(p, Aim(ds[name])))
    else if name == "end" then Some(Locate(p, SUCCESS))
    else if name == "skip" then Some(Locate(p, NO_ACTION))
    else if name == "fail" then Some(Locate(p, FAILURE))
    else if name == "cancel" then Some(Locate(p, CANCELLED))
    else if name == "retry" then Some(loc)
    else None
  }

  // A command or a path; with both or neither an empty command, which the checker
  // turns down.
  function BodyWritten(run: Option<string>, uses: Option<string>): StateBody {
    if run.Some? && uses.None? then Run(run.value)
    else if uses.Some? && run.None? then Uses(uses.value)
    else Run("")
  }

  function Limit(text: Option<string>): Option<nat> {
    match text
    case None => None
    case Some(t) => ParseDuration(t)
  }

  ghost function JobAt(p: Script, loc: Loc): Job
    requires ValidLoc(p, loc) && (loc.AtTask? || loc.AtInline?)
  {
    match loc
    case AtTask(i) => var t := p.tasks[i]; Job(t.id, BodyWritten(t.run, t.uses), Limit(t.timeout))
    case AtInline(id) => var s := p.inline[id]; Job(id, BodyWritten(s.run, s.uses), Limit(s.timeout))
  }

  ghost function CondAt(p: Script, loc: Loc): Option<string>
    requires ValidLoc(p, loc) && (loc.AtTask? || loc.AtInline?)
  {
    match loc
    case AtTask(i) => p.tasks[i].ifCond
    case AtInline(id) => p.inline[id].ifCond
  }

  datatype Move = Halt(trip: Trip) | MoveTo(event: Event, ctx: Ctx, loc: Loc, override: Option<string>)

  // A child has ended at loc, on its n-th visit.
  ghost function AfterChild(p: Script, loc: Loc, d: Ctx, n: nat, ending: Ending, override: Option<string>): Move
    requires ValidLoc(p, loc) && (loc.AtTask? || loc.AtInline?)
  {
    var id := IdOf(p, loc);
    match ending
    case Broke(kind, detail) => Halt(Abort(kind, id, n, FromRunner(detail), d))
    case Exited(code, None) =>
      var cs := Captures(code, None);
      MoveTo(Executed(id, n, cs), Record(d, id, cs), if code == 0 then DoneLoc(p, loc) else FailLoc(p, loc), override)
    case Exited(code, Some(dir)) =>
      var cs := Captures(code, Some(dir));
      match DirectiveLoc(p, loc, dir.name)
      case Some(next) => MoveTo(Executed(id, n, cs), Record(d, id, cs), next, NewOverride(cs, override))
      case None =>
        Halt(Abort(SchemaDrift, id, n, FromRunner("directive '" + dir.name + "' not in state.directives \U{222A} defaults"), d))
  }

  ghost function DirectPerform(p: Script, cond: CondEval, worker: Worker, d: Ctx, loc: Loc, n: nat, override: Option<string>): Move
    requires ValidLoc(p, loc) && (loc.AtTask? || loc.AtInline?)
  {
    var id := IdOf(p, loc);
    var answer := if CondAt(p, loc).Some? then cond(CondAt(p, loc).value, id, n, d) else Holds;
    match answer
    case CondError(detail) => Halt(Abort(TemplateError, id, n, IfCondRender(detail), d))
    case Fails => MoveTo(Skipped(id, n), d, DoneLoc(p, loc), override)
    case Holds => AfterChild(p, loc, d, n, worker(JobAt(p, loc), d), override)
  }

  ghost function DirectStep(p: Script, cond: CondEval, worker: Worker, c: Ctx, loc: Loc, override: Option<string>): Move
    requires ValidLoc(p, loc)
  {
    match loc
    case AtTerminal(id) =>
      var t := p.terminals[id];
      Halt(Trip(Finished(CycleResult(t.id, override.GetOr(t.outcome), c.iter)), c, []))
    case Nowhere(id) => Halt(Abort(SchemaDrift, id, At(c.visits, id), StateNotFound, c))
    case _ =>
      var id := IdOf(p, loc);
      var d := Bump(c, id);
      var n := At(d.visits, id);
      if n > At(p.caps, id) then Halt(Abort(RecursionBound, id, n, VisitedTooOften(n, At(p.caps, id)), d))
      else DirectPerform(p, cond, worker, d, loc, n, override)
  }

  lemma TargetsValid(p: Script, loc: Loc, name: DirectiveName)
    requires ValidLoc(p, loc) && (loc.AtTask? || loc.AtInline?)
    ensures ValidLoc(p, DoneLoc(p, loc)) && ValidLoc(p, FailLoc(p, loc))
    ensures DirectiveLoc(p, loc, name).Some? ==> ValidLoc(p, DirectiveLoc(p, loc, name).value)
  {
  }

  lemma PerformValid(p: Script, cond: CondEval, worker: Worker, d: Ctx, loc: Loc, n: nat, override: Option<string>)
    requires ValidLoc(p, loc) && (loc.AtTask? || loc.AtInline?)
    ensures var m := DirectPerform(p, cond, worker, d, loc, n, override);
      m.MoveTo? ==> ValidLoc(p, m.loc) && m.ctx.visits == d.visits
  {
    hide Locate, ValidLoc, DoneLoc, FailLoc, DirectiveLoc;
    var ending := worker(JobAt(p, loc), d);
    TargetsValid(p, loc, if ending.Exited? && ending.directive.Some? then ending.directive.value.name else "");
  }

  lemma MoveValid(p: Script, cond: CondEval, worker: Worker, c: Ctx, loc: Loc, override: Option<string>)
    requires ValidLoc(p, loc)
    ensures var m := DirectStep(p, cond, worker, c, loc, override);
      m.MoveTo? ==> ValidLoc(p, m.loc) && Budget(p.caps, m.ctx.visits) < Budget(p.caps, c.visits)
  {
    hide Budget, DirectPerform;
    var m := DirectStep(p, cond, worker, c, loc, override);
    if m.MoveTo? {
      var d := Bump(c, IdOf(p, loc));
      PerformValid(p, cond, worker, d, loc, At(d.visits, IdOf(p, loc)), override);
      BudgetDrops(p.caps, c.visits, IdOf(p, loc));
    }
  }

  ghost function Interpret(p: Script, cond: CondEval, worker: Worker, c: Ctx, loc: Loc, override: Option<string>): Trip
    requires ValidLoc(p, loc)
    decreases Budget(p.caps, c.visits)
  {
    MoveValid(p, cond, worker, c, loc, override);
    match DirectStep(p, cond, worker, c, loc, override)
    case Halt(trip) => trip
    case MoveTo(event, d, next, o) => Prepend(event, Interpret(p, cond, worker, d, next, o))
  }

  // ---- the expanded machine has the body's shape ------------------------------------

  // Two states that differ at most in tags and caps.
  ghost predicate SameShape(s: State, t: State) {
    && s.id == t.id && s.body == t.body && s.ifCond == t.ifCond && s.timeout == t.timeout
    && s.onDone.id == t.onDone.id && s.onFail.id == t.onFail.id
    && s.directives.Keys == t.directives.Keys
    && (forall n | n in s.directives :: s.directives[n].id == t.directives[n].id)
  }

  lemma PassesKeepShape(sm: StateMachine, cap: nat)
    ensures var m := Classified(Pass5(sm, cap));
      && m.terminals == sm.terminals && m.states.Keys == sm.states.Keys && m.start == sm.start
      && forall id | id in sm.states :: SameShape(m.states[id], sm.states[id])
  {
    hide Injects;
    var m := Classified(Pass5(sm, cap));
    forall id | id in sm.states ensures SameShape(m.states[id], sm.states[id]) {
    }
  }

  // A later insertion of another task does not disturb an earlier one.
  lemma {:induction false} TaskLookup(inline: map<StateId, State>, tasks: seq<RawTask>, onFail: Option<StateId>, k: nat, i: nat)
    requires i < k <= |tasks| && LastNamed(tasks, tasks[i].id, i)
    ensures tasks[i].id in WithTasks(inline, tasks, onFail, k)
    ensures WithTasks(inline, tasks, onFail, k)[tasks[i].id] == TaskState(tasks[i], NextId(tasks, i), onFail)
  {
    if i < k - 1 { TaskLookup(inline, tasks, onFail, k - 1, i); }
  }

  lemma {:induction false} OtherLookup(inline: map<StateId, State>, tasks: seq<RawTask>, onFail: Option<StateId>, k: nat, id: StateId)
    requires k <= |tasks| && forall i | 0 <= i < |tasks| :: tasks[i].id != id
    ensures id in WithTasks(inline, tasks, onFail, k) <==> id in inline
    ensures id in inline ==> WithTasks(inline, tasks, onFail, k)[id] == inline[id]
  {
    if k == 0 {
    } else {
      OtherLookup(inline, tasks, onFail, k - 1, id);
    }
  }

  // The state a location denotes before any retagging.
  ghost function StateAt(p: Script, loc: Loc): State
    requires ValidLoc(p, loc) && (loc.AtTask? || loc.AtInline?)
  {
    match loc
    case AtTask(i) => TaskState(p.tasks[i], NextId(p.tasks, i), p.onFail)
    case AtInline(id) => RawToState(id, p.inline[id])
  }

  // sm is the machine of the script: same terminals and caps, and at every
  // place of the body a state of the body's shape.
  ghost predicate Realizes(sm: StateMachine, p: Script) {
    && sm.terminals == p.terminals && Caps(sm) == p.caps
    && (forall i: nat | i < |p.tasks| && LastNamed(p.tasks, p.tasks[i].id, i) ::
      p.tasks[i].id in sm.states && SameShape(sm.states[p.tasks[i].id], StateAt(p, AtTask(i))))
    && (forall id :: id in sm.states <==> id in p.inline || Named(p.tasks, id))
    && (forall id | id in p.inline && !Named(p.tasks, id) ::
      SameShape(sm.states[id], StateAt(p, AtInline(id))))
  }

  // A location the interpreter can stand at: the one its id denotes.
  ghost predicate Located(p: Script, loc: Loc) {
    ValidLoc(p, loc) && Locate(p, IdOf(p, loc)) == loc
  }

  lemma LocateLocated(p: Script, id: StateId)
    ensures Located(p, Locate(p, id)) && IdOf(p, Locate(p, id)) == id
  {
  }

  // ---- one turn of either interpreter -----------------------------------------------

  ghost predicate Matches(p: Script, loc: Loc, id: StateId) {
    Located(p, loc) && IdOf(p, loc) == id
  }

  ghost predicate SameTurn(p: Script, t: Turn, m: Move) {
    match (t, m)
    case (Stop(a), Halt(b)) => a == b
    case (Go(e, d, id, o), MoveTo(f, g, loc, q)) => e == f && d == g && o == q && Matches(p, loc, id)
    case _ => false
  }

  lemma StateOfLoc(sm: StateMachine, p: Script, loc: Loc)
    requires Realizes(sm, p) && Located(p, loc) && (loc.AtTask? || loc.AtInline?)
    ensures var id := IdOf(p, loc);
      && id in sm.states && id !in sm.terminals && SameShape(sm.states[id], StateAt(p, loc))
      && At(p.caps, id) == sm.states[id].maxVisits
  {
    if loc.AtInline? {
      if Named(p.tasks, loc.id) { assert false; }
    }
  }

  lemma TargetsMatch(sm: StateMachine, p: Script, loc: Loc)
    requires Realizes(sm, p) && Located(p, loc) && (loc.AtTask? || loc.AtInline?)
    ensures Matches(p, DoneLoc(p, loc), StateAt(p, loc).onDone.id)
    ensures Matches(p, FailLoc(p, loc), StateAt(p, loc).onFail.id)
  {
    hide Realizes, Locate;
    match loc {
      case AtTask(i) =>
        LocateLocated(p, if i + 1 < |p.tasks| then p.tasks[i + 1].id else SUCCESS);
        LocateLocated(p, OrElse(p.tasks[i].onFail, p.onFail).GetOr(FAILURE));
      case AtInline(id) =>
        LocateLocated(p, p.inline[id].onDone.GetOr(SUCCESS));
        LocateLocated(p, p.inline[id].onFail.GetOr(FAILURE));
    }
  }

  lemma DirectiveMatches(p: Script, loc: Loc, s: State, name: DirectiveName)
    requires Located(p, loc) && (loc.AtTask? || loc.AtInline?) && SameShape(s, StateAt(p, loc))
    ensures match (ResolveDirective(name, s), DirectiveLoc(p, loc, name))
      case (Some(t), Some(next)) => Matches(p, next, t.id)
      case (None, None) => true
      case _ => false
  {
    hide Locate;
    var ds := RawDirectives(p, loc);
    assert StateAt(p, loc).directives == ConvertDirectives(ds);
    if name in ds { LocateLocated(p, Aim(ds[name])); }
    LocateLocated(p, SUCCESS);
    LocateLocated(p, FAILURE);
    LocateLocated(p, NO_ACTION);
    LocateLocated(p, CANCELLED);
  }

  lemma ChildMatches(sm: StateMachine, p: Script, loc: Loc, d: Ctx, n: nat, ending: Ending, override: Option<string>)
    requires ValidLoc(p, loc)
    requires Realizes(sm, p) && Located(p, loc) && (loc.AtTask? || loc.AtInline?)
    ensures var id := IdOf(p, loc);
      && id in sm.states
      && var turn := (match ResolveEdge(sm.states[id], ending)
        case Failure(kind, text) => Stop(Abort(kind, id, n, FromRunner(text), d))
        case Edge(next, cs) => Go(Executed(id, n, cs), Record(d, id, cs), next.id, NewOverride(cs, override)));
      SameTurn(p, turn, AfterChild(p, loc, d, n, ending, override))
  {
    hide Realizes, Located, DoneLoc, FailLoc, DirectiveLoc, StateAt, ResolveDirective;
    StateOfLoc(sm, p, loc);
    TargetsMatch(sm, p, loc);
    var s := sm.states[IdOf(p, loc)];
    if ending.Exited? && ending.directive.Some? {
      DirectiveMatches(p, loc, s, ending.directive.value.name);
    }
  }

  lemma JobMatches(p: Script, loc: Loc, s: State)
    requires ValidLoc(p, loc) && (loc.AtTask? || loc.AtInline?) && SameShape(s, StateAt(p, loc))
    ensures JobOf(s) == JobAt(p, loc) && s.ifCond == CondAt(p, loc) && s.id == IdOf(p, loc)
  {
  }

  lemma PerformMatches(sm: StateMachine, p: Script, cond: CondEval, worker: Worker, d: Ctx, loc: Loc, n: nat, override: Option<string>)
    requires ValidLoc(p, loc)
    requires Realizes(sm, p) && Located(p, loc) && (loc.AtTask? || loc.AtInline?)
    ensures IdOf(p, loc) in sm.states
    ensures SameTurn(p, Perform(sm.states[IdOf(p, loc)], WorkerEnv(cond, worker), d, IdOf(p, loc), n, override),
                     DirectPerform(p, cond, worker, d, loc, n, override))
  {
    hide Realizes, Located, Matches, DoneLoc, FailLoc, AfterChild, ResolveEdge, StateAt, IdOf;
    StateOfLoc(sm, p, loc);
    TargetsMatch(sm, p, loc);
    var s := sm.states[IdOf(p, loc)];
    JobMatches(p, loc, s);
    ChildMatches(sm, p, loc, d, n, worker(JobAt(p, loc), d), override);
  }

  // At a terminal or nowhere the two agree on what the id names.
  lemma DirectEnds(sm: StateMachine, p: Script, loc: Loc)
    requires Realizes(sm, p) && Located(p, loc)
    ensures sm.terminals == p.terminals
    ensures loc.Nowhere? ==> loc.id !in sm.states && loc.id !in sm.terminals
    ensures loc.AtTerminal? ==> loc.id in sm.terminals
  {
    if loc.Nowhere? {
      assert !Named(p.tasks, loc.id);
    }
  }

  lemma StepMatches(sm: StateMachine, p: Script, cond: CondEval, worker: Worker, c: Ctx, loc: Loc, override: Option<string>)
    requires Realizes(sm, p) && Located(p, loc)
    ensures SameTurn(p, Step(sm, WorkerEnv(cond, worker), c, IdOf(p, loc), override),
                     DirectStep(p, cond, worker, c, loc, override))
  {
    hide Perform, DirectPerform, Realizes, Matches, SameShape, StateAt;
    DirectEnds(sm, p, loc);
    var id := IdOf(p, loc);
    if loc.AtTask? || loc.AtInline? {
      StateOfLoc(sm, p, loc);
      var d := Bump(c, id);
      PerformMatches(sm, p, cond, worker, d, loc, At(d.visits, id), override);
    }
  }

  // ---- whole runs ------------------------------------------------------------------

  lemma {:induction false} RunsMatch(sm: StateMachine, p: Script, cond: CondEval, worker: Worker, c: Ctx, loc: Loc, override: Option<string>)
    requires Realizes(sm, p) && Located(p, loc)
    ensures Drive(sm, WorkerEnv(cond, worker), c, IdOf(p, loc), override) == Interpret(p, cond, worker, c, loc, override)
    decreases Budget(p.caps, c.visits)
  {
    hide Step, DirectStep, Budget;
    var env := WorkerEnv(cond, worker);
    StepMatches(sm, p, cond, worker, c, loc, override);
    MoveValid(p, cond, worker, c, loc, override);
    StepDropsIfGo(sm, env, c, IdOf(p, loc), override);
    var m := DirectStep(p, cond, worker, c, loc, override);
    if m.MoveTo? {
      RunsMatch(sm, p, cond, worker, m.ctx, m.loc, m.override);
    }
  }

  lemma StepDropsIfGo(sm: StateMachine, env: Env, c: Ctx, id: StateId, override: Option<string>)
    ensures var t := Step(sm, env, c, id, override); t.Go? ==> Budget(Caps(sm), t.ctx.visits) < Budget(Caps(sm), c.visits)
  {
    if Step(sm, env, c, id, override).Go? { StepDrops(sm, env, c, id, override); }
  }

  // ---- the script of a body ----------------------------------------------------------

  function TasksOf(body: RawBody): seq<RawTask> {
    if body.SugarBody? then body.tasks else []
  }

  function InlineOf(body: RawBody): map<StateId, RawState> {
    if body.EmptyBody? then map[] else body.states
  }

  function RuleOnFail(body: RawBody): Option<StateId> {
    if body.SugarBody? then body.onFail else None
  }

  function StartOf(body: RawBody): StateId
    requires !body.EmptyBody? && (body.SugarBody? ==> body.tasks != [])
  {
    if body.CanonicalBody? then body.start else body.tasks[0].id
  }

  // Without a `max_visits` a state is visited once.
  function CapOf(maxVisits: Option<nat>): nat {
    match maxVisits
    case Some(n) => n
    case None => 1
  }

  // The cap written for an id: its last task's, or its inline state's.
  ghost function WrittenCap(body: RawBody, id: StateId): nat {
    var ts := TasksOf(body);
    if Named(ts, id) then
      LastExists(ts, id);
      var i: nat :| LastNamed(ts, id, i);
      CapOf(ts[i].maxVisits)
    else if id in InlineOf(body) then CapOf(InlineOf(body)[id].maxVisits)
    else 0
  }

  // Where an id's state can lead: the next task or success, the target on failure,
  // and the targets of its directives.
  ghost predicate TaskLeads(body: RawBody, i: nat, to: StateId)
    requires i < |TasksOf(body)|
  {
    var ts := TasksOf(body);
    || to == (if i + 1 < |ts| then ts[i + 1].id else "__success__")
    || to == (if ts[i].onFail.Some? then ts[i].onFail.value else if RuleOnFail(body).Some? then RuleOnFail(body).value else "__failure__")
    || exists n :: n in ts[i].directives && Aim(ts[i].directives[n]) == to
  }

  ghost predicate InlineLeads(s: RawState, to: StateId) {
    || to == s.onDone.GetOr("__success__")
    || to == s.onFail.GetOr("__failure__")
    || exists n :: n in s.directives && Aim(s.directives[n]) == to
  }

  ghost predicate Mentioned(body: RawBody, to: StateId)
    requires !body.EmptyBody? && (body.SugarBody? ==> body.tasks != [])
  {
    var ts, inline := TasksOf(body), InlineOf(body);
    || to == StartOf(body)
    || (exists i: nat :: i < |ts| && LastNamed(ts, ts[i].id, i) && TaskLeads(body, i, to))
    || (exists x :: x in inline && !Named(ts, x) && InlineLeads(inline[x], to))
  }

  function StandardOutcome(id: StateId): string {
    if id == "__success__" then "success"
    else if id == "__failure__" then "failure"
    else if id == "__no_action__" then "no_action"
    else "cancelled"
  }

  const STANDARD: set<StateId> := {"__success__", "__failure__", "__no_action__", "__cancelled__"}

  // The declared terminals, and the standard ones that the body mentions.
  ghost function TerminalsOf(body: RawBody): map<StateId, Terminal>
    requires !body.EmptyBody? && (body.SugarBody? ==> body.tasks != [])
  {
    map id | id in body.terminals.Keys + STANDARD && (id in body.terminals || Mentioned(body, id))
      :: Terminal(id, if id in body.terminals then body.terminals[id] else StandardOutcome(id))
  }

  ghost predicate Chosen(body: RawBody, ruleIdx: nat, id: StateId) {
    Built(body, ruleIdx).Ok? && Injects(Pass1(Built(body, ruleIdx).value), id)
  }

  // The caps in force: the written ones, and the default where pass 5 chose.
  ghost function CapsOf(body: RawBody, ruleIdx: nat, cap: nat): map<StateId, nat> {
    map id | id in (set t | t in TasksOf(body) :: t.id) + InlineOf(body).Keys ::
      if Chosen(body, ruleIdx, id) then cap else WrittenCap(body, id)
  }

  // Everything the interpreter reads, read off the body.
  ghost function ScriptOf(body: RawBody, ruleIdx: nat, cap: nat): Script
    requires !body.EmptyBody? && (body.SugarBody? ==> body.tasks != [])
  {
    Script(TasksOf(body), InlineOf(body), TerminalsOf(body), RuleOnFail(body), CapsOf(body, ruleIdx, cap))
  }

  lemma InlineLookup(raw: map<StateId, RawState>)
    ensures InlineStates(raw).Keys == raw.Keys
    ensures forall id | id in raw :: InlineStates(raw)[id] == RawToState(id, raw[id])
  {
  }

  // What the inserted states are, place by place.
  ghost predicate Inserted(states: map<StateId, State>, tasks: seq<RawTask>, raw: map<StateId, RawState>, onFail: Option<StateId>) {
    && (forall i: nat | i < |tasks| && LastNamed(tasks, tasks[i].id, i) ::
      tasks[i].id in states && states[tasks[i].id] == TaskState(tasks[i], NextId(tasks, i), onFail))
    && (forall id | !Named(tasks, id) ::
      (id in states <==> id in raw) && (id in raw ==> states[id] == RawToState(id, raw[id])))
  }

  lemma InsertedStates(tasks: seq<RawTask>, raw: map<StateId, RawState>, onFail: Option<StateId>)
    ensures Inserted(WithTasks(InlineStates(raw), tasks, onFail, |tasks|), tasks, raw, onFail)
  {
    hide InlineStates, TaskState, RawToState, WithTasks, NextId, Named, LastNamed;
    var inline := InlineStates(raw);
    InlineLookup(raw);
    var states := WithTasks(inline, tasks, onFail, |tasks|);
    forall i: nat | i < |tasks| && LastNamed(tasks, tasks[i].id, i)
      ensures tasks[i].id in states && states[tasks[i].id] == TaskState(tasks[i], NextId(tasks, i), onFail)
    {
      TaskLookup(inline, tasks, onFail, |tasks|, i);
    }
    forall id | !Named(tasks, id)
      ensures (id in states <==> id in raw) && (id in raw ==> states[id] == RawToState(id, raw[id]))
    {
      NoTaskNamed(tasks, id);
      OtherLookup(inline, tasks, onFail, |tasks|, id);
    }
  }

  lemma NoTaskNamed(tasks: seq<RawTask>, id: StateId)
    requires !Named(tasks, id)
    ensures forall i | 0 <= i < |tasks| :: tasks[i].id != id
  {
    forall i | 0 <= i < |tasks| ensures tasks[i].id != id { assert !TaskNamed(tasks, id, i); }
  }

  // The machine a body is built into, by what the body says.
  ghost predicate BuiltFrom(built: StateMachine, body: RawBody) {
    && !body.EmptyBody? && (body.SugarBody? ==> body.tasks != [])
    && built.start == StartOf(body) && built.terminals == ConvertTerminals(body.terminals)
    && Inserted(built.states, TasksOf(body), InlineOf(body), RuleOnFail(body))
  }

  lemma BuiltIs(body: RawBody, ruleIdx: nat)
    requires Built(body, ruleIdx).Ok?
    ensures BuiltFrom(Built(body, ruleIdx).value, body)
  {
    hide Inserted, InlineStates, FirstMalformed, FirstBadTask, ConvertTerminals;
    InsertedStates(TasksOf(body), InlineOf(body), RuleOnFail(body));
  }

  // ---- its states, terminals and caps ------------------------------------------------

  // Every state of the machine stands for a task or an inline state of the body.
  lemma StateSource(built: StateMachine, body: RawBody, id: StateId)
    requires BuiltFrom(built, body)
    ensures id in built.states <==> id in InlineOf(body) || Named(TasksOf(body), id)
    ensures Named(TasksOf(body), id) ==>
      exists i: nat :: LastNamed(TasksOf(body), id, i) && built.states[id] == TaskState(TasksOf(body)[i], NextId(TasksOf(body), i), RuleOnFail(body))
  {
    hide TaskState, RawToState, NextId;
    var ts := TasksOf(body);
    if Named(ts, id) {
      LastExists(ts, id);
      var i: nat :| LastNamed(ts, id, i);
      assert ts[i].id == id;
    }
  }

  lemma TaskTargets(body: RawBody, i: nat, to: StateId)
    requires i < |TasksOf(body)|
    ensures (exists t :: t in Targets(TaskState(TasksOf(body)[i], NextId(TasksOf(body), i), RuleOnFail(body))) && t.id == to)
            <==> TaskLeads(body, i, to)
  {
    var s := TaskState(TasksOf(body)[i], NextId(TasksOf(body), i), RuleOnFail(body));
    TargetIds(s, TasksOf(body)[i].directives, to);
  }

  lemma InlineTargets(id: StateId, s: RawState, to: StateId)
    ensures (exists t :: t in Targets(RawToState(id, s)) && t.id == to) <==> InlineLeads(s, to)
  {
    TargetIds(RawToState(id, s), s.directives, to);
  }

  lemma TargetIds(s: State, raw: map<DirectiveName, RawTarget>, to: StateId)
    requires s.directives == ConvertDirectives(raw)
    ensures (exists t :: t in Targets(s) && t.id == to)
            <==> (s.onDone.id == to || s.onFail.id == to || exists n :: n in raw && Aim(raw[n]) == to)
  {
    if t :| t in s.directives.Values && t.id == to {
      var n :| n in s.directives && s.directives[n] == t;
      assert Aim(raw[n]) == to;
    }
    if n :| n in raw && Aim(raw[n]) == to {
      assert s.directives[n] in s.directives.Values;
      assert s.directives[n] in Targets(s);
    }
    assert s.onDone in Targets(s) && s.onFail in Targets(s);
  }

  lemma ReferencedIsMentioned(built: StateMachine, body: RawBody, to: StateId)
    requires BuiltFrom(built, body)
    ensures Referenced(built, to) <==> Mentioned(body, to)
  {
    hide Targets, TaskState, RawToState, NextId, TaskLeads, InlineLeads, Inserted;
    var ts, inline := TasksOf(body), InlineOf(body);
    if s, t :| s in built.states && t in Targets(built.states[s]) && t.id == to {
      StateIsMentioned(built, body, s, to);
    }
    if i: nat :| i < |ts| && LastNamed(ts, ts[i].id, i) && TaskLeads(body, i, to) {
      TaskIsReferenced(built, body, i, to);
    }
    if x :| x in inline && !Named(ts, x) && InlineLeads(inline[x], to) {
      InlineIsReferenced(built, body, x, to);
    }
  }

  lemma StateIsMentioned(built: StateMachine, body: RawBody, s: StateId, to: StateId)
    requires BuiltFrom(built, body) && s in built.states && exists t :: t in Targets(built.states[s]) && t.id == to
    ensures Mentioned(body, to)
  {
    hide Targets, TaskState, RawToState, NextId, TaskLeads, InlineLeads;
    var ts := TasksOf(body);
    StateSource(built, body, s);
    if Named(ts, s) {
      var i: nat :| LastNamed(ts, s, i) && built.states[s] == TaskState(ts[i], NextId(ts, i), RuleOnFail(body));
      TaskTargets(body, i, to);
      assert LastNamed(ts, ts[i].id, i);
    } else {
      InlineTargets(s, InlineOf(body)[s], to);
    }
  }

  lemma TaskIsReferenced(built: StateMachine, body: RawBody, i: nat, to: StateId)
    requires BuiltFrom(built, body) && i < |TasksOf(body)| && LastNamed(TasksOf(body), TasksOf(body)[i].id, i) && TaskLeads(body, i, to)
    ensures Referenced(built, to)
  {
    hide Targets, TaskState, RawToState, NextId, TaskLeads;
    TaskTargets(body, i, to);
  }

  lemma InlineIsReferenced(built: StateMachine, body: RawBody, x: StateId, to: StateId)
    requires BuiltFrom(built, body) && x in InlineOf(body) && !Named(TasksOf(body), x) && InlineLeads(InlineOf(body)[x], to)
    ensures Referenced(built, to)
  {
    hide Targets, RawToState, InlineLeads;
    InlineTargets(x, InlineOf(body)[x], to);
  }

  lemma StandardIs(id: StateId)
    ensures id in STANDARD <==> id in BUILTINS
    ensures id in STANDARD ==> StandardOutcome(id) == DefaultOutcome(id)
  {
  }

  lemma TerminalAt(built: StateMachine, body: RawBody, id: StateId)
    requires BuiltFrom(built, body)
    ensures id in Pass1(built).terminals <==> id in TerminalsOf(body)
    ensures id in TerminalsOf(body) ==> Pass1(built).terminals[id] == TerminalsOf(body)[id]
  {
    StandardIs(id);
    ReferencedIsMentioned(built, body, id);
    hide Referenced, Mentioned, Inserted, DefaultOutcome, StandardOutcome, BUILTINS, STANDARD;
  }

  // Pass 1 adds the standard terminals that the body mentions and does not
  // declare, with the standard outcomes.
  lemma TerminalsAre(built: StateMachine, body: RawBody)
    requires BuiltFrom(built, body)
    ensures Pass1(built).terminals == TerminalsOf(body)
  {
    hide Inserted, Pass1, TerminalsOf;
    forall id
      ensures id in Pass1(built).terminals <==> id in TerminalsOf(body)
      ensures id in TerminalsOf(body) ==> Pass1(built).terminals[id] == TerminalsOf(body)[id]
    {
      TerminalAt(built, body, id);
    }
  }

  lemma CapSource(built: StateMachine, body: RawBody, id: StateId)
    requires BuiltFrom(built, body) && id in built.states
    ensures built.states[id].maxVisits == WrittenCap(body, id)
  {
    StateSource(built, body, id);
  }

  lemma PassesCap(sm: StateMachine, cap: nat, id: StateId)
    requires id in sm.states
    ensures var m := Classified(Pass5(sm, cap));
      id in m.states && m.states[id].maxVisits == if Injects(sm, id) then cap else sm.states[id].maxVisits
  {
    hide Injects, Reclassify;
  }

  // The caps of an expanded machine: for every task and inline state the written
  // `max_visits`, or one, and the default cap where pass 5 chose the state.
  lemma CapsAreWritten(body: RawBody, ruleIdx: nat, cap: nat)
    requires Expand(body, ruleIdx, cap).Ok?
    ensures Caps(Expand(body, ruleIdx, cap).value) == CapsOf(body, ruleIdx, cap)
  {
    hide Caps, CapsOf, Expand;
    forall id
      ensures id in Caps(Expand(body, ruleIdx, cap).value) <==> id in CapsOf(body, ruleIdx, cap)
      ensures id in CapsOf(body, ruleIdx, cap) ==> Caps(Expand(body, ruleIdx, cap).value)[id] == CapsOf(body, ruleIdx, cap)[id]
    {
      CapAt(body, ruleIdx, cap, id);
    }
  }

  lemma CapAt(body: RawBody, ruleIdx: nat, cap: nat, id: StateId)
    requires Expand(body, ruleIdx, cap).Ok?
    ensures id in Caps(Expand(body, ruleIdx, cap).value) <==> id in CapsOf(body, ruleIdx, cap)
    ensures id in CapsOf(body, ruleIdx, cap) ==> Caps(Expand(body, ruleIdx, cap).value)[id] == CapsOf(body, ruleIdx, cap)[id]
  {
    var built := Built(body, ruleIdx).value;
    var sm := Pass1(built);
    BuiltIs(body, ruleIdx);
    PassesKeepShape(sm, cap);
    assert Expand(body, ruleIdx, cap).value == Classified(Pass5(sm, cap)) && sm.states == built.states;
    hide Built, Expand, Pass1, Pass5, Classified, BuiltFrom, Injects, WrittenCap, SameShape, InlineOf, Named;
    StateSource(built, body, id);
    NamedIs(TasksOf(body), id);
    if id in sm.states {
      PassesCap(sm, cap, id);
      CapSource(built, body, id);
    }
  }

  lemma NamedIs(tasks: seq<RawTask>, id: StateId)
    ensures Named(tasks, id) <==> exists t :: t in tasks && t.id == id
  {
    if t :| t in tasks && t.id == id {
      var i: nat :| i < |tasks| && tasks[i] == t;
      assert TaskNamed(tasks, id, i);
    }
  }

  // ---- the expanded machine is the script's ------------------------------------------

  lemma PassesRealize(built: StateMachine, sm: StateMachine, p: Script)
    requires Inserted(built.states, p.tasks, p.inline, p.onFail)
    requires sm.states.Keys == built.states.Keys && forall id | id in built.states :: SameShape(sm.states[id], built.states[id])
    requires p.terminals == sm.terminals && p.caps == Caps(sm)
    ensures Realizes(sm, p)
  {
    hide SameShape, TaskState, RawToState, Caps, NextId;
    forall id ensures id in sm.states <==> id in p.inline || Named(p.tasks, id) {
      if Named(p.tasks, id) {
        LastExists(p.tasks, id);
        var i: nat :| LastNamed(p.tasks, id, i);
        assert p.tasks[i].id in sm.states;
      }
    }
  }

  // Expansion keeps what every place of a body says.
  lemma ExpandRealizes(body: RawBody, ruleIdx: nat, cap: nat)
    requires Expand(body, ruleIdx, cap).Ok?
    ensures !body.EmptyBody? && (body.SugarBody? ==> body.tasks != [])
    ensures Expand(body, ruleIdx, cap).value.start == StartOf(body)
    ensures Realizes(Expand(body, ruleIdx, cap).value, ScriptOf(body, ruleIdx, cap))
  {
    var built := Built(body, ruleIdx).value;
    BuiltIs(body, ruleIdx);
    PassesKeepShape(Pass1(built), cap);
    TerminalsAre(built, body);
    CapsAreWritten(body, ruleIdx, cap);
    hide SameShape, Pass5, Classified, Inserted, Realizes, Built, TerminalsOf, CapsOf;
    PassesRealize(built, Expand(body, ruleIdx, cap).value, ScriptOf(body, ruleIdx, cap));
  }

  // For every body that expands, every `if:` evaluator and every child: walking the
  // body as it is written and driving the expanded machine give the same verdict,
  // counters, captures and trace.
  lemma ExpansionPreservesMeaning(body: RawBody, ruleIdx: nat, cap: nat, cond: CondEval, worker: Worker)
    requires Expand(body, ruleIdx, cap).Ok?
    ensures !body.EmptyBody? && (body.SugarBody? ==> body.tasks != [])
    ensures var p := ScriptOf(body, ruleIdx, cap); var start := Locate(p, StartOf(body));
      && ValidLoc(p, start)
      && Drive(Expand(body, ruleIdx, cap).value, WorkerEnv(cond, worker), FRESH, Expand(body, ruleIdx, cap).value.start, None)
         == Interpret(p, cond, worker, FRESH, start, None)
  {
    hide Expand, Realizes, Drive, Interpret, Locate, ScriptOf;
    ExpandRealizes(body, ruleIdx, cap);
    var p := ScriptOf(body, ruleIdx, cap);
    LocateLocated(p, StartOf(body));
    RunsMatch(Expand(body, ruleIdx, cap).value, p, cond, worker, FRESH, Locate(p, StartOf(body)), None);
  }

  // Where the task ids differ and none is a terminal's, that walk starts at the
  // first task and goes from each to the next in the array.
  lemma WalksTheArray(p: Script, i: nat)
    requires i < |p.tasks| && p.tasks[i].id !in p.terminals
    requires forall a, b | 0 <= a < b < |p.tasks| :: p.tasks[a].id != p.tasks[b].id
    ensures Locate(p, p.tasks[i].id) == AtTask(i)
    ensures i > 0 ==> DoneLoc(p, AtTask(i - 1)) == AtTask(i)
  {
    assert TaskNamed(p.tasks, p.tasks[i].id, i);
    LastExists(p.tasks, p.tasks[i].id);
    assert forall j: nat | LastNamed(p.tasks, p.tasks[i].id, j) :: j == i;
  }
}
