// A run explained by its trace: what every state saw when it ran, and why the run
// went on or stopped, in terms of the events alone.
module Replay {
  import opened Common
  import opened Totals
  import opened Canonical
  import opened Driver

  // How often an id has completed a visit.
  function VisitsIn(trace: seq<Event>, id: StateId): nat {
    if trace == [] then 0 else VisitsIn(trace[..|trace| - 1], id) + if trace[|trace| - 1].id == id then 1 else 0
  }

  // The i-th event is the newest in which the state ran; skipped visits leave
  // captures alone.
  predicate Newest(trace: seq<Event>, id: StateId, i: nat) {
    && i < |trace| && trace[i].Executed? && trace[i].id == id
    && forall j | i < j < |trace| :: !(trace[j].Executed? && trace[j].id == id)
  }

  ghost predicate CapturesAre(captures: map<StateId, Captures>, trace: seq<Event>) {
    && (forall id | id in captures :: exists i: nat :: Newest(trace, id, i))
    && (forall id, i: nat | Newest(trace, id, i) :: id in captures && captures[id] == trace[i].captures)
  }

  // The counters and captures that a trace leaves behind.
  ghost predicate Describes(c: Ctx, trace: seq<Event>) {
    c.iter == |trace| && (forall id :: At(c.visits, id) == VisitsIn(trace, id)) && CapturesAre(c.captures, trace)
  }

  // What a state sees on its visit: itself counted, and the captures so far.
  ghost predicate Sees(d: Ctx, trace: seq<Event>, id: StateId) {
    && d.iter == |trace| + 1
    && (forall x :: At(d.visits, x) == VisitsIn(trace, x) + if x == id then 1 else 0)
    && CapturesAre(d.captures, trace)
  }

  function Answer(s: State, env: Env, n: nat, d: Ctx): CondResult {
    if s.ifCond.Some? then env.cond(s.ifCond.value, s.id, n, d) else Holds
  }

  // After `trace` the state `e.id` was visited within its cap; its condition held
  // and its runner went to `next` with these captures, or the condition failed and
  // `next` is where it goes when done.
  ghost predicate Explains(sm: StateMachine, env: Env, trace: seq<Event>, e: Event, next: StateId) {
    && e.id in sm.states && e.id !in sm.terminals
    && e.visitN == VisitsIn(trace, e.id) + 1 <= sm.states[e.id].maxVisits
    && exists d :: Sees(d, trace, e.id) && Answers(sm.states[e.id], env, d, e, next)
  }

  predicate Answers(s: State, env: Env, d: Ctx, e: Event, next: StateId) {
    match e
    case Skipped(_, n) => Answer(s, env, n, d) == Fails && next == s.onDone.id
    case Executed(_, n, captures) =>
      && Answer(s, env, n, d) == Holds
      && env.run(s, d).Edge? && env.run(s, d).captures == captures && env.run(s, d).next.id == next
  }

  // The other ways a visit can end: an unreadable condition, or a failed runner.
  predicate Breaks(s: State, env: Env, d: Ctx, x: StateId, n: nat, v: Verdict) {
    match Answer(s, env, n, d)
    case CondError(detail) => v == Aborted(FailureMetadata(TemplateError, x, n, IfCondRender(detail)))
    case Fails => false
    case Holds => env.run(s, d).Failure? && v == Aborted(FailureMetadata(env.run(s, d).kind, x, n, FromRunner(env.run(s, d).errorText)))
  }

  // Why a run that has come to x after `trace` stops there.
  ghost predicate Ends(sm: StateMachine, env: Env, trace: seq<Event>, x: StateId, v: Verdict) {
    if x in sm.terminals then
      v.Finished? && v.result.terminalId == sm.terminals[x].id && v.result.iterations == |trace|
    else if x !in sm.states then
      v == Aborted(FailureMetadata(SchemaDrift, x, VisitsIn(trace, x), StateNotFound))
    else
      var s, n := sm.states[x], VisitsIn(trace, x) + 1;
      if n > s.maxVisits then v == Aborted(FailureMetadata(RecursionBound, x, n, VisitedTooOften(n, s.maxVisits)))
      else exists d :: Sees(d, trace, x) && Breaks(s, env, d, x, n, v)
  }

  ghost function NextId(trace: seq<Event>, i: nat, last: StateId): StateId {
    if i + 1 < |trace| then trace[i + 1].id else last
  }

  ghost predicate Explained(sm: StateMachine, env: Env, trace: seq<Event>, last: StateId, from: nat) {
    forall i: nat | from <= i < |trace| :: Explains(sm, env, trace[..i], trace[i], NextId(trace, i, last))
  }

  // ---- one turn ----------------------------------------------------------------

  lemma BumpSees(c: Ctx, trace: seq<Event>, id: StateId)
    requires Describes(c, trace)
    ensures Sees(Bump(c, id), trace, id) && At(Bump(c, id).visits, id) == VisitsIn(trace, id) + 1
    ensures c.iter == |trace| && At(c.visits, id) == VisitsIn(trace, id)
    ensures CapturesAre(c.captures, trace) && CapturesAre(Bump(c, id).captures, trace)
  {
    hide VisitsIn, CapturesAre;
  }

  lemma VisitsAppend(trace: seq<Event>, e: Event)
    ensures forall x :: VisitsIn(trace + [e], x) == VisitsIn(trace, x) + if e.id == x then 1 else 0
  {
    assert (trace + [e])[..|trace|] == trace;
  }

  lemma SkipDescribes(d: Ctx, trace: seq<Event>, id: StateId, n: nat)
    requires Sees(d, trace, id)
    ensures Describes(d, trace + [Skipped(id, n)])
  {
    var all := trace + [Skipped(id, n)];
    VisitsAppend(trace, Skipped(id, n));
    hide VisitsIn;
    forall x, i: nat ensures Newest(all, x, i) <==> Newest(trace, x, i) {
      if Newest(trace, x, i) { assert all[i] == trace[i]; }
      if Newest(all, x, i) { forall j | i < j < |trace| ensures !(trace[j].Executed? && trace[j].id == x) { assert all[j] == trace[j]; } }
    }
    assert forall i | 0 <= i < |trace| :: all[i] == trace[i];
  }

  lemma RunDescribes(d: Ctx, trace: seq<Event>, id: StateId, n: nat, captures: Captures)
    requires Sees(d, trace, id)
    ensures Describes(Record(d, id, captures), trace + [Executed(id, n, captures)])
  {
    var e := Executed(id, n, captures);
    var all := trace + [e];
    VisitsAppend(trace, e);
    hide VisitsIn;
    assert Newest(all, id, |trace|);
    forall x, i: nat ensures Newest(all, x, i) <==> (if x == id then i == |trace| else Newest(trace, x, i)) {
      if x != id && Newest(trace, x, i) { assert all[i] == trace[i]; }
      if x != id && Newest(all, x, i) {
        forall j | i < j < |trace| ensures !(trace[j].Executed? && trace[j].id == x) { assert all[j] == trace[j]; }
      }
    }
    assert forall i | 0 <= i < |trace| :: all[i] == trace[i];
  }

  lemma StepExplains(sm: StateMachine, env: Env, c: Ctx, trace: seq<Event>, current: StateId, override: Option<string>)
    requires Describes(c, trace)
    ensures match Step(sm, env, c, current, override)
      case Stop(trip) => Ends(sm, env, trace, current, trip.verdict) && CapturesAre(trip.ctx.captures, trace)
      case Go(e, d, next, o) => e.id == current && Explains(sm, env, trace, e, next) && Describes(d, trace + [e])
  {
    hide CapturesAre, Record, VisitsIn, Sees, Describes, Bump;
    BumpSees(c, trace, current);
    if current in sm.states && current !in sm.terminals {
      var d, s := Bump(c, current), sm.states[current];
      var n := At(d.visits, current);
      SkipDescribes(d, trace, current, n);
      if env.run(s, d).Edge? { RunDescribes(d, trace, current, n, env.run(s, d).captures); }
    }
  }

  // ---- the whole run -------------------------------------------------------------

  lemma NothingMore(sm: StateMachine, env: Env, trace: seq<Event>, last: StateId)
    ensures Explained(sm, env, trace, last, |trace|)
  {
  }

  lemma ExplainedFrom(sm: StateMachine, env: Env, trace: seq<Event>, last: StateId, from: nat)
    requires from < |trace| && Explained(sm, env, trace, last, from + 1)
    requires Explains(sm, env, trace[..from], trace[from], NextId(trace, from, last))
    ensures Explained(sm, env, trace, last, from)
  {
    hide Explains;
  }

  // From a context that `trace` describes.
  lemma {:induction false} DriveExplained(sm: StateMachine, env: Env, c: Ctx, trace: seq<Event>, current: StateId, override: Option<string>)
    returns (last: StateId)
    requires Describes(c, trace)
    ensures var r := Drive(sm, env, c, current, override); var all := trace + r.trace;
      && Explained(sm, env, all, last, |trace|) && Ends(sm, env, all, last, r.verdict)
      && CapturesAre(r.ctx.captures, all)
      && current == if r.trace == [] then last else r.trace[0].id
    decreases Budget(Caps(sm), c.visits)
  {
    hide Budget, Describes, Explains, Explained, Ends, CapturesAre, Step;
    StepExplains(sm, env, c, trace, current, override);
    StopIsBare(sm, env, c, current, override);
    var turn := Step(sm, env, c, current, override);
    if turn.Stop? {
      last := current;
      assert trace + [] == trace;
      NothingMore(sm, env, trace, last);
    } else {
      StepDrops(sm, env, c, current, override);
      last := DriveExplained(sm, env, turn.ctx, trace + [turn.event], turn.id, turn.override);
      var rest := Drive(sm, env, turn.ctx, turn.id, turn.override).trace;
      var all := trace + ([turn.event] + rest);
      assert (trace + [turn.event]) + rest == all;
      assert all[..|trace|] == trace && all[|trace|] == turn.event;
      ExplainedFrom(sm, env, all, last, |trace|);
    }
  }

  lemma FreshDescribes()
    ensures Describes(FRESH, [])
  {
  }

  // Every run from empty counters, turn by turn: each event is what its state
  // answered, on the visit with that number, to the captures of the states that ran
  // before it; the next event is where that answer led; and the run ends for the
  // reason it gives, at the id the last answer led to.
  lemma RunExplained(sm: StateMachine, env: Env) returns (last: StateId)
    ensures var r := Drive(sm, env, FRESH, sm.start, None);
      && (forall i: nat | i < |r.trace| :: Explains(sm, env, r.trace[..i], r.trace[i], NextId(r.trace, i, last)))
      && sm.start == (if r.trace == [] then last else r.trace[0].id)
      && Ends(sm, env, r.trace, last, r.verdict)
  {
    hide Explains, Ends, Drive, VisitsIn, CapturesAre;
    FreshDescribes();
    last := DriveExplained(sm, env, FRESH, [], sm.start, None);
    assert [] + Drive(sm, env, FRESH, sm.start, None).trace == Drive(sm, env, FRESH, sm.start, None).trace;
  }

  // The captures a run leaves: a state has some exactly when it ran, and they are
  // those of the last time it did.
  lemma CapturesAreNewest(sm: StateMachine, env: Env, id: StateId)
    ensures var r := Drive(sm, env, FRESH, sm.start, None);
      && (id in r.ctx.captures <==> exists i :: 0 <= i < |r.trace| && r.trace[i].Executed? && r.trace[i].id == id)
      && (forall i: nat | i < |r.trace| && r.trace[i].Executed? && r.trace[i].id == id
            && (forall j | i < j < |r.trace| :: !(r.trace[j].Executed? && r.trace[j].id == id))
          :: id in r.ctx.captures && r.ctx.captures[id] == r.trace[i].captures)
  {
    hide Drive, Explained, Ends, Describes, CapturesAre;
    FreshDescribes();
    var last := DriveExplained(sm, env, FRESH, [], sm.start, None);
    assert [] + Drive(sm, env, FRESH, sm.start, None).trace == Drive(sm, env, FRESH, sm.start, None).trace;
    NewestAre(Drive(sm, env, FRESH, sm.start, None).ctx.captures, Drive(sm, env, FRESH, sm.start, None).trace, id);
  }

  lemma NewestAre(captures: map<StateId, Captures>, trace: seq<Event>, id: StateId)
    requires CapturesAre(captures, trace)
    ensures id in captures <==> exists i :: 0 <= i < |trace| && trace[i].Executed? && trace[i].id == id
    ensures forall i: nat | i < |trace| && trace[i].Executed? && trace[i].id == id
            && (forall j | i < j < |trace| :: !(trace[j].Executed? && trace[j].id == id))
          :: id in captures && captures[id] == trace[i].captures
  {
    if i: nat :| i < |trace| && trace[i].Executed? && trace[i].id == id {
      NewestExists(trace, id, i);
    }
    forall i: nat | i < |trace| && trace[i].Executed? && trace[i].id == id
            && (forall j | i < j < |trace| :: !(trace[j].Executed? && trace[j].id == id))
      ensures id in captures && captures[id] == trace[i].captures
    {
      assert Newest(trace, id, i);
    }
  }

  lemma {:induction false} NewestExists(trace: seq<Event>, id: StateId, i: nat)
    requires i < |trace| && trace[i].Executed? && trace[i].id == id
    ensures exists k: nat :: Newest(trace, id, k)
    decreases |trace| - i
  {
    if j :| i < j < |trace| && trace[j].Executed? && trace[j].id == id {
      NewestExists(trace, id, j);
    } else {
      assert Newest(trace, id, i);
    }
  }
}
