// Cycle rows when many invocations of the runner interleave and the daemon may
// crash between any two store writes. After a crash nothing runs until recovery
// has closed what was left open. A write may fail; the runner ignores that.
module CycleCrashes {
  import opened Common
  import opened CycleRows

  datatype What = ShorthandRow | MainRow(kind: Kind) | HandlerRow

  // An invocation between two store writes.
  datatype Pc =
    | Opening(what: What)
    | Working(what: What, id: CycleId)
    | Closing(what: What, id: CycleId, outcome: Outcome, thenHandle: bool)

  datatype Phase = Down | Recovering(rest: set<CycleId>) | Up

  // `drawn` holds every id ever used, `owner` the invocation that drew it,
  // `rowsOf` the rows each invocation opened, `lossy` whether a write failed.
  datatype System = System(
    rows: Table,
    running: map<nat, Pc>,
    phase: Phase,
    drawn: set<CycleId>,
    owner: map<CycleId, nat>,
    rowsOf: map<nat, seq<CycleId>>,
    lossy: bool
  )

  datatype Step =
    | Boot
    | Recover(id: CycleId, now: int, ok: bool)
    | Ready
    | Begin(p: nat, target: Target)
    | OpenRow(p: nat, id: CycleId, ticket: string, now: int, ok: bool)
    | Progress(p: nat, state: string, iter: nat, ok: bool)
    | Return(p: nat, end: End, handled: bool)
    | CloseRow(p: nat, now: int, ok: bool)
    | Crash

  function RowKind(what: What): Kind {
    match what
    case ShorthandRow => Cleanup
    case MainRow(kind) => kind
    case HandlerRow => Failure
  }

  function EntryName(what: What): string {
    match what
    case ShorthandRow => "cleanup-shorthand"
    case MainRow(_) => "rule"
    case HandlerRow => "failure-handler"
  }

  // A shorthand delete has no terminal: it succeeds or fails.
  function RowOutcome(what: What, end: End): Outcome {
    if what.ShorthandRow? && end.Reached? then Success else OutcomeOf(end)
  }

  predicate Enabled(s: System, step: Step) {
    match step
    case Boot => s.phase.Down?
    case Recover(id, _, _) => s.phase.Recovering? && id in s.phase.rest
    case Ready => s.phase == Recovering({})
    case Begin(p, _) => s.phase.Up? && p !in s.rowsOf
    case OpenRow(p, id, _, _, _) => p in s.running && s.running[p].Opening? && id !in s.drawn
    case Progress(p, _, _, _) => p in s.running && s.running[p].Working? && !s.running[p].what.ShorthandRow?
    case Return(p, _, _) => p in s.running && s.running[p].Working?
    case CloseRow(p, _, _) => p in s.running && s.running[p].Closing?
    case Crash => true
  }

  ghost function Apply(s: System, step: Step): System {
    if !Enabled(s, step) then s
    else match step
      case Boot => s.(phase := Recovering(OpenIds(s.rows)))
      case Recover(id, now, ok) =>
        s.(rows := if ok then CloseIn(s.rows, id, Failed, now) else s.rows,
           phase := Recovering(s.phase.rest - {id}),
           lossy := s.lossy || !ok)
      case Ready => s.(phase := Up)
      case Begin(p, target) =>
        s.(running := s.running[p := Opening(if target.Shorthand? then ShorthandRow else MainRow(target.kind))],
           rowsOf := s.rowsOf[p := []])
      case OpenRow(p, id, ticket, now, ok) =>
        var what := s.running[p].what;
        s.(rows := if ok then s.rows[id := NewRow(ticket, RowKind(what), EntryName(what), now)] else s.rows,
           running := s.running[p := Working(what, id)],
           drawn := s.drawn + {id},
           owner := s.owner[id := p],
           rowsOf := s.rowsOf[p := (if p in s.rowsOf then s.rowsOf[p] else []) + [id]],
           lossy := s.lossy || !ok)
      case Progress(p, state, iter, ok) =>
        s.(rows := if ok then StateIn(s.rows, s.running[p].id, state, iter) else s.rows)
      case Return(p, end, handled) =>
        var what := s.running[p].what;
        s.(running := s.running[p := Closing(what, s.running[p].id, RowOutcome(what, end),
                                             end.Broke? && what.MainRow? && what.kind != Failure && handled)])
      case CloseRow(p, now, ok) =>
        var pc := s.running[p];
        s.(rows := if ok then CloseIn(s.rows, pc.id, pc.outcome, now) else s.rows,
           running := if pc.thenHandle then s.running[p := Opening(HandlerRow)] else s.running - {p},
           lossy := s.lossy || !ok)
      case Crash => s.(running := map[], phase := Down)
  }

  ghost function Run(s: System, steps: seq<Step>): System
    decreases |steps|
  {
    if steps == [] then s else Run(Apply(s, steps[0]), steps[1..])
  }

  // A daemon about to start on the table some earlier boot left behind.
  function Cold(rows: Table): System {
    System(rows, map[], Down, rows.Keys, map[], map[], false)
  }

  // ---- an outcome is written once ----------------------------------------------

  // Whatever fails and whenever the daemon crashes, a row that has ended keeps
  // its outcome and its end time for good.
  lemma EndedStays(s: System, step: Step, id: CycleId)
    requires RowsOk(s.rows) && s.rows.Keys <= s.drawn
    requires id in s.rows && s.rows[id].endedAt.Some?
    ensures var s' := Apply(s, step);
      RowsOk(s'.rows) && s'.rows.Keys <= s'.drawn
      && id in s'.rows && s'.rows[id].outcome == s.rows[id].outcome && s'.rows[id].endedAt == s.rows[id].endedAt
  {
  }

  lemma {:induction false} OutcomeOnce(s: System, steps: seq<Step>, id: CycleId)
    requires RowsOk(s.rows) && s.rows.Keys <= s.drawn
    requires id in s.rows && s.rows[id].endedAt.Some?
    ensures var s' := Run(s, steps);
      id in s'.rows && s'.rows[id].outcome == s.rows[id].outcome && s'.rows[id].endedAt == s.rows[id].endedAt
    decreases |steps|
  {
    if steps == [] {
    } else {
      EndedStays(s, steps[0], id);
      hide Apply, RowsOk;
      OutcomeOnce(Apply(s, steps[0]), steps[1..], id);
    }
  }

  // ---- open rows are running cycles --------------------------------------------

  predicate Holds(pc: Pc, id: CycleId) {
    !pc.Opening? && pc.id == id
  }

  // Someone will close this row: its invocation, or the recovery under way.
  predicate Minded(s: System, id: CycleId) {
    if s.phase.Recovering? then id in s.phase.rest
    else id in s.owner && s.owner[id] in s.running && Holds(s.running[s.owner[id]], id)
  }

  // How many rows an invocation has opened by then, and which one it holds.
  predicate Progressed(pc: Pc, rows: seq<CycleId>) {
    && |rows| == (if pc.what.HandlerRow? then 1 else 0) + (if pc.Opening? then 0 else 1)
    && (!pc.Opening? ==> rows[|rows| - 1] == pc.id)
    && (pc.Closing? && pc.thenHandle ==> pc.what.MainRow?)
  }

  predicate OwnRows(s: System, p: nat) {
    p in s.rowsOf && |s.rowsOf[p]| <= 2
    && forall i | 0 <= i < |s.rowsOf[p]| :: s.rowsOf[p][i] in s.owner && s.owner[s.rowsOf[p][i]] == p
  }

  predicate InvocationOk(s: System, p: nat) {
    && (p in s.running ==> p in s.rowsOf && s.phase.Up? && Progressed(s.running[p], s.rowsOf[p]))
    && (p in s.rowsOf ==> OwnRows(s, p))
  }

  predicate RowOk(s: System, id: CycleId) {
    && (id in s.rows || id in s.owner ==> id in s.drawn)
    && (!s.lossy && !s.phase.Down? ==> (IsOpen(s.rows, id) <==> Minded(s, id)))
  }

  ghost predicate Inv(s: System) {
    && (forall p :: InvocationOk(s, p))
    && (forall id :: RowOk(s, id))
  }

  lemma InvocationKept(s: System, step: Step, p: nat)
    requires Inv(s)
    ensures InvocationOk(Apply(s, step), p)
  {
    assert InvocationOk(s, p);
    assert step.OpenRow? ==> RowOk(s, step.id);
  }

  lemma RowKept(s: System, step: Step, id: CycleId)
    requires Inv(s)
    ensures RowOk(Apply(s, step), id)
  {
    assert RowOk(s, id);
    if id in s.owner { assert InvocationOk(s, s.owner[id]); }
    if step.CloseRow? && step.p in s.running { assert InvocationOk(s, step.p); }
    if step.OpenRow? { assert InvocationOk(s, step.p); }
  }

  lemma InvKept(s: System, step: Step)
    requires Inv(s)
    ensures Inv(Apply(s, step))
  {
    forall p ensures InvocationOk(Apply(s, step), p) { InvocationKept(s, step, p); }
    forall id ensures RowOk(Apply(s, step), id) { RowKept(s, step, id); }
  }

  lemma {:induction false} InvRun(s: System, steps: seq<Step>)
    requires Inv(s)
    ensures Inv(Run(s, steps))
    decreases |steps|
  {
    if steps == [] {
    } else {
      hide Apply, Inv;
      InvKept(s, steps[0]);
      InvRun(Apply(s, steps[0]), steps[1..]);
    }
  }

  // On any table an earlier boot left, with every write succeeding and whatever
  // crashes: while the daemon is up the open rows are exactly those of running
  // invocations, so recovery has left none open and no finished invocation has.
  lemma OpenMeansRunning(rows: Table, steps: seq<Step>, id: CycleId)
    requires var s := Run(Cold(rows), steps); s.phase.Up? && !s.lossy
    ensures var s := Run(Cold(rows), steps);
      IsOpen(s.rows, id) <==> exists p :: p in s.running && Holds(s.running[p], id)
  {
    var s := Run(Cold(rows), steps);
    assert Inv(Cold(rows));
    InvRun(Cold(rows), steps);
    hide Run;
    assert RowOk(s, id);
    if p :| p in s.running && Holds(s.running[p], id) {
      assert InvocationOk(s, p);
    }
  }

  // An invocation opens at most two rows, and when it is over, in a boot that is
  // still up, each of them is closed.
  lemma AtMostTwoRows(rows: Table, steps: seq<Step>, p: nat)
    requires p in Run(Cold(rows), steps).rowsOf
    ensures var s := Run(Cold(rows), steps);
      && |s.rowsOf[p]| <= 2
      && (s.phase.Up? && !s.lossy && p !in s.running ==> forall id <- s.rowsOf[p] :: !IsOpen(s.rows, id))
  {
    var s := Run(Cold(rows), steps);
    assert Inv(Cold(rows));
    InvRun(Cold(rows), steps);
    hide Run;
    assert InvocationOk(s, p);
    forall id | id in s.rowsOf[p] ensures s.phase.Up? && !s.lossy && p !in s.running ==> !IsOpen(s.rows, id) {
      assert RowOk(s, id);
    }
  }

  // ---- the steps are the runner's ----------------------------------------------

  function RowScript(p: nat, ticket: string, id: CycleId, now: int, end: End, handled: bool): seq<Step> {
    [OpenRow(p, id, ticket, now, true), Return(p, end, handled), CloseRow(p, now, true)]
  }

  // One row from opening to closing, with nothing in between.
  lemma RowAlone(s: System, p: nat, ticket: string, id: CycleId, now: int, end: End, handled: bool)
    requires p in s.running && s.running[p].Opening? && id !in s.drawn && p in s.rowsOf
    ensures var s', what := Run(s, RowScript(p, ticket, id, now, end, handled)), s.running[p].what;
      && s'.rows == Settled(s.rows, id, ticket, RowKind(what), EntryName(what), now, RowOutcome(what, end))
      && s'.drawn == s.drawn + {id} && p in s'.rowsOf
      && (if end.Broke? && what.MainRow? && what.kind != Failure && handled then s'.running == s.running[p := Opening(HandlerRow)]
          else s'.running == s.running - {p})
  {
    RunThree(s, OpenRow(p, id, ticket, now, true), Return(p, end, handled), CloseRow(p, now, true));
    hide Run;
    hide Apply, RowKind, EntryName, RowOutcome;
    OpenAlone(s, p, id, ticket, now);
    var a := Apply(s, OpenRow(p, id, ticket, now, true));
    ReturnAlone(a, p, end, handled);
    CloseAlone(Apply(a, Return(p, end, handled)), p, now);
  }

  lemma OpenAlone(s: System, p: nat, id: CycleId, ticket: string, now: int)
    requires p in s.running && s.running[p].Opening? && id !in s.drawn && p in s.rowsOf
    ensures var what := s.running[p].what;
      Apply(s, OpenRow(p, id, ticket, now, true))
      == s.(rows := s.rows[id := NewRow(ticket, RowKind(what), EntryName(what), now)], running := s.running[p := Working(what, id)],
            drawn := s.drawn + {id}, owner := s.owner[id := p], rowsOf := s.rowsOf[p := s.rowsOf[p] + [id]])
  {
    hide RowKind, EntryName;
  }

  lemma ReturnAlone(s: System, p: nat, end: End, handled: bool)
    requires p in s.running && s.running[p].Working?
    ensures var pc := s.running[p];
      Apply(s, Return(p, end, handled))
      == s.(running := s.running[p := Closing(pc.what, pc.id, RowOutcome(pc.what, end),
                                              end.Broke? && pc.what.MainRow? && pc.what.kind != Failure && handled)])
  {
    hide RowOutcome;
  }

  lemma CloseAlone(s: System, p: nat, now: int)
    requires p in s.running && s.running[p].Closing?
    ensures var pc, s' := s.running[p], Apply(s, CloseRow(p, now, true));
      s' == s.(rows := CloseIn(s.rows, pc.id, pc.outcome, now),
               running := if pc.thenHandle then s.running[p := Opening(HandlerRow)] else s.running - {p})
  {
  }

  lemma RunThree(s: System, x: Step, y: Step, z: Step)
    ensures Run(s, [x, y, z]) == Apply(Apply(Apply(s, x), y), z)
  {
    hide Apply;
    var script := [x, y, z];
    assert script[1..] == [y, z] && [y, z][1..] == [z] && [z][1..] == [];
    assert Run(s, script) == Run(Apply(s, x), [y, z]);
    assert Run(Apply(s, x), [y, z]) == Run(Apply(Apply(s, x), y), [z]);
  }

  // An invocation that nothing interrupts leaves the table `RunCycle` leaves.
  lemma InvocationAlone(s: System, p: nat, ticket: string, target: Target, w: World) returns (steps: seq<Step>)
    requires s.phase.Up? && p !in s.rowsOf && w.booted
    requires w.id !in s.drawn && w.handlerId !in s.drawn && w.id != w.handlerId
    ensures Run(s, steps).rows == RowsAfter(s.rows, ticket, target, w)
    ensures p !in Run(s, steps).running
  {
    var begin := Apply(s, Begin(p, target));
    var first := RowScript(p, ticket, w.id, w.now, w.end, w.handled);
    RowAlone(begin, p, ticket, w.id, w.now, w.end, w.handled);
    steps := [Begin(p, target)] + first;
    assert steps[1..] == first;
    if target.Cycle? && w.end.Broke? && target.kind != Failure && w.handled {
      var failed := Run(begin, first);
      var second := RowScript(p, ticket, w.handlerId, w.now, w.handlerEnd, false);
      RowAlone(failed, p, ticket, w.handlerId, w.now, w.handlerEnd, false);
      RunAppend(begin, first, second);
      steps := [Begin(p, target)] + (first + second);
      assert steps[1..] == first + second;
    }
  }

  lemma {:induction false} RunAppend(s: System, xs: seq<Step>, ys: seq<Step>)
    ensures Run(s, xs + ys) == Run(Run(s, xs), ys)
    decreases |xs|
  {
    if xs == [] {
      assert xs + ys == ys;
    } else {
      hide Apply;
      assert (xs + ys)[1..] == xs[1..] + ys;
      RunAppend(Apply(s, xs[0]), xs[1..], ys);
    }
  }

  // ---- who closes a row ----------------------------------------------------------

  // A row is only ever closed by its own invocation, with the outcome its ending
  // stands for, or by recovery, as failed.
  lemma WhoCloses(s: System, step: Step, id: CycleId)
    requires IsOpen(s.rows, id) && !IsOpen(Apply(s, step).rows, id)
    ensures var row := Apply(s, step).rows[id];
      && id in Apply(s, step).rows && (step.Recover? || step.CloseRow?) && step.ok
      && row == s.rows[id].(outcome := row.outcome, endedAt := Some(step.now))
      && (step.Recover? ==> s.phase.Recovering? && id == step.id && row.outcome == Some(Failed))
      && (step.CloseRow? ==> step.p in s.running && s.running[step.p].Closing? && id == s.running[step.p].id
                             && row.outcome == Some(s.running[step.p].outcome))
  {
  }

  // What an invocation will write is settled when its cycle returns: a delete fails
  // or succeeds, a cycle stands for its ending, and a handler follows a broken cycle
  // that is no failure cycle itself.
  lemma ReturnSettles(s: System, p: nat, end: End, handled: bool)
    requires p in s.running && s.running[p].Working?
    ensures var was, pc := s.running[p], Apply(s, Return(p, end, handled)).running[p];
      && pc.Closing? && pc.what == was.what && pc.id == was.id
      && (was.what == ShorthandRow ==> pc.outcome == if end == Broke then Failed else Success)
      && (was.what != ShorthandRow ==> Stands(end, Some(pc.outcome)))
      && (pc.thenHandle <==> end == Broke && handled && exists kind :: was.what == MainRow(kind) && kind != Failure)
  {
  }

  // Progress is noted in the row of the running cycle, and touches nothing else; an
  // immediate delete notes none.
  lemma ProgressSettles(s: System, p: nat, state: string, iter: nat)
    requires p in s.running && s.running[p].Working? && s.running[p].id in s.rows
    ensures var id := s.running[p].id; var s' := Apply(s, Progress(p, state, iter, true));
      && s' == s.(rows := s'.rows) && s'.rows.Keys == s.rows.Keys
      && s'.rows == if s.running[p].what == ShorthandRow then s.rows else s.rows[id := s.rows[id].(currentState := Some(state), iter := iter)]
  {
  }

  // Recovery that nothing interrupts leaves the table `RecoverInflightCycles` leaves.
  lemma {:induction false} RecoveryAlone(s: System, ids: seq<CycleId>, now: int) returns (steps: seq<Step>)
    requires s.phase.Recovering? && (forall id :: id in ids <==> id in s.phase.rest) && Distinct(ids)
    ensures var s' := Run(s, steps);
      && s'.phase == Up && s'.rows.Keys == s.rows.Keys
      && forall id <- s.rows :: s'.rows[id] ==
           if id in s.phase.rest && IsOpen(s.rows, id) then s.rows[id].(outcome := Some(Failed), endedAt := Some(now)) else s.rows[id]
    decreases |ids|
  {
    if ids == [] {
      steps := [Ready];
      assert s.phase.rest == {} && [Ready][1..] == [];
      assert Run(s, steps) == Run(Apply(s, Ready), []);
    } else {
      var next := Apply(s, Recover(ids[0], now, true));
      assert forall id :: id in ids <==> id == ids[0] || id in ids[1..];
      var rest := RecoveryAlone(next, ids[1..], now);
      steps := [Recover(ids[0], now, true)] + rest;
      assert steps[1..] == rest;
    }
  }
}
