// The `cycles` table and the runner that opens and closes its rows.
module CycleRows {
  import opened Common

  type CycleId = string

  datatype Kind = Rule | Cleanup | Failure

  datatype Outcome = Success | Failed | NoAction | Cancelled

  datatype Row = Row(
    ticket: string,
    kind: Kind,
    entryName: string,
    startedAt: int,
    endedAt: Option<int>,
    outcome: Option<Outcome>,
    currentState: Option<string>,
    iter: nat
  )

  type Table = map<CycleId, Row>

  datatype StoreError = NotFound | Duplicate

  datatype Result<+T> = Ok(value: T) | Err(error: StoreError)

  // ---- the table operations ----------------------------------------------------

  function NewRow(ticket: string, kind: Kind, entryName: string, now: int): Row {
    Row(ticket, kind, entryName, now, None, None, None, 0)
  }

  predicate IsOpen(rows: Table, id: CycleId) {
    id in rows && rows[id].endedAt.None?
  }

  ghost function OpenIds(rows: Table): set<CycleId> {
    set id | id in rows && IsOpen(rows, id)
  }

  function Closed(row: Row, outcome: Outcome, now: int): Row {
    row.(outcome := Some(outcome), endedAt := Some(now))
  }

  // The update is guarded by `ended_at IS NULL`.
  function CloseIn(rows: Table, id: CycleId, outcome: Outcome, now: int): Table {
    if IsOpen(rows, id) then rows[id := Closed(rows[id], outcome, now)] else rows
  }

  function StateIn(rows: Table, id: CycleId, state: string, iter: nat): Table {
    if id in rows then rows[id := rows[id].(currentState := Some(state), iter := iter)] else rows
  }

  // A row has an outcome exactly when it has ended.
  predicate RowsOk(rows: Table) {
    forall id <- rows :: rows[id].endedAt.Some? <==> rows[id].outcome.Some?
  }

  predicate Listed(rows: Table, ids: seq<CycleId>) {
    forall id <- ids :: id in rows
  }

  predicate OldestFirst(rows: Table, ids: seq<CycleId>)
    requires Listed(rows, ids)
  {
    forall i, j | 0 <= i < j < |ids| :: rows[ids[i]].startedAt <= rows[ids[j]].startedAt
  }

  // Open rows in the order the recovery walks them.
  predicate InOrder(rows: Table, ids: seq<CycleId>) {
    Listed(rows, ids) && OldestFirst(rows, ids) && Distinct(ids)
  }

  // Where a row goes in a list ordered by start time.
  function Place(rows: Table, ids: seq<CycleId>, id: CycleId): seq<CycleId>
    requires Listed(rows, ids) && id in rows
  {
    if ids == [] then [id]
    else if rows[id].startedAt < rows[ids[0]].startedAt then [id] + ids
    else [ids[0]] + Place(rows, ids[1..], id)
  }

  lemma {:induction false} Placed(rows: Table, ids: seq<CycleId>, id: CycleId)
    requires InOrder(rows, ids) && id in rows && id !in ids
    ensures forall x :: x in Place(rows, ids, id) <==> x in ids || x == id
    ensures InOrder(rows, Place(rows, ids, id))
  {
    if ids == [] {
    } else if rows[id].startedAt < rows[ids[0]].startedAt {
      InFront(rows, id, ids);
    } else {
      Placed(rows, ids[1..], id);
      InFront(rows, ids[0], Place(rows, ids[1..], id));
    }
  }

  lemma InFront(rows: Table, id: CycleId, rest: seq<CycleId>)
    requires InOrder(rows, rest) && id in rows && id !in rest
    requires forall x <- rest :: rows[id].startedAt <= rows[x].startedAt
    ensures InOrder(rows, [id] + rest)
  {
  }

  class Store {
    var rows: Table

    constructor (rows: Table)
      ensures this.rows == rows
    {
      this.rows := rows;
    }

    method OpenCycle(id: CycleId, ticket: string, kind: Kind, entryName: string, now: int) returns (r: Result<Row>)
      modifies this
      ensures r.Ok? <==> id !in old(rows)
      ensures r.Ok? ==> rows == old(rows)[id := NewRow(ticket, kind, entryName, now)] && r.value == rows[id]
      ensures r.Err? ==> r.error == Duplicate && rows == old(rows)
    {
      if id in rows { return Err(Duplicate); }
      rows := rows[id := NewRow(ticket, kind, entryName, now)];
      return Ok(rows[id]);
    }

    method CloseCycle(id: CycleId, outcome: Outcome, now: int) returns (r: Result<()>)
      modifies this
      ensures r == if id in old(rows) && old(rows)[id].endedAt == None then Ok(()) else Err(NotFound)
      ensures rows == CloseIn(old(rows), id, outcome, now)
    {
      if id !in rows || rows[id].endedAt.Some? { return Err(NotFound); }
      rows := rows[id := rows[id].(outcome := Some(outcome), endedAt := Some(now))];
      return Ok(());
    }

    method ListInflight() returns (ids: seq<CycleId>)
      ensures forall id :: id in ids <==> id in OpenIds(rows)
      ensures InOrder(rows, ids)
    {
      ids := [];
      var rest := rows.Keys;
      while rest != {}
        invariant rest <= rows.Keys
        invariant forall id :: id in ids <==> id in OpenIds(rows) && id !in rest
        invariant InOrder(rows, ids)
        decreases rest
      {
        var id :| id in rest;
        if rows[id].endedAt.None? {
          Placed(rows, ids, id);
          ids := Place(rows, ids, id);
        }
        rest := rest - {id};
      }
    }
  }

  // ---- the runner --------------------------------------------------------------

  datatype Target = Shorthand | Cycle(kind: Kind)

  // How a driver run ended: at a terminal with its outcome name, or not.
  datatype End = Reached(outcome: string) | Broke

  datatype CycleResult = Completed(kind: Kind) | FailedCycle(kind: Kind) | ShorthandDeleted | CleanupFsError

  function OutcomeForTerminal(name: string): Outcome {
    if name == "no_action" then NoAction else if name == "cancelled" then Cancelled else Success
  }

  function OutcomeOf(end: End): Outcome {
    match end
    case Reached(name) => OutcomeForTerminal(name)
    case Broke => Failed
  }

  // Everything the runner takes from outside: whether the event writer opened,
  // the two fresh ids, the clock, how the cycle and a handler cycle end, and
  // whether some `on_failure` entry matches.
  datatype World = World(booted: bool, id: CycleId, handlerId: CycleId, now: int, end: End, handled: bool, handlerEnd: End)

  function Settled(rows: Table, id: CycleId, ticket: string, kind: Kind, entryName: string, now: int, outcome: Outcome): Table {
    rows[id := Closed(NewRow(ticket, kind, entryName, now), outcome, now)]
  }

  // The rows after one invocation: none, one, or one and its failure handler's,
  // and whatever was opened is closed.
  function RowsAfter(rows: Table, ticket: string, target: Target, w: World): Table {
    if !w.booted then rows
    else match target
      case Shorthand => Settled(rows, w.id, ticket, Cleanup, "cleanup-shorthand", w.now, if w.end.Broke? then Failed else Success)
      case Cycle(kind) =>
        var first := Settled(rows, w.id, ticket, kind, "rule", w.now, OutcomeOf(w.end));
        if w.end.Broke? && kind != Failure && w.handled then
          Settled(first, w.handlerId, ticket, Failure, "failure-handler", w.now, OutcomeOf(w.handlerEnd))
        else first
  }

  function ResultOf(target: Target, w: World): CycleResult {
    if !w.booted then FailedCycle(Rule)
    else match target
      case Shorthand => if w.end.Broke? then CleanupFsError else ShorthandDeleted
      case Cycle(kind) =>
        if w.end.Reached? then Completed(kind)
        else if kind != Failure && w.handled && w.handlerEnd.Reached? then Completed(Failure)
        else FailedCycle(kind)
  }

  class RealCycleRunner {
    const store: Store

    constructor (store: Store)
      ensures this.store == store
    {
      this.store := store;
    }

    // The id the task has put into the cache takes no part: the row gets a fresh one.
    method RunCycle(ticket: string, target: Target, cycleId: CycleId, w: World) returns (r: CycleResult)
      requires w.id !in store.rows && w.handlerId !in store.rows && w.id != w.handlerId
      modifies store
      ensures store.rows == RowsAfter(old(store.rows), ticket, target, w)
      ensures r == ResultOf(target, w)
    {
      if !w.booted { return FailedCycle(Rule); }
      if target.Shorthand? {
        var _ := store.OpenCycle(w.id, ticket, Cleanup, "cleanup-shorthand", w.now);
        if w.end.Broke? {
          var _ := store.CloseCycle(w.id, Failed, w.now);
          return CleanupFsError;
        }
        var _ := store.CloseCycle(w.id, Success, w.now);
        return ShorthandDeleted;
      }
      var kind := target.kind;
      var _ := store.OpenCycle(w.id, ticket, kind, "rule", w.now);
      match w.end {
        case Reached(name) =>
          var _ := store.CloseCycle(w.id, OutcomeForTerminal(name), w.now);
          return Completed(kind);
        case Broke =>
          var _ := store.CloseCycle(w.id, Failed, w.now);
          var succeeded := HandleFailedCycle(ticket, kind, w);
          return if succeeded then Completed(Failure) else FailedCycle(kind);
      }
    }

    // One level deep: a failed failure cycle is not handled again.
    method HandleFailedCycle(ticket: string, failedKind: Kind, w: World) returns (succeeded: bool)
      requires w.handlerId !in store.rows
      modifies store
      ensures succeeded <==> failedKind != Failure && w.handled && w.handlerEnd.Reached?
      ensures store.rows ==
        if failedKind != Failure && w.handled then
          Settled(old(store.rows), w.handlerId, ticket, Failure, "failure-handler", w.now, OutcomeOf(w.handlerEnd))
        else old(store.rows)
    {
      if failedKind == Failure { return false; }
      if !w.handled { return false; }
      var _ := store.OpenCycle(w.handlerId, ticket, Failure, "failure-handler", w.now);
      match w.handlerEnd {
        case Reached(name) =>
          var _ := store.CloseCycle(w.handlerId, OutcomeForTerminal(name), w.now);
          return true;
        case Broke =>
          var _ := store.CloseCycle(w.handlerId, Failed, w.now);
          return false;
      }
    }
  }

  // An invocation leaves the open rows as it found them, adds at most its two
  // rows, and its answer agrees with the row it wrote last.
  lemma NothingLeftOpen(rows: Table, ticket: string, target: Target, w: World)
    requires w.id !in rows && w.handlerId !in rows && w.id != w.handlerId
    ensures var after := RowsAfter(rows, ticket, target, w);
      && OpenIds(after) == OpenIds(rows)
      && rows.Keys <= after.Keys <= rows.Keys + {w.id, w.handlerId}
      && (forall id <- rows :: after[id] == rows[id])
      && (RowsOk(rows) ==> RowsOk(after))
    ensures w.booted ==>
      var after := RowsAfter(rows, ticket, target, w);
      var last := if w.handlerId in after then w.handlerId else w.id;
      last in after && (after[last].outcome == Some(Failed) <==> ResultOf(target, w).FailedCycle? || ResultOf(target, w).CleanupFsError?)
  {
  }

  // What the rows of an invocation say, and what it answers. The cycle's row bears
  // the target's kind; its outcome is the one its ending stands for, and only
  // `no_action` and `cancelled` stand for something of their own. A broken cycle that
  // is not a failure cycle gets a handler's row where a handler matches.
  lemma InvocationWrites(rows: Table, ticket: string, target: Target, w: World)
    requires w.id !in rows && w.handlerId !in rows && w.id != w.handlerId
    ensures !w.booted ==> RowsAfter(rows, ticket, target, w) == rows && ResultOf(target, w) == FailedCycle(Rule)
    ensures w.booted ==>
      var after := RowsAfter(rows, ticket, target, w); var row, r := if w.id in after then after[w.id] else NewRow("", Rule, "", 0), ResultOf(target, w);
      && w.id in after
      && row.ticket == ticket && row.startedAt == w.now && row.endedAt == Some(w.now) && row.currentState == None && row.iter == 0
      && (target.Shorthand? ==>
        && row.kind == Cleanup && row.entryName == "cleanup-shorthand" && w.handlerId !in after
        && (if w.end.Broke? then row.outcome == Some(Failed) && r == CleanupFsError else row.outcome == Some(Success) && r == ShorthandDeleted))
      && (target.Cycle? ==>
        && row.kind == target.kind && row.entryName == "rule" && Stands(w.end, row.outcome)
        && (w.handlerId in after <==> w.end == Broke && target.kind != Failure && w.handled)
        && (w.end != Broke ==> r == Completed(target.kind))
        && (w.end == Broke && w.handlerId !in after ==> r == FailedCycle(target.kind))
        && (w.handlerId in after ==>
          && after[w.handlerId].ticket == ticket && after[w.handlerId].kind == Failure && after[w.handlerId].entryName == "failure-handler"
          && after[w.handlerId].startedAt == w.now && after[w.handlerId].endedAt == Some(w.now)
          && Stands(w.handlerEnd, after[w.handlerId].outcome)
          && r == if w.handlerEnd == Broke then FailedCycle(target.kind) else Completed(Failure)))
  {
  }

  // The recorded outcome an ending stands for.
  predicate Stands(end: End, outcome: Option<Outcome>) {
    && (outcome == Some(Failed) <==> end == Broke)
    && (outcome == Some(NoAction) <==> end == Reached("no_action"))
    && (outcome == Some(Cancelled) <==> end == Reached("cancelled"))
    && outcome != None
  }

  // ---- recovery ----------------------------------------------------------------

  lemma LaterLast(rows: Table, ids: seq<CycleId>, i: nat, some: seq<CycleId>)
    requires InOrder(rows, ids) && i < |ids| && InOrder(rows, some) && forall x <- some :: x in ids[..i]
    ensures InOrder(rows, some + [ids[i]])
  {
    forall k | 0 <= k < |some| ensures some[k] != ids[i] && rows[some[k]].startedAt <= rows[ids[i]].startedAt {
      assert some[k] in some;
      var j :| 0 <= j < i && ids[j] == some[k];
    }
  }

  // The table once the rows in `done` have been recovered.
  ghost predicate Recovered(before: Table, done: seq<CycleId>, now: int, rows: Table) {
    rows.Keys == before.Keys && forall id <- before :: rows[id] == if id in done then Closed(before[id], Failed, now) else before[id]
  }

  lemma RecoveredNext(before: Table, ids: seq<CycleId>, i: nat, now: int, rows: Table)
    requires i < |ids| && InOrder(before, ids) && Recovered(before, ids[..i], now, rows)
    requires forall id <- ids :: IsOpen(before, id)
    ensures IsOpen(rows, ids[i])
    ensures Recovered(before, ids[..i + 1], now, rows[ids[i] := Closed(rows[ids[i]], Failed, now)])
  {
    hide Closed;
    assert ids[i] in ids && ids[i] !in ids[..i];
    assert ids[..i + 1] == ids[..i] + [ids[i]];
  }

  // The ids of the rows among `done` that are UUIDs.
  ghost predicate Reported(done: seq<CycleId>, isUuid: CycleId -> bool, recovered: seq<CycleId>) {
    forall id :: id in recovered <==> id in done && isUuid(id)
  }

  lemma ReportedNext(before: Table, ids: seq<CycleId>, i: nat, isUuid: CycleId -> bool, recovered: seq<CycleId>)
    requires i < |ids| && InOrder(before, ids) && Reported(ids[..i], isUuid, recovered) && InOrder(before, recovered)
    ensures var next := if isUuid(ids[i]) then recovered + [ids[i]] else recovered;
      Reported(ids[..i + 1], isUuid, next) && InOrder(before, next)
  {
    if isUuid(ids[i]) { LaterLast(before, ids, i, recovered); }
    hide InOrder;
    assert ids[..i + 1] == ids[..i] + [ids[i]];
  }

  // A legacy id that is no UUID is closed without an event.
  method RecoverInflightCycles(store: Store, isUuid: CycleId -> bool, now: int) returns (recovered: seq<CycleId>)
    modifies store
    ensures store.rows.Keys == old(store.rows).Keys
    ensures forall id <- store.rows ::
      store.rows[id] == if IsOpen(old(store.rows), id) then Closed(old(store.rows)[id], Failed, now) else old(store.rows)[id]
    ensures OpenIds(store.rows) == {}
    ensures forall id :: id in recovered <==> IsOpen(old(store.rows), id) && isUuid(id)
    ensures InOrder(old(store.rows), recovered)
  {
    var ids := store.ListInflight();
    ghost var before := store.rows;
    recovered := [];
    var i := 0;
    while i < |ids|
      invariant i <= |ids| && Recovered(before, ids[..i], now, store.rows)
      invariant Reported(ids[..i], isUuid, recovered) && InOrder(before, recovered)
    {
      hide InOrder, Reported, Recovered;
      RecoveredNext(before, ids, i, now, store.rows);
      ReportedNext(before, ids, i, isUuid, recovered);
      if isUuid(ids[i]) { recovered := recovered + [ids[i]]; }
      var _ := store.CloseCycle(ids[i], Failed, now);
      i := i + 1;
    }
    assert ids[..i] == ids;
  }
}
