// The dashboard's poller against a ring that is being written: any interleaving
// of recorded events and polls.
module Poller {
  import opened Common
  import opened Ring
  import opened EventsView

  // `history` is everything recorded and `delivered` everything received;
  // `lost` counts the events that were overwritten before the poll that moved
  // the cursor past them.
  datatype Session = Session(
    capacity: nat,
    history: seq<Event>,
    since: Option<nat>,
    delivered: seq<Event>,
    lost: nat,
    view: View
  )

  datatype Action =
    | Record(ts: int, kind: string, ticket: Option<string>, cycle: Option<nat>, payload: string)
    | Poll(limit: nat)

  function Fresh(capacity: nat): Session {
    Session(capacity, [], None, [], 0, BLANK)
  }

  function Buffer(s: Session): seq<Event> {
    LastN(s.history, s.capacity)
  }

  // An unfiltered request from the cursor.
  function PageFor(s: Session, limit: nat): EventsPage {
    PageOf(Buffer(s), Query(s.since, None, None, None, limit))
  }

  function Missed(s: Session, p: EventsPage): int {
    if p.events == [] then 0 else p.events[0].seqNo - 1 - s.since.GetOr(0)
  }

  // `since` becomes `next_since` or stays.
  function Advanced(s: Session, p: EventsPage): Session {
    s.(since := if p.nextSince.Some? then p.nextSince else s.since,
       delivered := s.delivered + p.events,
       lost := if Missed(s, p) >= 0 then s.lost + Missed(s, p) else s.lost,
       view := Merged(s.view, p))
  }

  function Polled(s: Session, limit: nat): Session {
    Advanced(s, PageFor(s, limit))
  }

  function After(s: Session, a: Action): Session {
    match a
    case Record(ts, kind, ticket, cycle, payload) =>
      s.(history := s.history + [Event(|s.history| + 1, ts, kind, ticket, cycle, payload)])
    case Poll(limit) => Polled(s, limit)
  }

  function Run(s: Session, actions: seq<Action>): Session
    decreases |actions|
  {
    if actions == [] then s else Run(After(s, actions[0]), actions[1..])
  }

  predicate Recorded(history: seq<Event>, events: seq<Event>) {
    forall i | 0 <= i < |events| :: 1 <= events[i].seqNo <= |history| && history[events[i].seqNo - 1] == events[i]
  }

  ghost predicate Good(s: Session) {
    && Numbered(s.history)
    && Ascending(s.delivered)
    && Recorded(s.history, s.delivered)
    && s.since == LastSeq(s.delivered)
    && |s.delivered| + s.lost == s.since.GetOr(0)
    && s.view.rows == LastN(s.delivered, MAX_ROWS)
    && s.view.lastSeq == s.since
    && (s.capacity == 0 ==> s.delivered == [])
  }

  // ---- one page ----------------------------------------------------------------

  // How many of the recorded events are out of reach: overwritten, or at or
  // before the cursor.
  function From(s: Session): nat {
    var held := |s.history| - |Buffer(s)|;
    if s.since.GetOr(0) > held then s.since.GetOr(0) else held
  }

  function Pending(s: Session): seq<Event> {
    if From(s) <= |s.history| then s.history[From(s)..] else []
  }

  lemma {:induction false} MatchingSuffix(b: seq<Event>, q: Query)
    requires forall i | 0 <= i < |b| :: b[i].seqNo == b[0].seqNo + i
    requires q.kind.None? && q.ticket.None? && q.cycle.None?
    ensures var skip := if b == [] || q.since.GetOr(0) < b[0].seqNo then 0 else q.since.GetOr(0) - b[0].seqNo + 1;
      Matching(b, q) == if skip <= |b| then b[skip..] else []
  {
    if b == [] {
    } else {
      var rest, e := b[..|b| - 1], b[|b| - 1];
      MatchingSuffix(rest, q);
      assert Matching(b, q) == Matching(rest, q) + if e.seqNo > q.since.GetOr(0) then [e] else [];
      hide Matching;
    }
  }

  lemma BufferIsSuffix(history: seq<Event>, n: nat)
    requires Numbered(history)
    ensures var b := LastN(history, n); var held := |history| - |b|;
      b == history[held..] && forall i | 0 <= i < |b| :: b[i].seqNo == held + i + 1
  {
  }

  lemma PageIsPending(s: Session, limit: nat)
    requires Numbered(s.history)
    ensures PageFor(s, limit).events == FirstN(Pending(s), PageLimit(limit))
  {
    MatchingIsPending(s, Query(s.since, None, None, None, limit));
    hide Pending, Matching, FirstN, LastN;
  }

  lemma MatchingIsPending(s: Session, q: Query)
    requires Numbered(s.history) && q.since == s.since && q.kind.None? && q.ticket.None? && q.cycle.None?
    ensures Matching(Buffer(s), q) == Pending(s)
  {
    BufferIsSuffix(s.history, s.capacity);
    hide Matching, LastN, Numbered;
    MatchingHeld(s.history, |s.history| - |Buffer(s)|, q);
  }

  lemma MatchingHeld(history: seq<Event>, held: nat, q: Query)
    requires Numbered(history) && held <= |history| && q.kind.None? && q.ticket.None? && q.cycle.None?
    ensures var from := if q.since.GetOr(0) > held then q.since.GetOr(0) else held;
      Matching(history[held..], q) == if from <= |history| then history[from..] else []
  {
    var b, since := history[held..], q.since.GetOr(0);
    MatchingSuffix(b, q);
    hide Matching;
    if since > held && since <= |history| {
      assert b[since - held..] == history[since..];
    }
  }

  // What a poll delivers is the next stretch of the history, as recorded, and it
  // is empty only when nothing is out there.
  lemma PageIsStretch(s: Session, limit: nat)
    requires Numbered(s.history) && s.since.GetOr(0) <= |s.history|
    ensures var p, n := PageFor(s, limit), From(s);
      && n + |p.events| <= |s.history|
      && p.events == s.history[n..n + |p.events|]
      && (p.events == [] <==> n == |s.history|)
  {
    PageIsPending(s, limit);
    hide Numbered, LastN, PageFor;
    var p, n := PageFor(s, limit), From(s);
    assert p.events == s.history[n..][..|p.events|] == s.history[n..n + |p.events|];
  }

  lemma StretchKeeps(history: seq<Event>, delivered: seq<Event>, n: nat, m: nat)
    requires Numbered(history) && Ascending(delivered) && Recorded(history, delivered)
    requires LastSeq(delivered).GetOr(0) <= n <= m <= |history|
    ensures Ascending(delivered + history[n..m]) && Recorded(history, delivered + history[n..m])
    ensures LastSeq(delivered + history[n..m]) == if n == m then LastSeq(delivered) else Some(m)
  {
    if n == m {
      assert delivered + history[n..m] == delivered;
    } else {
      StretchRecorded(history, delivered, n, m);
      StretchAscends(history, delivered, n, m);
    }
  }

  lemma StretchRecorded(history: seq<Event>, delivered: seq<Event>, n: nat, m: nat)
    requires Numbered(history) && Recorded(history, delivered) && n < m <= |history|
    ensures Recorded(history, delivered + history[n..m])
  {
    var out := delivered + history[n..m];
    forall i | 0 <= i < |out| ensures 1 <= out[i].seqNo <= |history| && history[out[i].seqNo - 1] == out[i] {
      if i >= |delivered| { assert out[i] == history[n + i - |delivered|]; }
    }
  }

  lemma StretchAscends(history: seq<Event>, delivered: seq<Event>, n: nat, m: nat)
    requires Numbered(history) && Ascending(delivered) && LastSeq(delivered).GetOr(0) <= n < m <= |history|
    ensures Ascending(delivered + history[n..m])
  {
    var out, k := delivered + history[n..m], |delivered|;
    forall i | 0 <= i < |out| ensures if i < k then out[i] == delivered[i] && out[i].seqNo <= n else out[i].seqNo == n + i - k + 1 {
      if i >= k { assert out[i] == history[n + i - k]; }
    }
    hide Numbered;
  }

  lemma SinceInRange(s: Session)
    requires Good(s)
    ensures s.since.GetOr(0) <= |s.history|
  {
  }

  lemma {:induction false} MaxSeqIs(since: Option<nat>, events: seq<Event>, n: nat)
    requires since.GetOr(0) <= n && forall i | 0 <= i < |events| :: events[i].seqNo == n + i + 1
    ensures MaxSeq(since, events) == if events == [] then since else Some(n + |events|)
  {
    if events == [] {
    } else {
      MaxSeqIs(since, events[..|events| - 1], n);
    }
  }

  lemma StretchKeepsView(v: View, delivered: seq<Event>, p: EventsPage, n: nat)
    requires v.rows == LastN(delivered, MAX_ROWS) && v.lastSeq == LastSeq(delivered) && v.lastSeq.GetOr(0) <= n
    requires forall i | 0 <= i < |p.events| :: p.events[i].seqNo == n + i + 1
    ensures Merged(v, p).rows == LastN(delivered + p.events, MAX_ROWS)
    ensures Merged(v, p).lastSeq == LastSeq(delivered + p.events)
  {
    LastNAppend(delivered, p.events, MAX_ROWS);
    MaxSeqIs(v.lastSeq, p.events, n);
    hide LastN;
    if p.events == [] { assert delivered + p.events == delivered; }
  }

  lemma AdvanceKeeps(s: Session, p: EventsPage, n: nat)
    requires Good(s) && s.since.GetOr(0) <= n && n + |p.events| <= |s.history|
    requires p.events == s.history[n..n + |p.events|] && p.nextSince == LastSeq(p.events)
    requires s.capacity == 0 ==> p.events == []
    ensures Good(Advanced(s, p))
  {
    hide Ascending, Recorded, LastN, Merged, Numbered;
    StretchNumbered(s.history, n, p.events);
    StretchKeeps(s.history, s.delivered, n, n + |p.events|);
    StretchKeepsView(s.view, s.delivered, p, n);
    assert |s.delivered + p.events| == |s.delivered| + |p.events|;
  }

  lemma StretchNumbered(history: seq<Event>, n: nat, events: seq<Event>)
    requires Numbered(history) && n + |events| <= |history| && events == history[n..n + |events|]
    ensures forall i | 0 <= i < |events| :: events[i].seqNo == n + i + 1
  {
  }

  lemma PollKeeps(s: Session, limit: nat)
    requires Good(s)
    ensures Good(Polled(s, limit))
  {
    SinceInRange(s);
    PageIsStretch(s, limit);
    assert s.capacity == 0 ==> Buffer(s) == [];
    assert PageFor(s, limit).nextSince == LastSeq(PageFor(s, limit).events) && s.since.GetOr(0) <= From(s);
    hide PageFor, Good, Advanced;
    AdvanceKeeps(s, PageFor(s, limit), From(s));
  }

  lemma RecordKeeps(s: Session, a: Action)
    requires Good(s) && a.Record?
    ensures Good(After(s, a))
  {
  }

  lemma {:induction false} GoodRun(s: Session, actions: seq<Action>)
    requires Good(s)
    ensures Good(Run(s, actions))
    ensures Run(s, actions).capacity == s.capacity
    decreases |actions|
  {
    if actions == [] {
    } else {
      var a := actions[0];
      if a.Record? { RecordKeeps(s, a); } else { PollKeeps(s, a.limit); }
      hide Good, PageFor;
      GoodRun(After(s, a), actions[1..]);
    }
  }

  lemma Reached(capacity: nat, actions: seq<Action>)
    ensures Good(Run(Fresh(capacity), actions)) && Run(Fresh(capacity), actions).capacity == capacity
  {
    assert Good(Fresh(capacity));
    GoodRun(Fresh(capacity), actions);
  }

  // ---- the guarantees ----------------------------------------------------------

  // However records and polls interleave, every delivered event is one that was
  // recorded, none comes twice or out of order, the cursor is the last one, and
  // each event up to it was either delivered or counted as lost.
  lemma DeliveredOnceInOrder(capacity: nat, actions: seq<Action>)
    ensures var s := Run(Fresh(capacity), actions);
      && Ascending(s.delivered) && Recorded(s.history, s.delivered)
      && s.since == LastSeq(s.delivered)
      && |s.delivered| + s.lost == s.since.GetOr(0)
  {
    Reached(capacity, actions);
  }

  // An event the cursor has not reached and the ring no longer holds.
  predicate Overwritten(s: Session, e: Event) {
    e in s.history && e.seqNo > s.since.GetOr(0) && e !in Buffer(s)
  }

  // After the first delivery a page reports a gap exactly when an undelivered
  // event was overwritten; without a gap it starts right after the cursor, and
  // events are lost only in pages that report one.
  lemma GapMeansOverwritten(capacity: nat, actions: seq<Action>, limit: nat)
    ensures var s := Run(Fresh(capacity), actions); var p := PageFor(s, limit);
      && (p.gap <==> s.since.Some? && exists e :: Overwritten(s, e))
      && (s.since.Some? && p.events != [] && !p.gap ==> p.events[0].seqNo == s.since.value + 1)
      && (s.since.Some? ==> (Polled(s, limit).lost > s.lost <==> p.gap))
  {
    var s := Run(Fresh(capacity), actions);
    var p := PageFor(s, limit);
    Reached(capacity, actions);
    hide Run;
    SinceInRange(s);
    PageIsStretch(s, limit);
    GapIsHole(s);
    assert p.events != [] ==> p.events[0].seqNo == From(s) + 1;
  }

  lemma GapIsHole(s: Session)
    requires Good(s)
    ensures GapAt(Buffer(s), s.since) <==> s.since.Some? && s.since.value < |s.history| - |Buffer(s)|
    ensures (exists e :: Overwritten(s, e)) <==> s.since.GetOr(0) < |s.history| - |Buffer(s)|
  {
    var held, since := |s.history| - |Buffer(s)|, s.since.GetOr(0);
    SinceInRange(s);
    BufferIsSuffix(s.history, s.capacity);
    assert s.since.Some? ==> s.history != [];
    hide LastN, Ascending, Recorded, Numbered;
    if since < held {
      OldIsGone(s, since);
    } else {
      forall e ensures !Overwritten(s, e) { NewIsHeld(s, e); }
    }
  }

  lemma OldIsGone(s: Session, i: nat)
    requires Numbered(s.history) && s.since.GetOr(0) <= i < |s.history| - |Buffer(s)|
    ensures Overwritten(s, s.history[i])
  {
  }

  lemma NewIsHeld(s: Session, e: Event)
    requires Numbered(s.history) && s.since.GetOr(0) >= |s.history| - |Buffer(s)|
    ensures !Overwritten(s, e)
  {
  }

  // Exactly when a page hides an overwritten event: on the first delivery, after
  // the ring has wrapped. Such a loss is never reported.
  lemma GapMissedExactly(capacity: nat, actions: seq<Action>, limit: nat)
    ensures var s := Run(Fresh(capacity), actions);
      PageFor(s, limit).gap != (exists e :: Overwritten(s, e)) <==> (s.since.None? && |s.history| > capacity)
  {
    var s := Run(Fresh(capacity), actions);
    Reached(capacity, actions);
    hide Run;
    GapIsHole(s);
  }

  // The pane's rows are in strict order and end at its `last_seq`.
  lemma PaneInStep(capacity: nat, actions: seq<Action>)
    ensures var v := Run(Fresh(capacity), actions).view;
      Ascending(v.rows) && v.lastSeq == LastSeq(v.rows)
  {
    var s := Run(Fresh(capacity), actions);
    Reached(capacity, actions);
    hide Run, Numbered, Recorded;
    assert Ascending(LastN(s.delivered, MAX_ROWS));
  }

  // ---- a restarted daemon ------------------------------------------------------

  // The ring of a new boot numbers from one again, while the dashboard keeps its
  // cursor. A page holds nothing up to that cursor, and it reports a gap while the
  // new ring holds no event at all, or once it has wrapped beyond the cursor. In
  // between events are passed over without a gap.
  lemma RestartSkips(s: Session, history: seq<Event>, limit: nat)
    requires s.since.Some? && Numbered(history)
    ensures var p := PageFor(s.(history := history), limit);
      && (|history| <= s.since.value ==> p.events == [])
      && (forall e <- p.events :: e.seqNo > s.since.value)
      && (p.gap <==> |history| == 0 || s.capacity == 0 || s.since.value + s.capacity < |history|)
  {
    var t := s.(history := history);
    PageIsPending(t, limit);
    BufferIsSuffix(history, s.capacity);
    hide LastN, PageFor, Matching;
    forall e | e in FirstN(Pending(t), PageLimit(limit)) ensures e.seqNo > s.since.value {
      assert e in Pending(t);
    }
  }

  // The daemon is back with an empty ring; the dashboard has noticed nothing.
  function Restarted(s: Session, capacity: nat): Session {
    s.(capacity := capacity, history := [])
  }

  function Since(s: Session, t: Session): seq<Event> {
    if |s.delivered| <= |t.delivered| then t.delivered[|s.delivered|..] else []
  }

  // Of the boot's events those numbered up to the old cursor never arrive, and
  // each one from there to the new cursor was either delivered or counted as lost.
  ghost predicate Resumed(s: Session, t: Session) {
    var later, c := Since(s, t), s.since.GetOr(0);
    && s.delivered <= t.delivered
    && Numbered(t.history) && Ascending(later) && Recorded(t.history, later) && (forall e <- later :: e.seqNo > c)
    && t.since == (if later == [] then s.since else LastSeq(later))
    && |later| + t.lost == s.lost + t.since.GetOr(0) - c
  }

  lemma RecordResumed(s: Session, t: Session, a: Action)
    requires Resumed(s, t) && a.Record?
    ensures Resumed(s, After(t, a))
  {
  }

  // A cursor at or beyond the end of the later history is where a poll leaves it.
  lemma AheadPolls(t: Session, limit: nat)
    requires Numbered(t.history) && t.since.GetOr(0) >= |t.history|
    ensures var t' := Polled(t, limit);
      t'.history == t.history && t'.delivered == t.delivered && t'.since == t.since && t'.lost == t.lost
  {
    PageIsPending(t, limit);
    assert PageFor(t, limit).nextSince == LastSeq(PageFor(t, limit).events);
    hide PageFor;
    assert Pending(t) == [] && PageFor(t, limit).events == [];
    assert t.delivered + [] == t.delivered;
  }

  lemma StretchBeyond(history: seq<Event>, later: seq<Event>, c: nat, n: nat, events: seq<Event>)
    requires Numbered(history) && c <= n && n + |events| <= |history| && events == history[n..n + |events|]
    requires forall e <- later :: e.seqNo > c
    ensures forall e <- later + events :: e.seqNo > c
  {
    StretchNumbered(history, n, events);
    hide Numbered;
  }

  lemma SinceAppend(s: Session, t: Session, t': Session, events: seq<Event>)
    requires s.delivered <= t.delivered && t'.delivered == t.delivered + events
    ensures s.delivered <= t'.delivered && Since(s, t') == Since(s, t) + events
  {
  }

  lemma AdvanceResumed(s: Session, t: Session, p: EventsPage, n: nat)
    requires Resumed(s, t) && t.since.GetOr(0) <= n && n + |p.events| <= |t.history|
    requires p.events == t.history[n..n + |p.events|] && p.nextSince == LastSeq(p.events)
    ensures Resumed(s, Advanced(t, p))
  {
    hide Ascending, Recorded, Merged, Numbered, Since;
    var later, t', c := Since(s, t), Advanced(t, p), s.since.GetOr(0);
    assert t.since.GetOr(0) >= c;
    StretchBeyond(t.history, later, c, n, p.events);
    StretchKeeps(t.history, later, n, n + |p.events|);
    SinceAppend(s, t, t', p.events);
    assert p.events != [] ==> Missed(t, p) == n - t.since.GetOr(0) && t'.since == Some(n + |p.events|) by {
      StretchNumbered(t.history, n, p.events);
    }
    assert |later + p.events| == |later| + |p.events|;
  }

  lemma PollResumed(s: Session, t: Session, limit: nat)
    requires Resumed(s, t)
    ensures Resumed(s, Polled(t, limit))
  {
    hide Ascending, Recorded, Merged, Numbered, Since;
    if t.since.GetOr(0) >= |t.history| {
      AheadPolls(t, limit);
      hide PageFor, Polled;
      SinceAppend(s, t, Polled(t, limit), []);
      assert Since(s, t) + [] == Since(s, t);
    } else {
      PageIsStretch(t, limit);
      assert PageFor(t, limit).nextSince == LastSeq(PageFor(t, limit).events) && t.since.GetOr(0) <= From(t);
      hide PageFor, Resumed, Advanced;
      AdvanceResumed(s, t, PageFor(t, limit), From(t));
    }
  }

  lemma {:induction false} ResumedRun(s: Session, t: Session, actions: seq<Action>)
    requires Resumed(s, t)
    ensures Resumed(s, Run(t, actions))
    decreases |actions|
  {
    if actions == [] {
    } else {
      var a := actions[0];
      if a.Record? { RecordResumed(s, t, a); } else { PollResumed(s, t, a.limit); }
      hide Resumed, PageFor;
      ResumedRun(s, After(t, a), actions[1..]);
    }
  }

  // Whatever the dashboard had received, after a restart it receives, in order and
  // as recorded, events beyond its old cursor alone, and every one of these up to
  // its later cursor that is not counted as lost.
  lemma DeliveredAfterRestart(s: Session, capacity: nat, actions: seq<Action>)
    ensures var t := Run(Restarted(s, capacity), actions); var later, c := Since(s, t), s.since.GetOr(0);
      && t.delivered == s.delivered + later
      && Ascending(later) && Recorded(t.history, later) && (forall e <- later :: e.seqNo > c)
      && t.since == (if later == [] then s.since else LastSeq(later))
      && |later| + (t.lost - s.lost) == t.since.GetOr(0) - c
  {
    assert Resumed(s, Restarted(s, capacity));
    ResumedRun(s, Restarted(s, capacity), actions);
  }

  // ---- the loop body -----------------------------------------------------------

  class PollLoop {
    var lastSeq: Option<nat>

    constructor ()
      ensures lastSeq == None
    {
      lastSeq := None;
    }

    // One successful tick: a request from the cursor, merged into the pane.
    method Tick(ring: EventRing, pane: Pane, limit: nat, ghost s: Session)
      requires ring.Valid() && |pane.rows| <= MAX_ROWS
      requires s.capacity == ring.capacity && s.history == ring.history && s.since == lastSeq && s.view == pane.Value()
      modifies this, pane
      ensures |pane.rows| <= MAX_ROWS
      ensures var s' := Polled(s, limit); lastSeq == s'.since && pane.Value() == s'.view
    {
      var page := ring.Page(Query(lastSeq, None, None, None, limit));
      if page.nextSince.Some? { lastSeq := page.nextSince; }
      pane.MergePage(page);
    }
  }
}
