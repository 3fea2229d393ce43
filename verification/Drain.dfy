// The one-shot `roki events` command: page through the ring until nothing is
// left. Also the ticket detail, which reads a single page.
module Drain {
  import opened Common
  import opened Ring

  // `--since` is a number or a time; the other filters are applied by the server.
  datatype Filter = Filter(sinceSeq: Option<nat>, sinceTs: Option<int>, kind: Option<string>, ticket: Option<string>, cycle: Option<nat>)

  datatype Line = GapMarker(since: nat) | Row(event: Event)

  function Request(f: Filter, since: nat, limit: nat): Query {
    Query(Some(since), f.kind, f.ticket, f.cycle, limit)
  }

  predicate AcceptAfterSeqCursor(f: Filter, e: Event) {
    f.sinceTs.Some? ==> e.ts >= f.sinceTs.value
  }

  function Rows(f: Filter, events: seq<Event>): seq<Line> {
    if events == [] then []
    else
      var e := events[|events| - 1];
      Rows(f, events[..|events| - 1]) + if AcceptAfterSeqCursor(f, e) then [Row(e)] else []
  }

  function Start(f: Filter): nat {
    f.sinceSeq.GetOr(0)
  }

  // What is printed from a cursor on, said without paging.
  function Printed(f: Filter, buf: seq<Event>, since: nat): seq<Line> {
    (if GapAt(buf, Some(since)) then [GapMarker(since)] else []) + Rows(f, Matching(buf, Request(f, since, 0)))
  }

  lemma {:induction false} RowsAppend(f: Filter, a: seq<Event>, b: seq<Event>)
    ensures Rows(f, a + b) == Rows(f, a) + Rows(f, b)
  {
    if b == [] {
      assert a + b == a;
    } else {
      assert (a + b)[..|a + b| - 1] == a + b[..|b| - 1];
      RowsAppend(f, a, b[..|b| - 1]);
    }
  }

  // Moving the cursor to the n-th match drops exactly the first n matches.
  lemma {:induction false} MatchingFrom(s: seq<Event>, q: Query, n: nat, q': Query)
    requires Ascending(s) && 0 < n <= |Matching(s, q)|
    requires q' == q.(since := Some(Matching(s, q)[n - 1].seqNo), limit := q'.limit)
    ensures Matching(s, q') == Matching(s, q)[n..]
    ensures q'.since.value > q.since.GetOr(0)
  {
    var rest, e := s[..|s| - 1], s[|s| - 1];
    var m := Matching(rest, q);
    MatchingAscending(s, q);
    MatchingIs(s, q, Matching(s, q)[n - 1]);
    if n <= |m| {
      MatchingFrom(rest, q, n, q');
      assert m[n - 1] in m;
      MatchingIs(rest, q, m[n - 1]);
      assert Matching(s, q)[n..] == m[n..] + if Matches(q, e) then [e] else [];
    } else {
      assert Matching(s, q) == m + [e] && q'.since == Some(e.seqNo);
      forall x | x in s ensures !Matches(q', x) { }
      if Matching(s, q') != [] {
        MatchingIs(s, q', Matching(s, q')[0]);
      }
    }
  }

  lemma LimitIsNoFilter(s: seq<Event>, q: Query, limit: nat)
    ensures Matching(s, q.(limit := limit)) == Matching(s, q)
  {
  }

  // One page and the rest of the drain print what the whole drain prints.
  lemma PageThenRest(f: Filter, buf: seq<Event>, since: nat, limit: nat)
    requires Ascending(buf)
    ensures var p := PageOf(buf, Request(f, since, limit));
      var head := (if p.gap then [GapMarker(since)] else []) + Rows(f, p.events);
      if p.events == [] then p.nextSince.None? && Printed(f, buf, since) == head
      else
        && p.nextSince.Some? && p.nextSince.value > since
        && (exists e <- buf :: e.seqNo == p.nextSince.value)
        && Printed(f, buf, since) == head + Printed(f, buf, p.nextSince.value)
  {
    var q := Request(f, since, limit);
    var p, all := PageOf(buf, q), Matching(buf, q);
    LimitIsNoFilter(buf, q, 0);
    assert q.(limit := 0) == Request(f, since, 0);
    var marker := if p.gap then [GapMarker(since)] else [];
    assert Printed(f, buf, since) == marker + Rows(f, all);
    assert p.events == FirstN(all, PageLimit(limit)) && p.nextSince == LastSeq(p.events);
    hide PageOf, Matching, Rows, Ascending, Printed;
    var n := |p.events|;
    if n == 0 {
      assert all == [];
    } else {
      assert p.events == all[..n] && p.nextSince == Some(all[n - 1].seqNo);
      hide FirstN;
      CursorMoves(buf, q, n, Request(f, all[n - 1].seqNo, 0));
      RestPrints(f, buf, q, n);
      var rest := Printed(f, buf, all[n - 1].seqNo);
      assert marker + (Rows(f, p.events) + rest) == (marker + Rows(f, p.events)) + rest;
    }
  }

  lemma RestPrints(f: Filter, buf: seq<Event>, q: Query, n: nat)
    requires Ascending(buf) && 0 < n <= |Matching(buf, q)| && q == Request(f, q.since.GetOr(0), q.limit)
    ensures var all := Matching(buf, q);
      Rows(f, all) == Rows(f, all[..n]) + Printed(f, buf, all[n - 1].seqNo)
  {
    hide Matching, Rows, Ascending, Matches, Printed, GapAt;
    var all := Matching(buf, q);
    var next := Request(f, all[n - 1].seqNo, 0);
    CursorMoves(buf, q, n, next);
    RowsAppend(f, all[..n], all[n..]);
    NoGapPrinted(f, buf, all[n - 1].seqNo);
    assert all == all[..n] + all[n..];
  }

  lemma NoGapPrinted(f: Filter, buf: seq<Event>, since: nat)
    requires !GapAt(buf, Some(since))
    ensures Printed(f, buf, since) == Rows(f, Matching(buf, Request(f, since, 0)))
  {
  }

  lemma CursorMoves(buf: seq<Event>, q: Query, n: nat, q': Query)
    requires Ascending(buf) && 0 < n <= |Matching(buf, q)|
    requires q' == q.(since := Some(Matching(buf, q)[n - 1].seqNo), limit := q'.limit)
    ensures Matching(buf, q') == Matching(buf, q)[n..]
    ensures q'.since.value > q.since.GetOr(0)
    ensures (exists e <- buf :: e.seqNo == q'.since.value) && !GapAt(buf, q'.since)
  {
    var e := Matching(buf, q)[n - 1];
    assert e in Matching(buf, q);
    MatchingIs(buf, q, e);
    MatchingFrom(buf, q, n, q');
    hide Matching;
    assert buf[0].seqNo <= e.seqNo;
  }

  lemma BufferAscends(ring: EventRing)
    requires ring.Valid()
    ensures Ascending(ring.buf) && forall e <- ring.buf :: e.seqNo <= |ring.history|
  {
  }

  // The same with what was printed before the page.
  lemma Regroup(before: seq<Line>, marker: seq<Line>, rows: seq<Line>, rest: seq<Line>)
    ensures before + ((marker + rows) + rest) == ((before + marker) + rows) + rest
    ensures before + (marker + rows) == (before + marker) + rows
    ensures before + [] == before
  {
  }

  lemma PageAdds(f: Filter, buf: seq<Event>, since: nat, limit: nat, before: seq<Line>)
    requires Ascending(buf)
    ensures var p := PageOf(buf, Request(f, since, limit));
      var whole, lines := before + Printed(f, buf, since), (if p.gap then before + [GapMarker(since)] else before) + Rows(f, p.events);
      if p.nextSince.None? then lines == whole
      else
        && p.nextSince.value > since
        && (exists e <- buf :: e.seqNo == p.nextSince.value)
        && lines + Printed(f, buf, p.nextSince.value) == whole
  {
    PageThenRest(f, buf, since, limit);
    var p := PageOf(buf, Request(f, since, limit));
    hide PageOf, Printed, Rows, Ascending;
    if p.nextSince.Some? {
      Regroup(before, if p.gap then [GapMarker(since)] else [], Rows(f, p.events), Printed(f, buf, p.nextSince.value));
    }
  }

  method PrintRows(f: Filter, events: seq<Event>) returns (lines: seq<Line>)
    ensures lines == Rows(f, events)
  {
    lines := [];
    var i := 0;
    while i < |events|
      invariant i <= |events| && lines == Rows(f, events[..i])
    {
      assert events[..i + 1][..i] == events[..i];
      if AcceptAfterSeqCursor(f, events[i]) { lines := lines + [Row(events[i])]; }
      i := i + 1;
    }
    assert events[..i] == events;
  }

  // The loop terminates for every filter and page size, and prints the marker at
  // most once, then every matching event still in the ring, in order, once.
  method RunOnline(f: Filter, ring: EventRing, limit: nat) returns (lines: seq<Line>)
    requires ring.Valid()
    ensures lines == Printed(f, ring.buf, Start(f))
  {
    var since := Start(f);
    lines := [];
    BufferAscends(ring);
    hide Printed, PageOf, Ascending, Rows, EventRing.Valid;
    while true
      invariant lines + Printed(f, ring.buf, since) == Printed(f, ring.buf, Start(f))
      decreases |ring.history| - since
    {
      var page := ring.Page(Request(f, since, limit));
      PageAdds(f, ring.buf, since, limit, lines);
      if page.gap { lines := lines + [GapMarker(since)]; }
      var rows := PrintRows(f, page.events);
      lines := lines + rows;
      if page.nextSince.None? { break; }
      since := page.nextSince.value;
    }
  }

  lemma {:induction false} RowsAre(f: Filter, events: seq<Event>, e: Event)
    ensures Row(e) in Rows(f, events) <==> e in events && AcceptAfterSeqCursor(f, e)
  {
    if events == [] {
    } else {
      RowsAre(f, events[..|events| - 1], e);
      assert events == events[..|events| - 1] + [events[|events| - 1]];
    }
  }

  lemma {:induction false} RowsOnly(f: Filter, events: seq<Event>)
    ensures forall l <- Rows(f, events) :: l.Row?
  {
    if events == [] {
    } else {
      RowsOnly(f, events[..|events| - 1]);
    }
  }

  // Nothing is missing and nothing is extra: the printed events are those still in
  // the ring, above the cursor, of the kind, the ticket and the cycle asked for, and
  // not before the time asked for. The marker comes first, and only where the ring
  // has lost something after the cursor.
  lemma PrintedAre(f: Filter, buf: seq<Event>, e: Event)
    ensures Row(e) in Printed(f, buf, Start(f))
            <==> (e in buf && e.seqNo > (if f.sinceSeq == None then 0 else f.sinceSeq.value)
                  && (f.kind == None || f.kind.value == e.kind)
                  && (f.ticket == None || e.ticket == Some(f.ticket.value))
                  && (f.cycle == None || e.cycle == Some(f.cycle.value))
                  && (f.sinceTs == None || f.sinceTs.value <= e.ts))
    ensures var lines, since := Printed(f, buf, Start(f)), if f.sinceSeq == None then 0 else f.sinceSeq.value;
      && (lines != [] && lines[0] == GapMarker(since) <==> buf == [] || since + 1 < buf[0].seqNo)
      && forall i | 0 < i < |lines| :: lines[i].Row?
  {
    RowsOnly(f, Matching(buf, Request(f, Start(f), 0)));
    var rows := Rows(f, Matching(buf, Request(f, Start(f), 0)));
    assert forall i | 0 <= i < |rows| :: rows[i] in rows;
    var q := Request(f, Start(f), 0);
    RowsAre(f, Matching(buf, q), e);
    MatchingIs(buf, q, e);
  }

  // ---- the ticket detail -------------------------------------------------------

  function Detail(buf: seq<Event>, ticket: string, window: nat): (seq<Event>, bool) {
    var recent := PageOf(buf, Query(None, None, Some(ticket), None, window + 1)).events;
    (FirstN(recent, window), |recent| > window)
  }

  lemma OldestOrNewest(all: seq<Event>, n: nat)
    requires Ascending(all) && n > 0
    ensures FirstN(all, n) == LastN(all, n) <==> |all| <= n
  {
    if |all| > n {
      assert FirstN(all, n)[0] == all[0] && LastN(all, n)[0] == all[|all| - n];
    }
  }

  lemma FirstNTwice(all: seq<Event>, n: nat)
    ensures FirstN(FirstN(all, n + 1), n) == FirstN(all, n)
    ensures |FirstN(all, n + 1)| > n <==> |all| > n
  {
  }

  // It is documented as the most recent events of the ticket; it is the oldest
  // ones, and the two agree exactly when the ring holds at most `window` of them,
  // which is when nothing is reported truncated.
  lemma DetailIsOldest(buf: seq<Event>, ticket: string, window: nat)
    requires Ascending(buf)
    ensures var all := Matching(buf, Query(None, None, Some(ticket), None, 0));
      && Detail(buf, ticket, window) == (FirstN(all, window), |all| > window)
      && (window > 0 ==> (Detail(buf, ticket, window).0 == LastN(all, window) <==> |all| <= window))
  {
    var q := Query(None, None, Some(ticket), None, 0);
    LimitIsNoFilter(buf, q, window + 1);
    MatchingAscending(buf, q);
    FirstNTwice(Matching(buf, q), window);
    hide Ascending, Matching, FirstN, LastN;
    if window > 0 { OldestOrNewest(Matching(buf, q), window); }
  }
}
