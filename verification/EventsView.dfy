// The terminal dashboard's event pane: the newest rows, the highest sequence
// number seen, and a gap banner.
module EventsView {
  import opened Common
  import opened Ring

  const MAX_ROWS := 1000

  datatype View = View(rows: seq<Event>, lastSeq: Option<nat>, gapPending: bool)

  const BLANK := View([], None, false)

  function Raise(last: Option<nat>, n: nat): Option<nat> {
    if last.Some? && last.value > n then last else Some(n)
  }

  function MaxSeq(last: Option<nat>, events: seq<Event>): Option<nat> {
    if events == [] then last else Raise(MaxSeq(last, events[..|events| - 1]), events[|events| - 1].seqNo)
  }

  function Merged(v: View, p: EventsPage): View {
    View(LastN(v.rows + p.events, MAX_ROWS),
         MaxSeq(v.lastSeq, p.events),
         p.gap || (v.gapPending && p.nextSince.None?))
  }

  lemma NoMore(rows: seq<Event>, last: Option<nat>)
    requires |rows| <= MAX_ROWS
    ensures LastN(rows + [], MAX_ROWS) == rows && MaxSeq(last, []) == last
  {
    assert rows + [] == rows;
  }

  lemma OneMore(rows: seq<Event>, events: seq<Event>, last: Option<nat>, i: nat)
    requires i < |events|
    ensures MaxSeq(last, events[..i + 1]) == Raise(MaxSeq(last, events[..i]), events[i].seqNo)
    ensures var r := LastN(rows + events[..i], MAX_ROWS) + [events[i]];
      LastN(rows + events[..i + 1], MAX_ROWS) == if |r| > MAX_ROWS then r[1..] else r
  {
    assert events[..i + 1][..i] == events[..i];
    assert rows + events[..i + 1] == (rows + events[..i]) + [events[i]];
  }

  class Pane {
    var rows: seq<Event>
    var lastSeq: Option<nat>
    var gapPending: bool

    function Value(): View
      reads this
    {
      View(rows, lastSeq, gapPending)
    }

    constructor ()
      ensures Value() == BLANK
    {
      rows, lastSeq, gapPending := [], None, false;
    }

    method MergePage(p: EventsPage)
      requires |rows| <= MAX_ROWS
      modifies this
      ensures |rows| <= MAX_ROWS
      ensures Value() == Merged(old(Value()), p)
    {
      hide LastN, MaxSeq;
      if p.gap { gapPending := true; }
      var i := 0;
      NoMore(rows, lastSeq);
      assert p.events[..0] == [];
      while i < |p.events|
        invariant i <= |p.events|
        invariant rows == LastN(old(rows) + p.events[..i], MAX_ROWS)
        invariant lastSeq == MaxSeq(old(lastSeq), p.events[..i])
        invariant gapPending == (p.gap || old(gapPending))
      {
        var e := p.events[i];
        OneMore(old(rows), p.events, old(lastSeq), i);
        lastSeq := Some(match lastSeq case None => e.seqNo case Some(s) => if s > e.seqNo then s else e.seqNo);
        rows := rows + [e];
        if |rows| > MAX_ROWS { rows := rows[1..]; }
        i := i + 1;
      }
      assert p.events[..i] == p.events;
      if !p.gap && p.nextSince.Some? { gapPending := false; }
    }
  }

  // ---- after any number of pages -----------------------------------------------

  function MergedAll(pages: seq<EventsPage>): View {
    if pages == [] then BLANK else Merged(MergedAll(pages[..|pages| - 1]), pages[|pages| - 1])
  }

  function AllEvents(pages: seq<EventsPage>): seq<Event> {
    if pages == [] then [] else AllEvents(pages[..|pages| - 1]) + pages[|pages| - 1].events
  }

  predicate IsMax(m: Option<nat>, events: seq<Event>) {
    && (m.None? <==> events == [])
    && (m.Some? ==> (exists e <- events :: e.seqNo == m.value) && forall e <- events :: e.seqNo <= m.value)
  }

  lemma {:induction false} MaxSeqAppend(last: Option<nat>, a: seq<Event>, b: seq<Event>)
    ensures MaxSeq(last, a + b) == MaxSeq(MaxSeq(last, a), b)
  {
    if b == [] {
      assert a + b == a;
    } else {
      assert (a + b)[..|a + b| - 1] == a + b[..|b| - 1];
      MaxSeqAppend(last, a, b[..|b| - 1]);
    }
  }

  lemma {:induction false} MaxSeqIsMax(events: seq<Event>)
    ensures IsMax(MaxSeq(None, events), events)
  {
    if events == [] {
    } else {
      var rest, e := events[..|events| - 1], events[|events| - 1];
      MaxSeqIsMax(rest);
      assert events == rest + [e];
      var m := MaxSeq(None, rest);
      if m.Some? && m.value > e.seqNo {
        var w :| w in rest && w.seqNo == m.value;
        assert w in events;
      } else {
        assert e in events;
      }
    }
  }

  // The pane shows the newest rows of everything delivered, and the highest
  // sequence number of everything delivered, rows that scrolled away included.
  lemma {:induction false} PaneShowsAll(pages: seq<EventsPage>)
    ensures MergedAll(pages).rows == LastN(AllEvents(pages), MAX_ROWS)
    ensures var all := AllEvents(pages); MergedAll(pages).rows == if |all| <= 1000 then all else all[|all| - 1000..]
    ensures MergedAll(pages).lastSeq == MaxSeq(None, AllEvents(pages))
    ensures IsMax(MergedAll(pages).lastSeq, AllEvents(pages))
  {
    if pages == [] {
    } else {
      var rest, p := pages[..|pages| - 1], pages[|pages| - 1];
      PaneShowsAll(rest);
      LastNAppend(AllEvents(rest), p.events, MAX_ROWS);
      MaxSeqAppend(None, AllEvents(rest), p.events);
    }
    MaxSeqIsMax(AllEvents(pages));
  }

  // Page i reported a gap, and no later page reported anything.
  predicate GapLast(pages: seq<EventsPage>, i: nat) {
    && i < |pages| && pages[i].gap
    && forall j | i < j < |pages| :: pages[j].nextSince.None? && !pages[j].gap
  }

  // The banner is up exactly when the newest page that reported anything, a gap
  // or an event, reported a gap.
  lemma {:induction false} BannerMeansGap(pages: seq<EventsPage>)
    ensures MergedAll(pages).gapPending <==> exists i: nat :: GapLast(pages, i)
  {
    if pages == [] {
    } else {
      var rest, p := pages[..|pages| - 1], pages[|pages| - 1];
      BannerMeansGap(rest);
      if p.gap {
        assert GapLast(pages, |rest|);
      } else if MergedAll(pages).gapPending {
        var i: nat :| GapLast(rest, i);
        assert GapLast(pages, i);
      } else if i: nat :| GapLast(pages, i) {
        assert pages[|rest|].nextSince.None?;
        assert GapLast(rest, i);
      }
    }
  }
}
