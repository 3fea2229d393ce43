// The bounded event ring: the last `capacity` recorded events, and the filtered
// pages read from it.
module Ring {
  import opened Common

  datatype Event = Event(seqNo: nat, ts: int, kind: string, ticket: Option<string>, cycle: Option<nat>, payload: string)

  datatype Query = Query(since: Option<nat>, kind: Option<string>, ticket: Option<string>, cycle: Option<nat>, limit: nat)

  datatype EventsPage = EventsPage(events: seq<Event>, gap: bool, nextSince: Option<nat>)

  // ---- sequences ---------------------------------------------------------------

  function LastN<T>(s: seq<T>, n: nat): (r: seq<T>)
    ensures |r| == if |s| <= n then |s| else n
  {
    if |s| <= n then s else s[|s| - n..]
  }

  function FirstN<T>(s: seq<T>, n: nat): seq<T> {
    if |s| <= n then s else s[..n]
  }

  // Keeping the last n of a longer list, in two goes or in one.
  lemma LastNAppend<T>(a: seq<T>, b: seq<T>, n: nat)
    ensures LastN(LastN(a, n) + b, n) == LastN(a + b, n)
  {
  }

  // ---- what a page holds -------------------------------------------------------

  predicate Wanted<T(==)>(want: Option<T>, got: Option<T>) {
    want.None? || got == want
  }

  predicate Matches(q: Query, e: Event) {
    && e.seqNo > q.since.GetOr(0)
    && Wanted(q.kind, Some(e.kind))
    && Wanted(q.ticket, e.ticket)
    && Wanted(q.cycle, e.cycle)
  }

  function Matching(s: seq<Event>, q: Query): seq<Event> {
    if s == [] then []
    else
      var e := s[|s| - 1];
      Matching(s[..|s| - 1], q) + if Matches(q, e) then [e] else []
  }

  predicate GapAt(s: seq<Event>, since: Option<nat>) {
    since.Some? && (s == [] || since.value + 1 < s[0].seqNo)
  }

  // A limit of zero still lets one event through.
  function PageLimit(limit: nat): nat {
    if limit == 0 then 1 else limit
  }

  function LastSeq(events: seq<Event>): Option<nat> {
    if events == [] then None else Some(events[|events| - 1].seqNo)
  }

  function PageOf(s: seq<Event>, q: Query): EventsPage {
    var events := FirstN(Matching(s, q), PageLimit(q.limit));
    EventsPage(events, GapAt(s, q.since), LastSeq(events))
  }

  // A page is the selected events from the oldest on, as many as asked for and at
  // least one; the cursor is the last of them.
  lemma PageExactly(s: seq<Event>, q: Query)
    ensures var p, all := PageOf(s, q), Matching(s, q);
      && p.events <= all
      && |p.events| == (if |all| < q.limit then |all| else if q.limit == 0 && all != [] then 1 else q.limit)
      && (p.gap <==> q.since.Some? && (s == [] || q.since.value + 1 < s[0].seqNo))
      && p.nextSince == (if p.events == [] then None else Some(p.events[|p.events| - 1].seqNo))
  {
    hide Matching;
  }

  predicate Numbered(history: seq<Event>) {
    forall i | 0 <= i < |history| :: history[i].seqNo == i + 1
  }

  predicate Ascending(s: seq<Event>) {
    forall i, j | 0 <= i < j < |s| :: s[i].seqNo < s[j].seqNo
  }

  // An event is selected when it is beyond the cursor and of the kind, the ticket
  // and the cycle that are asked for; one without a ticket or a cycle is of none.
  lemma {:induction false} MatchingIs(s: seq<Event>, q: Query, e: Event)
    ensures e in Matching(s, q) <==>
      && e in s && e.seqNo > (if q.since == None then 0 else q.since.value)
      && (q.kind == None || q.kind.value == e.kind)
      && (q.ticket == None || e.ticket == Some(q.ticket.value))
      && (q.cycle == None || e.cycle == Some(q.cycle.value))
  {
    if s == [] {
    } else {
      MatchingIs(s[..|s| - 1], q, e);
      assert s == s[..|s| - 1] + [s[|s| - 1]];
    }
  }

  lemma {:induction false} MatchingAppend(a: seq<Event>, b: seq<Event>, q: Query)
    ensures Matching(a + b, q) == Matching(a, q) + Matching(b, q)
  {
    if b == [] {
      assert a + b == a;
    } else {
      assert (a + b)[..|a + b| - 1] == a + b[..|b| - 1];
      MatchingAppend(a, b[..|b| - 1], q);
    }
  }

  lemma {:induction false} MatchingAscending(s: seq<Event>, q: Query)
    requires Ascending(s)
    ensures Ascending(Matching(s, q))
  {
    if s == [] {
    } else {
      var rest := s[..|s| - 1];
      MatchingAscending(rest, q);
      forall e | e in Matching(rest, q) ensures e.seqNo < s[|s| - 1].seqNo {
        MatchingIs(rest, q, e);
      }
      assert forall i | 0 <= i < |Matching(rest, q)| :: Matching(rest, q)[i] in Matching(rest, q);
    }
  }

  // Nothing after the first n characters of the buffer disturbs what was
  // selected before.
  lemma MatchingPrefix(s: seq<Event>, i: nat, q: Query)
    requires i <= |s|
    ensures Matching(s[..i], q) <= Matching(s, q)
  {
    MatchingAppend(s[..i], s[i..], q);
    assert s[..i] + s[i..] == s;
  }

  lemma MatchingNext(s: seq<Event>, i: nat, q: Query)
    requires i < |s|
    ensures Matching(s[..i + 1], q) == Matching(s[..i], q) + if Matches(q, s[i]) then [s[i]] else []
  {
    assert s[..i + 1][..i] == s[..i];
  }

  // The scan may stop at the end of the buffer or once the page is full.
  lemma PageReady(s: seq<Event>, i: nat, q: Query)
    requires i <= |s| && (i == |s| || |Matching(s[..i], q)| == PageLimit(q.limit))
    requires |Matching(s[..i], q)| <= PageLimit(q.limit)
    ensures FirstN(Matching(s, q), PageLimit(q.limit)) == Matching(s[..i], q)
  {
    MatchingPrefix(s, i, q);
    assert s[..|s|] == s;
  }

  class EventRing {
    const capacity: nat
    var nextSeq: nat
    var buf: seq<Event>
    ghost var history: seq<Event>

    // The buffer is what is left of everything recorded so far.
    ghost predicate Valid()
      reads this
    {
      nextSeq == |history| + 1 && Numbered(history) && buf == LastN(history, capacity)
    }

    constructor (capacity: nat)
      ensures Valid() && history == [] && this.capacity == capacity
    {
      this.capacity, nextSeq, buf, history := capacity, 1, [], [];
    }

    method Record(ts: int, kind: string, ticket: Option<string>, cycle: Option<nat>, payload: string) returns (seqNo: nat)
      requires Valid()
      modifies this
      ensures Valid()
      ensures seqNo == |old(history)| + 1
      ensures history == old(history) + [Event(seqNo, ts, kind, ticket, cycle, payload)]
    {
      seqNo := nextSeq;
      nextSeq := nextSeq + 1;
      history := history + [Event(seqNo, ts, kind, ticket, cycle, payload)];
      if capacity == 0 { return; }
      if |buf| == capacity { buf := buf[1..]; }
      buf := buf + [Event(seqNo, ts, kind, ticket, cycle, payload)];
    }

    method Page(q: Query) returns (p: EventsPage)
      ensures p == PageOf(buf, q)
    {
      var gap := match q.since
        case Some(s) => if buf != [] then s + 1 < buf[0].seqNo else true
        case None => false;
      var out: seq<Event> := [];
      var i := 0;
      assert Matching(buf[..0], q) == [];
      hide Matching, Matches;
      while i < |buf|
        invariant i <= |buf|
        invariant out == Matching(buf[..i], q)
        invariant |out| < PageLimit(q.limit)
      {
        var e := buf[i];
        MatchingNext(buf, i, q);
        i := i + 1;
        if !Matches(q, e) { continue; }
        out := out + [e];
        if |out| >= q.limit { break; }
      }
      PageReady(buf, i, q);
      p := EventsPage(out, gap, if out == [] then None else Some(out[|out| - 1].seqNo));
    }
  }
}
