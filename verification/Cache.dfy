// The per-ticket diff cache. Each operation is first a function on the cached
// map, because the concurrent model interleaves these as atomic steps; the class
// below is the object that performs them in place.
module Cache {
  import opened Common

  type TicketId = string

  datatype Admitted = Admitted(id: TicketId, repo: string, status: string, labels: seq<string>, assignee: Option<string>)

  datatype Entry = Entry(
    repo: string,
    status: string,
    labels: set<string>,
    assignee: string,
    cycleId: Option<nat>,
    pendingRecheck: bool,
    pendingEvict: bool
  )

  type Entries = map<TicketId, Entry>

  datatype DiffOutcome = Unchanged | Changed | NewEntry

  // ---- the operations as functions ---------------------------------------------

  // An ordered set of labels and a defaulted assignee: order, repetition and a
  // missing assignee do not show.
  function Tracked(a: Admitted): (string, set<string>, string) {
    (a.status, (set l | l in a.labels), a.assignee.GetOr(""))
  }

  function TrackedOf(e: Entry): (string, set<string>, string) {
    (e.status, e.labels, e.assignee)
  }

  // The read phase of `observe`: has the tracked triple been seen already?
  predicate Known(c: Entries, a: Admitted) {
    a.id in c && TrackedOf(c[a.id]) == Tracked(a)
  }

  function Fresh(repo: string, status: string, labels: set<string>, assignee: string): Entry {
    Entry(repo, status, labels, assignee, None, false, false)
  }

  // The write phase of `observe`.
  function Written(c: Entries, a: Admitted): Entries {
    var t := Tracked(a);
    c[a.id := if a.id in c then c[a.id].(status := t.0, labels := t.1, assignee := t.2)
              else Fresh(a.repo, t.0, t.1, t.2)]
  }

  function Seeded(c: Entries, t: TicketId, repo: string): Entries {
    if t in c then c else c[t := Fresh(repo, "", {}, "")]
  }

  function WithCycle(c: Entries, t: TicketId, id: Option<nat>): Entries {
    if t in c then c[t := c[t].(cycleId := id)] else c
  }

  function WithRecheck(c: Entries, t: TicketId, on: bool): Entries {
    if t in c then c[t := c[t].(pendingRecheck := on)] else c
  }

  function WithEvict(c: Entries, t: TicketId, on: bool): Entries {
    if t in c then c[t := c[t].(pendingEvict := on)] else c
  }

  function RecheckSet(c: Entries, t: TicketId): bool {
    t in c && c[t].pendingRecheck
  }

  function EvictSet(c: Entries, t: TicketId): bool {
    t in c && c[t].pendingEvict
  }

  function InFlight(c: Entries): set<TicketId> {
    set t | t in c && c[t].cycleId.Some?
  }

  // ---- what the operations mean ------------------------------------------------

  // Whatever was observed last is known afterwards, in any label order, with any
  // repetition, and with a missing assignee standing for the empty one; nothing
  // else becomes known for that ticket, and the runtime fields of an entry that
  // was already there, its repository included, are left alone.
  lemma WrittenIsKnown(c: Entries, a: Admitted, b: Admitted)
    requires b.id == a.id
    ensures Known(Written(c, a), b)
            <==> (a.status == b.status && a.assignee.GetOr("") == b.assignee.GetOr("")
                  && forall l :: l in a.labels <==> l in b.labels)
    ensures a.id in c ==> Written(c, a)[a.id] == c[a.id].(status := a.status, labels := Tracked(a).1, assignee := a.assignee.GetOr(""))
    ensures Written(c, a) - {a.id} == c - {a.id}
  {
    var la, lb := Tracked(a).1, Tracked(b).1;
    assert forall l :: l in la <==> l in a.labels;
    assert forall l :: l in lb <==> l in b.labels;
    assert TrackedOf(Written(c, a)[a.id]) == Tracked(a);
    if forall l :: l in a.labels <==> l in b.labels { assert la == lb; }
  }

  // Raising or lowering a flag does that and nothing else: an absent ticket stays
  // absent, the other flag, the triple and the cycle id stay, and so does every other
  // ticket's entry.
  lemma FlagsExactly(c: Entries, t: TicketId, on: bool, u: TicketId)
    ensures var r, e := WithRecheck(c, t, on), WithEvict(c, t, on);
      && r.Keys == e.Keys == c.Keys
      && (u in c ==> r[u] == if u == t then c[u].(pendingRecheck := on) else c[u])
      && (u in c ==> e[u] == if u == t then c[u].(pendingEvict := on) else c[u])
      && (RecheckSet(r, u) <==> u in c && if u == t then on else c[u].pendingRecheck)
      && (EvictSet(e, u) <==> u in c && if u == t then on else c[u].pendingEvict)
      && RecheckSet(e, u) == RecheckSet(c, u) && EvictSet(r, u) == EvictSet(c, u)
  {
  }

  // A seed never touches an entry, and an entry it makes knows nothing.
  lemma SeededExactly(c: Entries, t: TicketId, repo: string)
    ensures Seeded(c, t, repo) == if t in c then c else c[t := Entry(repo, "", {}, "", None, false, false)]
  {
  }

  lemma CountOneMore(flight: set<TicketId>, seen: set<TicketId>, t: TicketId)
    requires t !in seen
    ensures |flight * (seen + {t})| == |flight * seen| + if t in flight then 1 else 0
  {
    assert flight * (seen + {t}) == flight * seen + if t in flight then {t} else {};
  }

  // ---- the cache object --------------------------------------------------------

  class DiffCache {
    var entries: Entries

    constructor ()
      ensures entries == map[]
    {
      entries := map[];
    }

    // Both phases of `observe` with nothing in between.
    method Observe(a: Admitted) returns (outcome: DiffOutcome)
      modifies this
      ensures outcome.Unchanged? <==> Known(old(entries), a)
      ensures outcome.NewEntry? <==> a.id !in old(entries)
      ensures entries == if outcome.Unchanged? then old(entries) else Written(old(entries), a)
      ensures Known(entries, a)
    {
      var labels := set l | l in a.labels;
      var assignee := a.assignee.GetOr("");
      if a.id in entries {
        var e := entries[a.id];
        if e.status == a.status && e.labels == labels && e.assignee == assignee {
          return Unchanged;
        }
        entries := entries[a.id := e.(status := a.status, labels := labels, assignee := assignee)];
        return Changed;
      }
      entries := entries[a.id := Fresh(a.repo, a.status, labels, assignee)];
      return NewEntry;
    }

    method SeedFromStoreHint(t: TicketId, repo: string)
      modifies this
      ensures entries == Seeded(old(entries), t, repo)
    {
      if t !in entries {
        entries := entries[t := Entry(repo, "", {}, "", None, false, false)];
      }
    }

    method Snapshot(t: TicketId) returns (e: Option<Entry>)
      ensures e == if t in entries then Some(entries[t]) else None
    {
      if t in entries { return Some(entries[t]); }
      return None;
    }

    method SetCycleId(t: TicketId, id: nat)
      modifies this
      ensures entries == WithCycle(old(entries), t, Some(id))
    {
      if t in entries { entries := entries[t := entries[t].(cycleId := Some(id))]; }
    }

    method ClearCycleId(t: TicketId)
      modifies this
      ensures entries == WithCycle(old(entries), t, None)
    {
      if t in entries { entries := entries[t := entries[t].(cycleId := None)]; }
    }

    method SetPendingRecheck(t: TicketId)
      modifies this
      ensures entries == WithRecheck(old(entries), t, true)
    {
      if t in entries { entries := entries[t := entries[t].(pendingRecheck := true)]; }
    }

    method TakePendingRecheck(t: TicketId) returns (prior: bool)
      modifies this
      ensures prior == RecheckSet(old(entries), t)
      ensures entries == WithRecheck(old(entries), t, false)
    {
      prior := false;
      if t in entries {
        prior := entries[t].pendingRecheck;
        entries := entries[t := entries[t].(pendingRecheck := false)];
      }
    }

    method SetPendingEvict(t: TicketId)
      modifies this
      ensures entries == WithEvict(old(entries), t, true)
    {
      if t in entries { entries := entries[t := entries[t].(pendingEvict := true)]; }
    }

    method ClearPendingEvict(t: TicketId)
      modifies this
      ensures entries == WithEvict(old(entries), t, false)
    {
      if t in entries { entries := entries[t := entries[t].(pendingEvict := false)]; }
    }

    method TakePendingEvict(t: TicketId) returns (prior: bool)
      modifies this
      ensures prior == EvictSet(old(entries), t)
      ensures entries == WithEvict(old(entries), t, false)
    {
      prior := false;
      if t in entries {
        prior := entries[t].pendingEvict;
        entries := entries[t := entries[t].(pendingEvict := false)];
      }
    }

    method Evict(t: TicketId)
      modifies this
      ensures entries == old(entries) - {t}
    {
      entries := entries - {t};
    }

    // Counts the entries with a running cycle, one entry at a time.
    method InFlightCount() returns (n: nat)
      ensures n == |InFlight(entries)|
    {
      n := 0;
      var rest := entries.Keys;
      ghost var seen: set<TicketId> := {};
      ghost var flight := InFlight(entries);
      assert forall t <- entries.Keys :: t in flight <==> entries[t].cycleId.Some?;
      while rest != {}
        invariant seen + rest == entries.Keys && seen !! rest
        invariant n == |flight * seen|
        decreases rest
      {
        var t :| t in rest;
        CountOneMore(flight, seen, t);
        if entries[t].cycleId.Some? { n := n + 1; }
        rest := rest - {t};
        seen := seen + {t};
      }
      assert flight * seen == flight;
    }
  }
}
