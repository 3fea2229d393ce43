// The cache keeps no title and no body. Exactly when that does not matter: for one
// seen ticket, the dispatch from the cache is the dispatch from the ticket for
// every title and body.
module DispatchTexts {
  import opened Common
  import opened Cache
  import opened Dispatch

  // ---- one entry ---------------------------------------------------------------

  function Title(e: RuleEntry): Option<TextMatcher> {
    if e.clause.Some? then e.clause.value.title else None
  }

  function Body(e: RuleEntry): Option<TextMatcher> {
    if e.clause.Some? then e.clause.value.body else None
  }

  predicate Accepts(m: Option<TextMatcher>, text: string) {
    m.Some? ==> TextMatches(m.value, text)
  }

  // The clause without its two texts accepts what the cache does keep.
  predicate Live(e: RuleEntry, a: Admitted) {
    e.clause.Some? ==> Matches(Some(e.clause.value.(title := None, body := None)), Ticket(a, "", ""))
  }

  lemma MatchSplits(e: RuleEntry, a: Admitted, title: string, body: string)
    ensures Matches(e.clause, Ticket(a, title, body)) <==> Live(e, a) && Accepts(Title(e), title) && Accepts(Body(e), body)
  {
  }

  function Pattern(m: Option<TextMatcher>): string {
    if m.Some? then m.value.pattern else ""
  }

  lemma AcceptsOwn(m: Option<TextMatcher>)
    ensures Accepts(m, Pattern(m))
    ensures Accepts(m, "") <==> Pattern(m) == ""
  {
    if m.Some? { assert OccursAt(m.value.pattern, m.value.pattern, 0); }
  }

  lemma BlindIsBare(e: RuleEntry)
    ensures EntryBlind(e) <==> Accepts(Title(e), "") && Accepts(Body(e), "")
  {
    AcceptsOwn(Title(e));
    AcceptsOwn(Body(e));
    hide Accepts;
  }

  // An entry treats every title and body alike exactly when it asks for none, or
  // does not accept the rest of the ticket.
  lemma EntryExactly(e: RuleEntry, a: Admitted)
    ensures (forall title, body :: Matches(e.clause, Ticket(a, title, body)) == Matches(e.clause, Ticket(a, "", "")))
            <==> EntryBlind(e) || !Live(e, a)
  {
    MatchSplits(e, a, "", "");
    BlindIsBare(e);
    if EntryBlind(e) || !Live(e, a) {
      forall title, body ensures Matches(e.clause, Ticket(a, title, body)) == Matches(e.clause, Ticket(a, "", "")) {
        MatchSplits(e, a, title, body);
        if EntryBlind(e) { SameMatch(e, Ticket(a, title, body), Ticket(a, "", "")); }
      }
    } else {
      MatchSplits(e, a, Pattern(Title(e)), Pattern(Body(e)));
      AcceptsOwn(Title(e));
      AcceptsOwn(Body(e));
    }
  }

  // ---- one list ----------------------------------------------------------------

  predicate AnyLive(entries: seq<RuleEntry>, a: Admitted) {
    exists e <- entries :: Live(e, a)
  }

  // The first entry that accepts the rest of the ticket, if there is one, asks for
  // no text: no entry that does precedes it.
  predicate Clear(entries: seq<RuleEntry>, a: Admitted) {
    if entries == [] then true
    else if Live(entries[0], a) then EntryBlind(entries[0])
    else Clear(entries[1..], a)
  }

  lemma {:induction false} ClearSame(entries: seq<RuleEntry>, a: Admitted, title: string, body: string)
    requires Clear(entries, a)
    ensures FirstMatch(entries, Ticket(a, title, body)) == FirstMatch(entries, Ticket(a, "", ""))
    ensures FirstMatch(entries, Ticket(a, title, body)).Some? <==> AnyLive(entries, a)
  {
    if entries == [] {
    } else {
      var e := entries[0];
      MatchSplits(e, a, title, body);
      MatchSplits(e, a, "", "");
      BlindIsBare(e);
      if Live(e, a) {
        SameMatch(e, Ticket(a, title, body), Ticket(a, "", ""));
      } else {
        ClearSame(entries[1..], a, title, body);
      }
    }
  }

  // Otherwise there is a title and a body that only the first such entry tells
  // from nothing.
  lemma {:induction false} UnclearDiffers(entries: seq<RuleEntry>, a: Admitted) returns (e: RuleEntry)
    requires !Clear(entries, a)
    ensures e in entries && Live(e, a) && !EntryBlind(e)
    ensures FirstMatch(entries, Ticket(a, Pattern(Title(e)), Pattern(Body(e)))) == Some(e)
  {
    if Live(entries[0], a) {
      e := entries[0];
      AcceptsOwn(Title(e));
      AcceptsOwn(Body(e));
      MatchSplits(e, a, Pattern(Title(e)), Pattern(Body(e)));
    } else {
      e := UnclearDiffers(entries[1..], a);
      MatchSplits(entries[0], a, Pattern(Title(e)), Pattern(Body(e)));
    }
  }

  // What the bare ticket matches asks for no text.
  lemma BareIsBlind(entries: seq<RuleEntry>, a: Admitted)
    requires FirstMatch(entries, Ticket(a, "", "")).Some?
    ensures EntryBlind(FirstMatch(entries, Ticket(a, "", "")).value)
  {
    var e := FirstMatch(entries, Ticket(a, "", "")).value;
    MatchSplits(e, a, "", "");
    BlindIsBare(e);
  }

  // ---- cleanups that all end in the immediate delete ----------------------------

  // Every text that `n` accepts, `m` accepts.
  predicate Covers(m: Option<TextMatcher>, n: Option<TextMatcher>) {
    if Pattern(m) == "" then true
    else if n.None? then false
    else if m.value.StartsWith? then n.value.StartsWith? && m.value.pattern <= n.value.pattern
    else Occurs(m.value.pattern, n.value.pattern)
  }

  // The hardest text n accepts: nothing it does not ask for, and nothing at the
  // start that another pattern could use.
  function Hardest(n: Option<TextMatcher>, z: char): string {
    if Pattern(n) == "" then "" else if n.value.StartsWith? then n.value.pattern else [z] + n.value.pattern
  }

  lemma OccursWithin(p: string, q: string, text: string, i: nat)
    requires Occurs(p, q) && i + |q| <= |text| && text[i..][..|q|] == q
    ensures Occurs(p, text)
  {
    var j :| 0 <= j <= |q| && OccursAt(p, q, j);
    assert q == text[i..i + |q|];
    assert text[i + j..][..|p|] == text[i + j..i + j + |p|] == q[j..j + |p|] == q[j..][..|p|];
    assert OccursAt(p, text, i + j);
  }

  lemma CoversAll(m: Option<TextMatcher>, n: Option<TextMatcher>, text: string)
    requires Covers(m, n) && Accepts(n, text)
    ensures Accepts(m, text)
  {
    if Pattern(m) == "" {
      if m.Some? { BlindExactly(m.value); AcceptsOwn(m); }
    } else if !m.value.StartsWith? {
      var q := n.value.pattern;
      if n.value.StartsWith? {
        OccursWithin(m.value.pattern, q, text, 0);
      } else {
        var i :| 0 <= i <= |text| && OccursAt(q, text, i);
        OccursWithin(m.value.pattern, q, text, i);
      }
    }
  }

  lemma HardestAccepted(n: Option<TextMatcher>, z: char)
    ensures Accepts(n, Hardest(n, z))
  {
    AcceptsOwn(n);
    if Pattern(n) != "" && !n.value.StartsWith? {
      assert OccursAt(n.value.pattern, Hardest(n, z), 1);
    }
  }

  lemma CoversHardest(m: Option<TextMatcher>, n: Option<TextMatcher>, z: char)
    requires z !in Pattern(m)
    ensures Covers(m, n) <==> Accepts(m, Hardest(n, z))
  {
    AcceptsOwn(m);
    HardestAccepted(n, z);
    if Covers(m, n) {
      CoversAll(m, n, Hardest(n, z));
    }
    if Accepts(m, Hardest(n, z)) && Pattern(m) != "" {
      HardestCovered(m.value, n, z);
    }
  }

  lemma HardestCovered(m: TextMatcher, n: Option<TextMatcher>, z: char)
    requires z !in m.pattern && m.pattern != "" && TextMatches(m, Hardest(n, z))
    ensures Covers(Some(m), n)
  {
    var p, w := m.pattern, Hardest(n, z);
    assert p[0] in p;
    if m.StartsWith? {
      assert p[0] == w[0];
    } else {
      var i :| 0 <= i <= |w| && OccursAt(p, w, i);
      assert p[0] == w[i..][0] == w[i];
      if n.value.StartsWith? {
        assert w == n.value.pattern;
      } else {
        assert n.value.pattern[i - 1..][..|p|] == w[i..][..|p|];
        assert OccursAt(p, n.value.pattern, i - 1);
      }
    }
  }

  predicate EntryCovers(c: RuleEntry, e: RuleEntry) {
    Covers(Title(c), Title(e)) && Covers(Body(c), Body(e))
  }

  // Up to the first entry that asks for no text, every one that accepts the rest of
  // the ticket is an immediate delete or is covered by an immediate delete before it.
  predicate Undercut(entries: seq<RuleEntry>, a: Admitted, deletes: seq<RuleEntry>) {
    if entries == [] then true
    else
      var e := entries[0];
      if !Live(e, a) then Undercut(entries[1..], a, deletes)
      else if EntryBlind(e) then IsShorthandCleanup(e)
      else if IsShorthandCleanup(e) then Undercut(entries[1..], a, deletes + [e])
      else (exists c <- deletes :: EntryCovers(c, e)) && Undercut(entries[1..], a, deletes)
  }

  predicate Unused(entries: seq<RuleEntry>, z: char) {
    forall e <- entries :: z !in Pattern(Title(e)) && z !in Pattern(Body(e))
  }

  predicate EntryAccepts(e: RuleEntry, title: string, body: string) {
    Accepts(Title(e), title) && Accepts(Body(e), body)
  }

  lemma CoversTexts(c: RuleEntry, e: RuleEntry, title: string, body: string)
    requires EntryCovers(c, e) && EntryAccepts(e, title, body)
    ensures EntryAccepts(c, title, body)
  {
    CoversAll(Title(c), Title(e), title);
    CoversAll(Body(c), Body(e), body);
  }

  lemma EntryCoversHardest(c: RuleEntry, e: RuleEntry, z: char)
    requires z !in Pattern(Title(c)) && z !in Pattern(Body(c))
    ensures EntryCovers(c, e) <==> EntryAccepts(c, Hardest(Title(e), z), Hardest(Body(e), z))
    ensures EntryAccepts(e, Hardest(Title(e), z), Hardest(Body(e), z))
  {
    CoversHardest(Title(c), Title(e), z);
    CoversHardest(Body(c), Body(e), z);
    HardestAccepted(Title(e), z);
    HardestAccepted(Body(e), z);
  }

  lemma {:induction false} UndercutDeletes(entries: seq<RuleEntry>, a: Admitted, deletes: seq<RuleEntry>, title: string, body: string)
    requires Undercut(entries, a, deletes) && FirstMatch(entries, Ticket(a, "", "")).Some?
    requires forall c <- deletes :: !EntryAccepts(c, title, body)
    ensures var r := FirstMatch(entries, Ticket(a, title, body)); r.Some? && IsShorthandCleanup(r.value)
  {
    var e := entries[0];
    MatchSplits(e, a, title, body);
    MatchSplits(e, a, "", "");
    BlindIsBare(e);
    if Live(e, a) && EntryBlind(e) {
      SameMatch(e, Ticket(a, title, body), Ticket(a, "", ""));
    } else if Live(e, a) && IsShorthandCleanup(e) {
      if !EntryAccepts(e, title, body) { UndercutDeletes(entries[1..], a, deletes + [e], title, body); }
    } else {
      if c :| Live(e, a) && c in deletes && EntryCovers(c, e) {
        if EntryAccepts(e, title, body) { CoversTexts(c, e, title, body); }
      }
      UndercutDeletes(entries[1..], a, deletes, title, body);
    }
  }

  lemma {:induction false} NotUndercutDiffers(entries: seq<RuleEntry>, a: Admitted, deletes: seq<RuleEntry>, z: char) returns (e: RuleEntry)
    requires !Undercut(entries, a, deletes) && Unused(entries, z) && Unused(deletes, z)
    requires var r := FirstMatch(entries, Ticket(a, "", "")); r.Some? && IsShorthandCleanup(r.value)
    ensures !IsShorthandCleanup(e) && forall c <- deletes :: !EntryCovers(c, e)
    ensures FirstMatch(entries, Ticket(a, Hardest(Title(e), z), Hardest(Body(e), z))) == Some(e)
  {
    var e0 := entries[0];
    assert e0 in entries;
    MatchSplits(e0, a, "", "");
    BlindIsBare(e0);
    if Live(e0, a) && !IsShorthandCleanup(e0) && !(exists c <- deletes :: EntryCovers(c, e0)) {
      e := e0;
      EntryCoversHardest(e0, e0, z);
      MatchSplits(e0, a, Hardest(Title(e), z), Hardest(Body(e), z));
    } else {
      e := NotUndercutDiffers(entries[1..], a, if Live(e0, a) && IsShorthandCleanup(e0) then deletes + [e0] else deletes, z);
      var title, body := Hardest(Title(e), z), Hardest(Body(e), z);
      MatchSplits(e0, a, title, body);
      EntryCoversHardest(e0, e, z);
      if Live(e0, a) && !IsShorthandCleanup(e0) {
        var c :| c in deletes && EntryCovers(c, e0);
        EntryCoversHardest(c, e, z);
        if EntryAccepts(e0, title, body) { CoversTexts(c, e0, title, body); }
      }
    }
  }

  // ---- the workflow ------------------------------------------------------------

  // The first cleanup that the bare ticket matches is an immediate delete.
  predicate BareDeletes(cleanups: seq<RuleEntry>, a: Admitted) {
    var r := FirstMatch(cleanups, Ticket(a, "", ""));
    r.Some? && IsShorthandCleanup(r.value)
  }

  // What a maintainer can check of a workflow: in the list that decides, no entry
  // with a text comes before the first one without, among those that accept the
  // rest of the ticket; in front of an immediate delete, entries with a text may
  // stand if they too are immediate deletes, or are covered by one.
  predicate CacheSuffices(wf: Workflow, a: Admitted, mode: Mode) {
    var lists := EntriesFor(wf, a.repo);
    if BareDeletes(lists.cleanups, a) then Undercut(lists.cleanups, a, [])
    else Clear(lists.cleanups, a) && (AnyLive(lists.cleanups, a) || mode.CleanupOnly? || Clear(lists.rules, a))
  }

  lemma SufficesSame(wf: Workflow, a: Admitted, mode: Mode, title: string, body: string)
    requires CacheSuffices(wf, a, mode)
    ensures Evaluate(Ticket(a, title, body), wf, mode) == Evaluate(Ticket(a, "", ""), wf, mode)
  {
    var lists := EntriesFor(wf, a.repo);
    if BareDeletes(lists.cleanups, a) {
      UndercutDeletes(lists.cleanups, a, [], title, body);
    } else {
      ClearSame(lists.cleanups, a, title, body);
      ClearSame(lists.cleanups, a, "", "");
      if !AnyLive(lists.cleanups, a) && mode.Default? { ClearSame(lists.rules, a, title, body); }
    }
    hide FirstMatch, Clear, Undercut;
  }

  lemma DiffersAt(wf: Workflow, a: Admitted, mode: Mode, z: char) returns (title: string, body: string)
    requires !CacheSuffices(wf, a, mode)
    requires BareDeletes(EntriesFor(wf, a.repo).cleanups, a) ==> Unused(EntriesFor(wf, a.repo).cleanups, z)
    ensures Evaluate(Ticket(a, title, body), wf, mode) != Evaluate(Ticket(a, "", ""), wf, mode)
  {
    var lists := EntriesFor(wf, a.repo);
    var e: RuleEntry;
    if BareDeletes(lists.cleanups, a) {
      e := NotUndercutDiffers(lists.cleanups, a, [], z);
      title, body := Hardest(Title(e), z), Hardest(Body(e), z);
    } else if !Clear(lists.cleanups, a) {
      e := UnclearDiffers(lists.cleanups, a);
      title, body := Pattern(Title(e)), Pattern(Body(e));
      if FirstMatch(lists.cleanups, Ticket(a, "", "")).Some? { BareIsBlind(lists.cleanups, a); }
    } else {
      e := UnclearDiffers(lists.rules, a);
      title, body := Pattern(Title(e)), Pattern(Body(e));
      ClearSame(lists.cleanups, a, title, body);
      ClearSame(lists.cleanups, a, "", "");
      if FirstMatch(lists.rules, Ticket(a, "", "")).Some? { BareIsBlind(lists.rules, a); }
    }
    hide FirstMatch, Clear, Undercut, EntryBlind;
  }

  // For what the cache knows of a ticket, the dispatch from the cache is that of
  // the ticket whatever its title and body, exactly when the workflow passes that
  // test. `z` is any character that no cleanup pattern contains.
  lemma CacheDispatchExactly(c: Entries, a: Admitted, wf: Workflow, mode: Mode, z: char)
    requires Known(c, a) && c[a.id].repo == a.repo
    requires BareDeletes(EntriesFor(wf, a.repo).cleanups, a) ==> Unused(EntriesFor(wf, a.repo).cleanups, z)
    ensures (forall title, body :: EvaluateFromCache(a.id, c[a.id], wf, mode) == Evaluate(Ticket(a, title, body), wf, mode))
            <==> CacheSuffices(wf, a, mode)
  {
    FromCacheIsBare(c, a, wf, mode);
    hide Evaluate, CacheSuffices, EvaluateFromCache;
    if CacheSuffices(wf, a, mode) {
      forall title, body ensures EvaluateFromCache(a.id, c[a.id], wf, mode) == Evaluate(Ticket(a, title, body), wf, mode) {
        SufficesSame(wf, a, mode, title, body);
      }
    } else {
      var title, body := DiffersAt(wf, a, mode, z);
    }
  }

  lemma FromCacheIsBare(c: Entries, a: Admitted, wf: Workflow, mode: Mode)
    requires Known(c, a) && c[a.id].repo == a.repo
    ensures EvaluateFromCache(a.id, c[a.id], wf, mode) == Evaluate(Ticket(a, "", ""), wf, mode)
  {
    var s, t := Synthetic(a.id, c[a.id]), Ticket(a, "", "");
    assert TrackedOf(c[a.id]).1 == Tracked(a).1;
    forall l ensures l in a.labels <==> l in s.seen.labels {
      assert l in Tracked(a).1 <==> l in a.labels;
    }
    assert EntriesFor(wf, a.repo) == EntriesFor(wf, s.seen.repo);
    SameBareFirst(EntriesFor(wf, a.repo).cleanups, s, t);
    SameBareFirst(EntriesFor(wf, a.repo).rules, s, t);
    hide FirstMatch;
  }

  lemma {:induction false} SameBareFirst(entries: seq<RuleEntry>, t: Ticket, u: Ticket)
    requires SameSeen(t, u) && t.title == u.title && t.body == u.body
    ensures FirstMatch(entries, t) == FirstMatch(entries, u)
  {
    if entries == [] {
    } else {
      assert Matches(entries[0].clause, t) == Matches(entries[0].clause, u) by { hide TextMatches; }
      hide Matches, SameSeen;
      SameBareFirst(entries[1..], t, u);
    }
  }
}
