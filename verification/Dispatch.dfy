// Which entry of the workflow a ticket is sent to: from the ticket itself, and
// from the cached entry the ticket task looks at.
module Dispatch {
  import opened Common
  import opened Canonical
  import opened Cache

  datatype ScalarMatcher = Eq(value: string) | Not(value: string) | In(values: seq<string>)

  datatype LabelsMatcher = LabelsMatcher(hasAll: Option<seq<string>>, hasAny: Option<seq<string>>, hasNone: Option<seq<string>>)

  // `regex` is checked as `contains`, as the daemon does.
  datatype TextMatcher = Regex(pattern: string) | StartsWith(pattern: string) | Contains(pattern: string)

  datatype WhenClause = WhenClause(
    status: Option<ScalarMatcher>,
    labels: Option<LabelsMatcher>,
    assignee: Option<ScalarMatcher>,
    repo: Option<string>,
    title: Option<TextMatcher>,
    body: Option<TextMatcher>
  )

  datatype RuleEntry = RuleEntry(clause: Option<WhenClause>, stateMachine: StateMachine)

  datatype RuleSet = RuleSet(rules: seq<RuleEntry>, cleanups: seq<RuleEntry>)

  datatype Workflow = Workflow(top: RuleSet, repoOverrides: map<string, RuleSet>)

  // An admitted ticket with the two texts the cache does not keep.
  datatype Ticket = Ticket(seen: Admitted, title: string, body: string)

  datatype Mode = Default | CleanupOnly

  datatype Target = RuleCycle(entry: RuleEntry) | CleanupCycle(entry: RuleEntry) | CleanupShorthand | NoMatch

  // ---- matching ----------------------------------------------------------------

  predicate ScalarMatches(m: ScalarMatcher, candidate: string) {
    match m
    case Eq(s) => s == candidate
    case Not(s) => s != candidate
    case In(items) => candidate in items
  }

  predicate LabelsMatch(m: LabelsMatcher, labels: seq<string>) {
    && (m.hasAll.Some? ==> forall w <- m.hasAll.value :: w in labels)
    && (m.hasAny.Some? ==> exists w <- m.hasAny.value :: w in labels)
    && (m.hasNone.Some? ==> forall w <- m.hasNone.value :: w !in labels)
  }

  predicate OccursAt(pattern: string, text: string, i: nat) {
    i + |pattern| <= |text| && text[i..][..|pattern|] == pattern
  }

  predicate Occurs(pattern: string, text: string) {
    exists i | 0 <= i <= |text| :: OccursAt(pattern, text, i)
  }

  predicate TextMatches(m: TextMatcher, candidate: string) {
    if m.StartsWith? then m.pattern <= candidate else Occurs(m.pattern, candidate)
  }

  predicate Matches(clause: Option<WhenClause>, t: Ticket) {
    clause.Some? ==>
      var w := clause.value;
      && (w.status.Some? ==> ScalarMatches(w.status.value, t.seen.status))
      && (w.labels.Some? ==> LabelsMatch(w.labels.value, t.seen.labels))
      && (w.assignee.Some? ==> ScalarMatches(w.assignee.value, t.seen.assignee.GetOr("")))
      && (w.repo.Some? ==> w.repo.value == t.seen.repo)
      && (w.title.Some? ==> TextMatches(w.title.value, t.title))
      && (w.body.Some? ==> TextMatches(w.body.value, t.body))
  }

  function FirstMatch(entries: seq<RuleEntry>, t: Ticket): (r: Option<RuleEntry>)
    ensures r.None? ==> forall e <- entries :: !Matches(e.clause, t)
    ensures r.Some? ==> exists i ::
      0 <= i < |entries| && entries[i] == r.value && Matches(r.value.clause, t) && forall j | 0 <= j < i :: !Matches(entries[j].clause, t)
  {
    if entries == [] then None
    else if Matches(entries[0].clause, t) then Some(entries[0])
    else
      var r := FirstMatch(entries[1..], t);
      assert r.Some? ==> exists i :: 0 <= i < |entries| && entries[i] == r.value && Matches(r.value.clause, t)
                                     && forall j | 0 <= j < i :: !Matches(entries[j].clause, t) by {
        if r.Some? {
          var i :| 0 <= i < |entries[1..]| && entries[1..][i] == r.value && forall j | 0 <= j < i :: !Matches(entries[1..][j].clause, t);
          assert entries[i + 1] == r.value;
          assert forall j | 0 < j < i + 1 :: entries[j] == entries[1..][j - 1];
        }
      }
      r
  }

  // The immediate-delete form: no states, straight to success.
  predicate IsShorthandCleanup(e: RuleEntry) {
    e.stateMachine.states == map[] && e.stateMachine.start == SUCCESS
  }

  // ---- dispatch ----------------------------------------------------------------

  function EntriesFor(wf: Workflow, repo: string): RuleSet {
    if repo in wf.repoOverrides then wf.repoOverrides[repo] else wf.top
  }

  function Evaluate(t: Ticket, wf: Workflow, mode: Mode): Target {
    var entries := EntriesFor(wf, t.seen.repo);
    var cleanup := FirstMatch(entries.cleanups, t);
    if cleanup.Some? then
      if IsShorthandCleanup(cleanup.value) then CleanupShorthand else CleanupCycle(cleanup.value)
    else if mode.CleanupOnly? then NoMatch
    else
      var rule := FirstMatch(entries.rules, t);
      if rule.Some? then RuleCycle(rule.value) else NoMatch
  }

  // The ticket the cache can rebuild: labels in order and once each, an assignee
  // that is always there, no title and no body.
  function Synthetic(id: TicketId, e: Entry): Ticket {
    Ticket(Admitted(id, e.repo, e.status, Sorted(e.labels), Some(e.assignee)), "", "")
  }

  function EvaluateFromCache(id: TicketId, e: Entry, wf: Workflow, mode: Mode): Target {
    Evaluate(Synthetic(id, e), wf, mode)
  }

  // ---- what dispatch decides ---------------------------------------------------

  // A list that is absent asks for nothing; one that is present and empty asks for
  // nothing either, except `has_any`, which nothing can then satisfy.
  lemma LabelsExactly(m: LabelsMatcher, labels: seq<string>)
    ensures var have := set l | l in labels;
      LabelsMatch(m, labels) <==>
        && (m.hasAll == None || (set w | w in m.hasAll.value) <= have)
        && (m.hasAny == None || (set w | w in m.hasAny.value) * have != {})
        && (m.hasNone == None || (set w | w in m.hasNone.value) !! have)
  {
    var have := set l | l in labels;
    if m.hasAll.Some? {
      var all := set w | w in m.hasAll.value;
      assert forall w :: w in all <==> w in m.hasAll.value;
    }
    if m.hasAny.Some? {
      var any := set w | w in m.hasAny.value;
      assert forall w :: w in any * have <==> w in m.hasAny.value && w in labels;
    }
    if m.hasNone.Some? {
      var none := set w | w in m.hasNone.value;
      assert forall w :: w in none <==> w in m.hasNone.value;
    }
  }

  // `starts_with` asks for a beginning, the other two for a part.
  lemma TextExactly(m: TextMatcher, text: string)
    ensures m.StartsWith? ==> (TextMatches(m, text) <==> exists rest :: text == m.pattern + rest)
    ensures !m.StartsWith? ==> (TextMatches(m, text) <==> exists before, after :: text == before + m.pattern + after)
  {
    if m.StartsWith? {
      if m.pattern <= text { assert text == m.pattern + text[|m.pattern|..]; }
    } else {
      if i :| 0 <= i <= |text| && OccursAt(m.pattern, text, i) {
        assert text == text[..i] + m.pattern + text[i + |m.pattern|..];
      }
      if before, after :| text == before + m.pattern + after {
        assert text[|before|..][..|m.pattern|] == m.pattern;
        assert OccursAt(m.pattern, text, |before|);
      }
    }
  }

  // A clause asks for every part it has, each of the ticket's own field; a missing
  // assignee is the empty one, and an absent clause asks for nothing.
  lemma ClauseExactly(w: WhenClause, t: Ticket)
    ensures Matches(None, t)
    ensures Matches(Some(w), t) <==>
      && ScalarFits(w.status, t.seen.status)
      && (w.labels == None || LabelsMatch(w.labels.value, t.seen.labels))
      && ScalarFits(w.assignee, if t.seen.assignee == None then "" else t.seen.assignee.value)
      && (w.repo == None || w.repo.value == t.seen.repo)
      && (w.title == None || TextMatches(w.title.value, t.title))
      && (w.body == None || TextMatches(w.body.value, t.body))
  {
  }

  predicate ScalarFits(m: Option<ScalarMatcher>, candidate: string) {
    && (m.Some? && m.value.Eq? ==> candidate == m.value.value)
    && (m.Some? && m.value.Not? ==> candidate != m.value.value)
    && (m.Some? && m.value.In? ==> exists i :: 0 <= i < |m.value.values| && m.value.values[i] == candidate)
  }

  predicate FirstFits(entries: seq<RuleEntry>, t: Ticket, e: RuleEntry) {
    exists i :: 0 <= i < |entries| && entries[i] == e && Matches(e.clause, t) && forall j | 0 <= j < i :: !Matches(entries[j].clause, t)
  }

  predicate NoneFits(entries: seq<RuleEntry>, t: Ticket) {
    forall e <- entries :: !Matches(e.clause, t)
  }

  // The lists of an override replace both top-level lists for its repository. The
  // first fitting cleanup decides, and is an immediate delete when its machine has no
  // states and starts at success; rules come after the cleanups, and not at all in
  // the mode for cleanups only.
  lemma EvaluateExactly(t: Ticket, wf: Workflow, mode: Mode)
    ensures var lists := if t.seen.repo in wf.repoOverrides then wf.repoOverrides[t.seen.repo] else wf.top;
      match Evaluate(t, wf, mode)
      case CleanupShorthand => exists e :: FirstFits(lists.cleanups, t, e) && e.stateMachine.states == map[] && e.stateMachine.start == "__success__"
      case CleanupCycle(e) => FirstFits(lists.cleanups, t, e) && !(e.stateMachine.states == map[] && e.stateMachine.start == "__success__")
      case RuleCycle(e) => mode == Default && NoneFits(lists.cleanups, t) && FirstFits(lists.rules, t, e)
      case NoMatch => NoneFits(lists.cleanups, t) && (mode == CleanupOnly || NoneFits(lists.rules, t))
  {
    var lists := EntriesFor(wf, t.seen.repo);
    hide Matches;
    var cleanup, rule := FirstMatch(lists.cleanups, t), FirstMatch(lists.rules, t);
    assert cleanup.Some? ==> FirstFits(lists.cleanups, t, cleanup.value);
    assert rule.Some? ==> FirstFits(lists.rules, t, rule.value);
  }

  // ---- the cache is enough -----------------------------------------------------

  // A text matcher the empty text cannot tell from any other.
  predicate TextBlind(m: Option<TextMatcher>) {
    m.Some? ==> m.value.pattern == ""
  }

  predicate EntryBlind(e: RuleEntry) {
    e.clause.Some? ==> TextBlind(e.clause.value.title) && TextBlind(e.clause.value.body)
  }

  // No title or body matcher asks for anything.
  ghost predicate TextFree(wf: Workflow, repo: string) {
    forall e | e in EntriesFor(wf, repo).cleanups || e in EntriesFor(wf, repo).rules :: EntryBlind(e)
  }

  // A matcher answers alike on every text exactly when its pattern is empty.
  lemma BlindExactly(m: TextMatcher)
    ensures (forall text :: TextMatches(m, text) == TextMatches(m, "")) <==> m.pattern == ""
  {
    if m.pattern == "" {
      forall text ensures TextMatches(m, text) == TextMatches(m, "") {
        assert OccursAt(m.pattern, text, 0) && OccursAt(m.pattern, "", 0);
      }
    } else {
      assert OccursAt(m.pattern, m.pattern, 0);
      assert TextMatches(m, m.pattern) && !TextMatches(m, "");
    }
  }

  ghost predicate SameSeen(t: Ticket, u: Ticket) {
    && t.seen.repo == u.seen.repo && t.seen.status == u.seen.status
    && t.seen.assignee.GetOr("") == u.seen.assignee.GetOr("")
    && forall l :: l in t.seen.labels <==> l in u.seen.labels
  }

  lemma SameMatch(e: RuleEntry, t: Ticket, u: Ticket)
    requires EntryBlind(e) && SameSeen(t, u)
    ensures Matches(e.clause, t) == Matches(e.clause, u)
  {
    if e.clause.Some? {
      var w := e.clause.value;
      if w.title.Some? { BlindExactly(w.title.value); }
      if w.body.Some? { BlindExactly(w.body.value); }
      hide TextMatches;
    }
  }

  lemma {:induction false} SameFirst(entries: seq<RuleEntry>, t: Ticket, u: Ticket)
    requires (forall e <- entries :: EntryBlind(e)) && SameSeen(t, u)
    ensures FirstMatch(entries, t) == FirstMatch(entries, u)
  {
    if entries == [] {
    } else {
      SameMatch(entries[0], t, u);
      hide Matches, SameSeen, EntryBlind;
      SameFirst(entries[1..], t, u);
    }
  }

  lemma SameTarget(t: Ticket, u: Ticket, wf: Workflow, mode: Mode)
    requires TextFree(wf, t.seen.repo) && SameSeen(t, u)
    ensures Evaluate(t, wf, mode) == Evaluate(u, wf, mode)
  {
    assert EntriesFor(wf, t.seen.repo) == EntriesFor(wf, u.seen.repo);
    SameFirst(EntriesFor(wf, t.seen.repo).cleanups, t, u);
    SameFirst(EntriesFor(wf, t.seen.repo).rules, t, u);
    hide FirstMatch;
  }

  // Skipping an unchanged webhook is sound: what the cache knows of a ticket sends
  // it where the ticket itself would go, whatever the order and repetition of its
  // labels and with or without an assignee.
  lemma CacheDispatchAgrees(c: Entries, t: Ticket, wf: Workflow, mode: Mode)
    requires Known(c, t.seen) && c[t.seen.id].repo == t.seen.repo && TextFree(wf, t.seen.repo)
    ensures EvaluateFromCache(t.seen.id, c[t.seen.id], wf, mode) == Evaluate(t, wf, mode)
  {
    var s := Synthetic(t.seen.id, c[t.seen.id]);
    assert TrackedOf(c[t.seen.id]).1 == Tracked(t.seen).1;
    forall l ensures l in t.seen.labels <==> l in s.seen.labels {
      assert l in Tracked(t.seen).1 <==> l in t.seen.labels;
    }
    SameTarget(t, s, wf, mode);
  }

  // So two webhooks of which the second is skipped go to the same place.
  lemma UnchangedSameTarget(c: Entries, t: Ticket, u: Ticket, wf: Workflow, mode: Mode)
    requires t.seen.id == u.seen.id && t.seen.repo == u.seen.repo && TextFree(wf, t.seen.repo)
    requires Known(Written(c, t.seen), u.seen)
    ensures Evaluate(t, wf, mode) == Evaluate(u, wf, mode)
  {
    WrittenIsKnown(c, t.seen, u.seen);
    SameTarget(t, u, wf, mode);
  }

  // With a title matcher it is not: the task cannot see the title, and every
  // ticket that only the title sends somewhere is dispatched nowhere.
  lemma TitleIsLost(t: Ticket, e: Entry, pattern: string, sm: StateMachine)
    requires pattern != "" && Occurs(pattern, t.title)
    ensures var rule := RuleEntry(Some(WhenClause(None, None, None, None, Some(Contains(pattern)), None)), sm);
      var wf := Workflow(RuleSet([rule], []), map[]);
      Evaluate(t, wf, Default) == RuleCycle(rule) && EvaluateFromCache(t.seen.id, e, wf, Default) == NoMatch
  {
  }

  // ---- the cold-start status filter --------------------------------------------

  datatype Dropped = Dropped(source: Option<string>, index: nat)

  // The statuses an entry names; None when it says nothing or says `not`.
  function Explicit(e: RuleEntry): Option<set<string>> {
    if e.clause.None? || e.clause.value.status.None? then None
    else match e.clause.value.status.value
      case Eq(s) => Some({s})
      case In(values) => Some(set v | v in values)
      case Not(_) => None
  }

  function Named(entries: seq<RuleEntry>): set<string> {
    if entries == [] then {}
    else Named(entries[..|entries| - 1]) + Explicit(entries[|entries| - 1]).GetOr({})
  }

  // The top-level lists and then every override, in key order.
  function Sources(wf: Workflow): seq<(Option<string>, RuleSet)> {
    [(None, wf.top)] + Overrides(wf.repoOverrides, Sorted(wf.repoOverrides.Keys))
  }

  function Overrides(m: map<string, RuleSet>, keys: seq<string>): seq<(Option<string>, RuleSet)>
    requires forall k <- keys :: k in m
  {
    if keys == [] then [] else [(Some(keys[0]), m[keys[0]])] + Overrides(m, keys[1..])
  }

  function NamedBy(sources: seq<(Option<string>, RuleSet)>): set<string> {
    if sources == [] then {}
    else
      var lists := sources[|sources| - 1].1;
      NamedBy(sources[..|sources| - 1]) + Named(lists.rules) + Named(lists.cleanups)
  }

  // The cleanup at this place names no status, and no cleanup before it does so.
  predicate FirstDropped(sources: seq<(Option<string>, RuleSet)>, i: nat, d: Dropped) {
    && i < |sources| && d.source == sources[i].0
    && d.index < |sources[i].1.cleanups| && Explicit(sources[i].1.cleanups[d.index]).None?
    && (forall k | 0 <= k < d.index :: Explicit(sources[i].1.cleanups[k]).Some?)
    && AllExplicit(sources[..i])
  }

  predicate AllExplicit(sources: seq<(Option<string>, RuleSet)>) {
    forall s <- sources :: forall c <- s.1.cleanups :: Explicit(c).Some?
  }

  method AddStatuses(entries: seq<RuleEntry>, union: set<string>) returns (all: set<string>)
    ensures all == union + Named(entries)
  {
    all := union;
    for i := 0 to |entries|
      invariant all == union + Named(entries[..i])
    {
      assert entries[..i + 1][..i] == entries[..i];
      if entries[i].clause.None? { continue; }
      var w := entries[i].clause.value;
      if w.status.None? { continue; }
      match w.status.value {
        case Eq(s) => all := all + {s};
        case In(values) => all := all + set v | v in values;
        case Not(_) =>
      }
    }
    assert entries[..|entries|] == entries;
  }

  method AddCleanups(cleanups: seq<RuleEntry>, union: set<string>) returns (all: set<string>, unnamed: Option<nat>)
    ensures unnamed.None? ==> all == union + Named(cleanups) && forall c <- cleanups :: Explicit(c).Some?
    ensures unnamed.Some? ==>
      && unnamed.value < |cleanups| && Explicit(cleanups[unnamed.value]).None?
      && forall k | 0 <= k < unnamed.value :: Explicit(cleanups[k]).Some?
  {
    all := union;
    for k := 0 to |cleanups|
      invariant all == union + Named(cleanups[..k])
      invariant forall j | 0 <= j < k :: Explicit(cleanups[j]).Some?
    {
      assert cleanups[..k + 1][..k] == cleanups[..k];
      var status := if cleanups[k].clause.None? then None else cleanups[k].clause.value.status;
      match status {
        case Some(Eq(s)) => all := all + {s};
        case Some(In(values)) => all := all + set v | v in values;
        case _ => return all, Some(k);
      }
    }
    assert cleanups[..|cleanups|] == cleanups;
    return all, None;
  }

  lemma SourcesNext(sources: seq<(Option<string>, RuleSet)>, i: nat)
    requires i < |sources|
    ensures NamedBy(sources[..i + 1]) == NamedBy(sources[..i]) + Named(sources[i].1.rules) + Named(sources[i].1.cleanups)
    ensures AllExplicit(sources[..i + 1]) <==> AllExplicit(sources[..i]) && forall c <- sources[i].1.cleanups :: Explicit(c).Some?
  {
    hide Named, Explicit;
    assert sources[..i + 1][..i] == sources[..i] && sources[..i + 1] == sources[..i] + [sources[i]];
  }

  // Every explicit status of every entry, unless some cleanup names none: then
  // the filter is given up, and the first such cleanup reported.
  method ComputeStatusUnion(wf: Workflow) returns (union: set<string>, dropped: Option<Dropped>)
    ensures dropped.None? ==> union == NamedBy(Sources(wf)) && AllExplicit(Sources(wf))
    ensures dropped.Some? ==> union == {} && exists i :: FirstDropped(Sources(wf), i, dropped.value)
  {
    var sources := Sources(wf);
    union := {};
    hide Named, Explicit, Sources;
    for i := 0 to |sources|
      invariant union == NamedBy(sources[..i]) && AllExplicit(sources[..i])
    {
      SourcesNext(sources, i);
      hide NamedBy, AllExplicit;
      union := AddStatuses(sources[i].1.rules, union);
      var unnamed;
      union, unnamed := AddCleanups(sources[i].1.cleanups, union);
      if unnamed.Some? {
        assert FirstDropped(sources, i, Dropped(sources[i].0, unnamed.value));
        return {}, Some(Dropped(sources[i].0, unnamed.value));
      }
    }
    assert sources[..|sources|] == sources;
    return union, None;
  }

  // ---- the filter loses nothing it answers for ---------------------------------

  // An empty union is sent as no filter at all.
  predicate Enumerated(union: set<string>, status: string) {
    union == {} || status in union
  }

  lemma {:induction false} NamedHas(entries: seq<RuleEntry>, e: RuleEntry, s: string)
    requires e in entries && Explicit(e).Some? && s in Explicit(e).value
    ensures s in Named(entries)
  {
    if e != entries[|entries| - 1] {
      assert entries == entries[..|entries| - 1] + [entries[|entries| - 1]];
      NamedHas(entries[..|entries| - 1], e, s);
    }
  }

  lemma {:induction false} NamedByHas(sources: seq<(Option<string>, RuleSet)>, i: nat, s: string)
    requires i < |sources| && (s in Named(sources[i].1.rules) || s in Named(sources[i].1.cleanups))
    ensures s in NamedBy(sources)
  {
    if i < |sources| - 1 { NamedByHas(sources[..|sources| - 1], i, s); }
  }

  lemma {:induction false} OverrideAt(m: map<string, RuleSet>, keys: seq<string>, k: string) returns (i: nat)
    requires (forall x <- keys :: x in m) && k in keys
    ensures i < |Overrides(m, keys)| && Overrides(m, keys)[i] == (Some(k), m[k])
  {
    if keys[0] == k {
      i := 0;
    } else {
      i := OverrideAt(m, keys[1..], k);
      i := i + 1;
    }
  }

  // The lists that dispatch uses for a repository are one of the sources.
  lemma SourceOf(wf: Workflow, repo: string) returns (i: nat)
    ensures i < |Sources(wf)| && Sources(wf)[i].1 == EntriesFor(wf, repo)
  {
    if repo in wf.repoOverrides {
      i := OverrideAt(wf.repoOverrides, Sorted(wf.repoOverrides.Keys), repo);
      i := i + 1;
    } else {
      i := 0;
    }
  }

  lemma MatchIsNamed(entries: seq<RuleEntry>, t: Ticket)
    requires var r := FirstMatch(entries, t); r.Some? && Explicit(r.value).Some?
    ensures t.seen.status in Named(entries)
  {
    var r := FirstMatch(entries, t);
    assert r.value in entries && t.seen.status in Explicit(r.value).value;
    NamedHas(entries, r.value, t.seen.status);
  }

  // Whatever the union and whatever the repository: a ticket that dispatch would
  // send to a cleanup, or to a rule with an explicit status, is enumerated.
  lemma FilterKeepsExplicit(wf: Workflow, t: Ticket, mode: Mode, union: set<string>)
    requires union == {} || (union == NamedBy(Sources(wf)) && AllExplicit(Sources(wf)))
    requires var target := Evaluate(t, wf, mode);
      target.CleanupShorthand? || target.CleanupCycle? || (target.RuleCycle? && Explicit(target.entry).Some?)
    ensures Enumerated(union, t.seen.status)
  {
    if union != {} {
      var entries := EntriesFor(wf, t.seen.repo);
      var i := SourceOf(wf, t.seen.repo);
      hide Explicit, Matches, Sources, Named;
      var cleanup := FirstMatch(entries.cleanups, t);
      if cleanup.Some? {
        assert Sources(wf)[i] in Sources(wf) && cleanup.value in entries.cleanups;
        MatchIsNamed(entries.cleanups, t);
      } else {
        MatchIsNamed(entries.rules, t);
      }
      NamedByHas(Sources(wf), i, t.seen.status);
    }
  }

  // Which tickets the filter misses, exactly: those in another status that some
  // rule of the repository without an explicit status would match.
  lemma FilterMissesExactly(wf: Workflow, t: Ticket, union: set<string>)
    requires union == {} || (union == NamedBy(Sources(wf)) && AllExplicit(Sources(wf)))
    ensures Evaluate(t, wf, Default) != NoMatch && !Enumerated(union, t.seen.status)
            <==> (union != {} && t.seen.status !in union && exists e <- EntriesFor(wf, t.seen.repo).rules :: Explicit(e).None? && Matches(e.clause, t))
  {
    var entries := EntriesFor(wf, t.seen.repo);
    var target := Evaluate(t, wf, Default);
    if union != {} && t.seen.status !in union {
      if target.CleanupShorthand? || target.CleanupCycle? || (target.RuleCycle? && Explicit(target.entry).Some?) {
        FilterKeepsExplicit(wf, t, Default, union);
      }
      hide Sources, NamedBy, AllExplicit, Explicit, Matches;
      assert target.RuleCycle? ==> target.entry in entries.rules && Matches(target.entry.clause, t);
      if e :| e in entries.rules && Explicit(e).None? && Matches(e.clause, t) {
        assert FirstMatch(entries.rules, t).Some?;
      }
    }
  }

  // So next to a rule that names a status, a rule that names none gets no ticket
  // in another status from cold start.
  lemma AnyStatusRuleMissed(t: Ticket, named: string, sm: StateMachine)
    requires t.seen.status != named
    ensures var open, busy := RuleEntry(None, sm), RuleEntry(Some(WhenClause(Some(Eq(named)), None, None, None, None, None)), sm);
      var wf := Workflow(RuleSet([busy, open], []), map[]);
      && Evaluate(t, wf, Default) == RuleCycle(open)
      && AllExplicit(Sources(wf)) && !Enumerated(NamedBy(Sources(wf)), t.seen.status)
  {
    var open, busy := RuleEntry(None, sm), RuleEntry(Some(WhenClause(Some(Eq(named)), None, None, None, None, None)), sm);
    var top := RuleSet([busy, open], []);
    OneSource(top);
    SecondWins(t, busy, open);
    NamedTwo(busy, open, named);
    assert Named([]) == {};
    hide Evaluate, Sources, Named, Explicit;
    var sources: seq<(Option<string>, RuleSet)> := [(None, top)];
    assert sources[..0] == [] && NamedBy(sources[..0]) == {};
    assert NamedBy(sources) == {named};
  }

  lemma SecondWins(t: Ticket, first: RuleEntry, second: RuleEntry)
    requires !Matches(first.clause, t) && Matches(second.clause, t)
    ensures Evaluate(t, Workflow(RuleSet([first, second], []), map[]), Default) == RuleCycle(second)
  {
  }

  lemma OneSource(top: RuleSet)
    ensures Sources(Workflow(top, map[])) == [(None, top)]
  {
  }

  lemma NamedTwo(busy: RuleEntry, open: RuleEntry, named: string)
    requires Explicit(busy) == Some({named}) && Explicit(open) == None
    ensures Named([busy, open]) == {named}
  {
    hide Explicit;
    assert [busy, open][..1] == [busy] && [busy][..0] == [];
    assert Named([busy]) == {named};
  }
}
