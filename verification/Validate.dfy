// The checker every expanded workflow must pass: it collects all violations of
// every rule's machine before it reports.
module Validate {
  import opened Common
  import opened Graph
  import opened Canonical
  import opened TarjanView
  import opened Tarjan
  import opened CycleBounds
  import opened Durations

  datatype ValidationError =
    | UnknownEdgeTarget(ruleIdx: nat, stateId: StateId, target: StateId)
    | OrphanBody(ruleIdx: nat, stateId: StateId)
    | ReservedPrefixState(ruleIdx: nat, stateId: StateId)
    | UnboundedCycle(ruleIdx: nat, stateIds: seq<StateId>)
    | EmptyTerminalOutcome(ruleIdx: nat, terminalId: StateId)
    | InvalidStartReference(ruleIdx: nat, start: StateId)
    | StateIdNotEnvSafe(ruleIdx: nat, stateId: StateId)

  datatype WorkflowFile = WorkflowFile(rules: seq<StateMachine>, cleanup: seq<StateMachine>, onFailure: seq<StateMachine>)

  // ---- the declarative rules ---------------------------------------------------

  predicate IsAsciiLetter(c: char) {
    'a' <= c <= 'z' || 'A' <= c <= 'Z'
  }

  predicate IsEnvSafeId(id: string) {
    id != "" && IsAsciiLetter(id[0]) && forall c <- id[1..] :: IsAsciiLetter(c) || '0' <= c <= '9' || c == '_'
  }

  predicate HasReservedPrefix(id: string) {
    |id| >= 2 && id[0] == '_' && id[1] == '_'
  }

  predicate BodyIsOrphan(b: StateBody) {
    match b
    case Run(cmd) => Blank(cmd)
    case Uses(path) => path == ""
  }

  predicate Declared(sm: StateMachine, id: StateId) {
    id in sm.states || id in sm.terminals
  }

  // A machine starts at one of its states, and not at a terminal; the cleanup
  // shorthand, which has no states, starts at a terminal.
  predicate StartOk(sm: StateMachine) {
    if sm.states == map[] && sm.start in sm.terminals then true
    else sm.start in sm.states && sm.start !in sm.terminals
  }

  ghost predicate WellFormed(sm: StateMachine) {
    && StartOk(sm)
    && (forall id | id in sm.states ::
      && !HasReservedPrefix(id) && IsEnvSafeId(id)
      && !BodyIsOrphan(sm.states[id].body)
      && (forall t | t in Targets(sm.states[id]) :: Declared(sm, t.id)))
    && (forall id | id in sm.terminals :: !Blank(sm.terminals[id].outcome))
    && CyclesBounded(sm)
  }

  lemma EnvSafeExactly(id: string)
    ensures IsEnvSafeId(id) <==> id != "" && forall i | 0 <= i < |id| :: PlainAt(id, i)
  {
    if id != "" {
      assert forall i | 0 < i < |id| :: id[i] == id[1..][i - 1];
      assert forall i | 0 <= i < |id[1..]| :: id[1..][i] == id[i + 1] && PlainAt(id, i + 1) == (IsAsciiLetter(id[i + 1]) || '0' <= id[i + 1] <= '9' || id[i + 1] == '_');
      assert PlainAt(id, 0) == IsAsciiLetter(id[0]);
    }
  }

  // A letter, or after the first place a digit or an underscore.
  predicate PlainAt(id: string, i: nat)
    requires i < |id|
  {
    'a' <= id[i] <= 'z' || 'A' <= id[i] <= 'Z' || (i > 0 && ('0' <= id[i] <= '9' || id[i] == '_'))
  }

  // The rules in full. A machine starts at a state that is no terminal, or has no
  // states and starts at a terminal; ids are letters, digits and underscores after a
  // letter, which shuts out the reserved prefix; a command is not blank and a path not
  // empty; every written target is declared; an outcome is not blank; and every
  // cycle has a state that may be visited again.
  lemma WellFormedExactly(sm: StateMachine)
    ensures WellFormed(sm) <==>
      && ((sm.start in sm.states && sm.start !in sm.terminals) || (sm.states == map[] && sm.start in sm.terminals))
      && (forall id | id in sm.states :: StateExactly(sm, id, sm.states[id]))
      && (forall id | id in sm.terminals :: exists c :: c in sm.terminals[id].outcome && !IsWhitespace(c))
      && CyclesBounded(sm)
  {
    hide CyclesBounded, IsEnvSafeId, IsWhitespace, PlainAt;
    forall id | id in sm.states
      ensures StateExactly(sm, id, sm.states[id]) <==>
        && !HasReservedPrefix(id) && IsEnvSafeId(id) && !BodyIsOrphan(sm.states[id].body)
        && (forall t | t in Targets(sm.states[id]) :: Declared(sm, t.id))
    {
      EnvSafeExactly(id);
      LetterFirst(id);
    }
  }

  lemma LetterFirst(id: string)
    ensures IsEnvSafeId(id) ==> !HasReservedPrefix(id)
  {
  }

  ghost predicate StateExactly(sm: StateMachine, id: StateId, s: State) {
    && id != "" && (forall i | 0 <= i < |id| :: PlainAt(id, i))
    && (s.body.Run? ==> exists c :: c in s.body.cmd && !IsWhitespace(c))
    && (s.body.Uses? ==> s.body.path != "")
    && (s.onDone.id in sm.states || s.onDone.id in sm.terminals)
    && (s.onFail.id in sm.states || s.onFail.id in sm.terminals)
    && (forall n | n in s.directives :: s.directives[n].id in sm.states || s.directives[n].id in sm.terminals)
  }

  // The errors each part of the check reports.
  ghost predicate EdgeViolation(sm: StateMachine, k: nat, s: State, e: ValidationError) {
    e.UnknownEdgeTarget? && e.ruleIdx == k && e.stateId == s.id && !Declared(sm, e.target) && exists t :: t in Targets(s) && t.id == e.target
  }

  ghost predicate StateViolation(sm: StateMachine, k: nat, id: StateId, e: ValidationError)
    requires id in sm.states
  {
    || (HasReservedPrefix(id) && e == ReservedPrefixState(k, id))
    || (!HasReservedPrefix(id) && !IsEnvSafeId(id) && e == StateIdNotEnvSafe(k, id))
    || (BodyIsOrphan(sm.states[id].body) && e == OrphanBody(k, sm.states[id].id))
    || EdgeViolation(sm, k, sm.states[id], e)
  }

  ghost predicate TerminalViolation(sm: StateMachine, k: nat, id: StateId, e: ValidationError)
    requires id in sm.terminals
  {
    Blank(sm.terminals[id].outcome) && e == EmptyTerminalOutcome(k, id)
  }

  ghost predicate CycleViolation(sm: StateMachine, k: nat, id: StateId, e: ValidationError)
    requires id in sm.states
  {
    OnCycle(StateEdges(sm), id) && !HasBound(sm, id) && e == UnboundedCycle(k, Sorted(Class(sm, id)))
  }

  ghost predicate SomeState(sm: StateMachine, k: nat, ids: set<StateId>, e: ValidationError) {
    exists id :: id in ids && id in sm.states && StateViolation(sm, k, id, e)
  }

  ghost predicate SomeTerminal(sm: StateMachine, k: nat, ids: set<StateId>, e: ValidationError) {
    exists id :: id in ids && id in sm.terminals && TerminalViolation(sm, k, id, e)
  }

  ghost predicate SomeCycle(sm: StateMachine, k: nat, ids: set<StateId>, e: ValidationError) {
    exists id :: id in ids && id in sm.states && CycleViolation(sm, k, id, e)
  }

  ghost predicate StartViolation(sm: StateMachine, k: nat, e: ValidationError) {
    !StartOk(sm) && e == InvalidStartReference(k, sm.start)
  }

  ghost predicate Violation(sm: StateMachine, k: nat, e: ValidationError) {
    || StartViolation(sm, k, e)
    || SomeState(sm, k, sm.states.Keys, e)
    || SomeTerminal(sm, k, sm.terminals.Keys, e)
    || SomeCycle(sm, k, sm.states.Keys, e)
  }

  predicate StartsRight(sm: StateMachine) {
    (sm.start in sm.states && sm.start !in sm.terminals) || (sm.states == map[] && sm.start in sm.terminals)
  }

  ghost predicate Empty(b: StateBody) {
    if b.Run? then forall c <- b.cmd :: IsWhitespace(c) else b.path == ""
  }

  ghost predicate LeadsTo(s: State, t: StateId) {
    s.onDone.id == t || s.onFail.id == t || exists n :: n in s.directives && s.directives[n].id == t
  }

  // What an error stands for, case by case.
  ghost predicate Reason(sm: StateMachine, e: ValidationError) {
    match e
    case UnknownEdgeTarget(_, s, t) =>
      exists id :: id in sm.states && sm.states[id].id == s && LeadsTo(sm.states[id], t) && t !in sm.states && t !in sm.terminals
    case OrphanBody(_, s) => exists id :: id in sm.states && sm.states[id].id == s && Empty(sm.states[id].body)
    case ReservedPrefixState(_, s) => s in sm.states && "__" <= s
    case StateIdNotEnvSafe(_, s) => s in sm.states && !("__" <= s) && (s == "" || exists i :: 0 <= i < |s| && !PlainAt(s, i))
    case UnboundedCycle(_, ids) =>
      exists id :: id in sm.states && OnCycle(StateEdges(sm), id) && !HasBound(sm, id) && ids == Sorted(Class(sm, id))
    case EmptyTerminalOutcome(_, t) => t in sm.terminals && forall c <- sm.terminals[t].outcome :: IsWhitespace(c)
    case InvalidStartReference(_, start) => start == sm.start && !StartsRight(sm)
  }

  // The checker reports an error exactly where there is that reason for it; a
  // reserved id is reported as that, and not as an unsafe one.
  lemma ViolationExactly(sm: StateMachine, k: nat, e: ValidationError)
    ensures Violation(sm, k, e) <==> e.ruleIdx == k && Reason(sm, e)
  {
    hide IsEnvSafeId, IsWhitespace, PlainAt, OnCycle, HasBound, Class, Sorted, StateEdges;
    match e {
      case UnknownEdgeTarget(_, s, t) =>
        forall id | id in sm.states ensures (exists u :: u in Targets(sm.states[id]) && u.id == t) <==> LeadsTo(sm.states[id], t) {
          LeadsExactly(sm.states[id], t);
        }
        hide Targets, LeadsTo;
      case ReservedPrefixState(_, s) => PrefixExactly(s);
      case StateIdNotEnvSafe(_, s) => PrefixExactly(s); EnvSafeExactly(s);
      case _ =>
    }
  }

  lemma PrefixExactly(id: string)
    ensures HasReservedPrefix(id) <==> "__" <= id
  {
  }

  lemma LeadsExactly(s: State, t: StateId)
    ensures (exists u :: u in Targets(s) && u.id == t) <==> LeadsTo(s, t)
  {
    assert s.onDone in Targets(s) && s.onFail in Targets(s);
    if n :| n in s.directives && s.directives[n].id == t { assert s.directives[n] in Targets(s); }
  }

  // Reporting nothing is exactly being well formed.
  lemma NoViolationIff(sm: StateMachine, k: nat)
    ensures (forall e :: !Violation(sm, k, e)) <==> WellFormed(sm)
  {
    if !WellFormed(sm) {
      if !StartOk(sm) {
        assert Violation(sm, k, InvalidStartReference(k, sm.start));
      } else if !CyclesBounded(sm) {
        var id :| id in sm.states && OnCycle(StateEdges(sm), id) && !HasBound(sm, id);
        var e := UnboundedCycle(k, Sorted(Class(sm, id)));
        assert CycleViolation(sm, k, id, e);
        assert Violation(sm, k, e);
      } else if id :| id in sm.terminals && Blank(sm.terminals[id].outcome) {
        assert TerminalViolation(sm, k, id, EmptyTerminalOutcome(k, id));
        assert Violation(sm, k, EmptyTerminalOutcome(k, id));
      } else {
        var id :| id in sm.states && !(
          && !HasReservedPrefix(id) && IsEnvSafeId(id)
          && !BodyIsOrphan(sm.states[id].body)
          && (forall t | t in Targets(sm.states[id]) :: Declared(sm, t.id)));
        StateReported(sm, k, id);
      }
    }
  }

  lemma StateReported(sm: StateMachine, k: nat, id: StateId)
    requires id in sm.states
    requires HasReservedPrefix(id) || !IsEnvSafeId(id) || BodyIsOrphan(sm.states[id].body)
      || exists t :: t in Targets(sm.states[id]) && !Declared(sm, t.id)
    ensures exists e :: Violation(sm, k, e)
  {
    var e :=
      if HasReservedPrefix(id) then ReservedPrefixState(k, id)
      else if !IsEnvSafeId(id) then StateIdNotEnvSafe(k, id)
      else if BodyIsOrphan(sm.states[id].body) then OrphanBody(k, sm.states[id].id)
      else
        var t :| t in Targets(sm.states[id]) && !Declared(sm, t.id);
        UnknownEdgeTarget(k, sm.states[id].id, t.id);
    assert StateViolation(sm, k, id, e);
    assert Violation(sm, k, e);
  }

  // ---- the checker -----------------------------------------------------------------

  method ValidateStart(sm: StateMachine, k: nat, before: seq<ValidationError>) returns (errors: seq<ValidationError>)
    ensures forall e :: e in errors <==> e in before || StartViolation(sm, k, e)
  {
    errors := before;
    if sm.states == map[] && sm.start in sm.terminals {
      return;
    }
    if sm.start !in sm.states || sm.start in sm.terminals {
      errors := errors + [InvalidStartReference(k, sm.start)];
    }
  }

  method ValidateStateId(id: StateId, k: nat, before: seq<ValidationError>) returns (errors: seq<ValidationError>)
    ensures forall e :: e in errors <==> (
      || e in before
      || (HasReservedPrefix(id) && e == ReservedPrefixState(k, id))
      || (!HasReservedPrefix(id) && !IsEnvSafeId(id) && e == StateIdNotEnvSafe(k, id)))
  {
    errors := before;
    if HasReservedPrefix(id) {
      errors := errors + [ReservedPrefixState(k, id)];
      return;
    }
    if !IsEnvSafeId(id) {
      errors := errors + [StateIdNotEnvSafe(k, id)];
    }
  }

  method ValidateStateBody(state: State, k: nat, before: seq<ValidationError>) returns (errors: seq<ValidationError>)
    ensures forall e :: e in errors <==> e in before || (BodyIsOrphan(state.body) && e == OrphanBody(k, state.id))
  {
    errors := before;
    if BodyIsOrphan(state.body) {
      errors := errors + [OrphanBody(k, state.id)];
    }
  }

  method CheckTarget(t: EdgeTarget, sm: StateMachine, k: nat, stateId: StateId, before: seq<ValidationError>)
    returns (errors: seq<ValidationError>)
    ensures forall e :: e in errors <==> e in before || (!Declared(sm, t.id) && e == UnknownEdgeTarget(k, stateId, t.id))
  {
    errors := before;
    if t.id !in sm.states && t.id !in sm.terminals {
      errors := errors + [UnknownEdgeTarget(k, stateId, t.id)];
    }
  }

  ghost predicate EdgeSeen(sm: StateMachine, k: nat, stateId: StateId, ts: seq<EdgeTarget>, n: nat, e: ValidationError) {
    exists i :: 0 <= i < n && i < |ts| && !Declared(sm, ts[i].id) && e == UnknownEdgeTarget(k, stateId, ts[i].id)
  }

  method ValidateStateEdges(sm: StateMachine, state: State, k: nat, before: seq<ValidationError>)
    returns (errors: seq<ValidationError>)
    ensures forall e :: e in errors <==> e in before || EdgeViolation(sm, k, state, e)
  {
    hide TargetList, Targets;
    var targets := TargetList(state);
    errors := before;
    for i := 0 to |targets|
      invariant forall e :: e in errors <==> e in before || EdgeSeen(sm, k, state.id, targets, i, e)
    {
      EdgeSeenNext(sm, k, state.id, targets, i);
      errors := CheckTarget(targets[i], sm, k, state.id, errors);
    }
    EdgesAllSeen(sm, k, state, targets);
  }

  lemma EdgeSeenNext(sm: StateMachine, k: nat, stateId: StateId, ts: seq<EdgeTarget>, n: nat)
    requires n < |ts|
    ensures forall e :: EdgeSeen(sm, k, stateId, ts, n + 1, e) <==>
      EdgeSeen(sm, k, stateId, ts, n, e) || (!Declared(sm, ts[n].id) && e == UnknownEdgeTarget(k, stateId, ts[n].id))
  {
    forall e | EdgeSeen(sm, k, stateId, ts, n + 1, e)
      ensures EdgeSeen(sm, k, stateId, ts, n, e) || (!Declared(sm, ts[n].id) && e == UnknownEdgeTarget(k, stateId, ts[n].id))
    {
      var i :| 0 <= i < n + 1 && i < |ts| && !Declared(sm, ts[i].id) && e == UnknownEdgeTarget(k, stateId, ts[i].id);
    }
  }

  lemma EdgesAllSeen(sm: StateMachine, k: nat, s: State, ts: seq<EdgeTarget>)
    requires forall t :: t in ts <==> t in Targets(s)
    ensures forall e :: EdgeSeen(sm, k, s.id, ts, |ts|, e) <==> EdgeViolation(sm, k, s, e)
  {
  }

  // The errors found so far among the terminals in `seen`.
  ghost predicate TerminalsSeen(sm: StateMachine, k: nat, before: seq<ValidationError>, seen: set<StateId>, errors: seq<ValidationError>) {
    forall e :: e in errors <==> e in before || SomeTerminal(sm, k, seen, e)
  }

  method ValidateTerminals(sm: StateMachine, k: nat, before: seq<ValidationError>) returns (errors: seq<ValidationError>)
    ensures forall e :: e in errors <==> e in before || SomeTerminal(sm, k, sm.terminals.Keys, e)
  {
    hide LexLeq, SomeTerminal;
    var ids := Sorted(sm.terminals.Keys);
    errors := before;
    TerminalSteps(sm, k, {}, "");
    for i := 0 to |ids|
      invariant TerminalsSeen(sm, k, before, Taken(ids, i), errors)
    {
      TerminalLooked(sm, k, before, Taken(ids, i), errors, ids[i]);
      if Blank(sm.terminals[ids[i]].outcome) {
        errors := errors + [EmptyTerminalOutcome(k, ids[i])];
      }
    }
    TakenAll(ids, sm.terminals.Keys);
  }

  lemma TerminalLooked(sm: StateMachine, k: nat, before: seq<ValidationError>, seen: set<StateId>, errors: seq<ValidationError>, id: StateId)
    requires TerminalsSeen(sm, k, before, seen, errors) && id in sm.terminals
    ensures TerminalsSeen(sm, k, before, seen + {id}, if Blank(sm.terminals[id].outcome) then errors + [EmptyTerminalOutcome(k, id)] else errors)
  {
    TerminalSteps(sm, k, seen, id);
    hide SomeTerminal, Blank;
  }

  lemma TerminalSteps(sm: StateMachine, k: nat, seen: set<StateId>, id: StateId)
    ensures forall e :: !SomeTerminal(sm, k, {}, e)
    ensures id in sm.terminals ==>
      forall e :: SomeTerminal(sm, k, seen + {id}, e) <==> SomeTerminal(sm, k, seen, e) || TerminalViolation(sm, k, id, e)
  {
  }

  lemma StateSteps(sm: StateMachine, k: nat, seen: set<StateId>, id: StateId)
    ensures forall e :: !SomeState(sm, k, {}, e)
    ensures id in sm.states ==>
      forall e :: SomeState(sm, k, seen + {id}, e) <==> SomeState(sm, k, seen, e) || StateViolation(sm, k, id, e)
  {
  }

  method ValidateState(sm: StateMachine, k: nat, id: StateId, before: seq<ValidationError>) returns (errors: seq<ValidationError>)
    requires id in sm.states
    ensures forall e :: e in errors <==> e in before || StateViolation(sm, k, id, e)
  {
    hide EdgeViolation, HasReservedPrefix, IsEnvSafeId, BodyIsOrphan;
    errors := ValidateStateId(id, k, before);
    errors := ValidateStateBody(sm.states[id], k, errors);
    errors := ValidateStateEdges(sm, sm.states[id], k, errors);
  }

  method ValidateStates(sm: StateMachine, k: nat, before: seq<ValidationError>) returns (errors: seq<ValidationError>)
    ensures forall e :: e in errors <==> e in before || SomeState(sm, k, sm.states.Keys, e)
  {
    hide LexLeq, SomeState, StateViolation;
    var ids := Sorted(sm.states.Keys);
    errors := before;
    StateSteps(sm, k, {}, "");
    for i := 0 to |ids|
      invariant forall e :: e in errors <==> e in before || SomeState(sm, k, Taken(ids, i), e)
    {
      StateSteps(sm, k, Taken(ids, i), ids[i]);
      errors := ValidateState(sm, k, ids[i], errors);
    }
    TakenAll(ids, sm.states.Keys);
  }

  // A cyclic component none of whose members may be visited again.
  ghost predicate SccUnbounded(sm: StateMachine, c: seq<StateId>) {
    && (|c| >= 2 || (|c| == 1 && HasSelfEdge(sm, c[0])))
    && !(exists id :: id in c && id in sm.states && sm.states[id].maxVisits > 1)
  }

  method CheckScc(sm: StateMachine, k: nat, scc: seq<StateId>, before: seq<ValidationError>) returns (errors: seq<ValidationError>)
    ensures forall e :: e in errors <==> e in before || (SccUnbounded(sm, scc) && e == UnboundedCycle(k, Sorted(Members(scc))))
  {
    errors := before;
    var onCycle := |scc| >= 2 || (|scc| == 1 && HasSelfEdge(sm, scc[0]));
    if !onCycle {
      return;
    }
    var anyBound := exists id :: id in scc && id in sm.states && sm.states[id].maxVisits > 1;
    if !anyBound {
      errors := errors + [UnboundedCycle(k, Sorted(Members(scc)))];
    }
  }

  method ValidateCyclesBounded(sm: StateMachine, k: nat, before: seq<ValidationError>) returns (errors: seq<ValidationError>)
    ensures forall e :: e in errors <==> e in before || SomeCycle(sm, k, sm.states.Keys, e)
  {
    hide SomeCycle, CycleViolation, OnCycle, HasBound, IsClass, StateEdges, SccUnbounded, SccsOk;
    var sccs := TarjanScc(sm);
    errors := before;
    CycleNone(sm, k);
    for i := 0 to |sccs|
      invariant forall e :: e in errors <==> e in before || SomeCycle(sm, k, Union(sccs[..i]), e)
    {
      ClassReady(sm, sccs, i);
      CycleSteps(sm, k, Union(sccs[..i]), sccs[i]);
      errors := CheckScc(sm, k, sccs[i], errors);
    }
    assert sccs[..|sccs|] == sccs;
  }

  lemma CycleNone(sm: StateMachine, k: nat)
    ensures forall e :: !SomeCycle(sm, k, Union([]), e)
  {
  }

  // A component contributes one violation when it is cyclic and unbounded.
  lemma CycleSteps(sm: StateMachine, k: nat, seen: set<StateId>, c: seq<StateId>)
    requires c != [] && IsClass(StateEdges(sm), c) && forall y | y in c :: y in sm.states
    ensures forall e :: SomeCycle(sm, k, seen + Members(c), e) <==>
      SomeCycle(sm, k, seen, e) || (SccUnbounded(sm, c) && e == UnboundedCycle(k, Sorted(Members(c))))
  {
    forall x | x in c
      ensures Class(sm, x) == Members(c)
      ensures OnCycle(StateEdges(sm), x) <==> (|c| >= 2 || (|c| == 1 && HasSelfEdge(sm, c[0])))
      ensures HasBound(sm, x) <==> exists id :: id in c && id in sm.states && sm.states[id].maxVisits > 1
    {
      CyclicClass(StateEdges(sm), c, x);
      DeclaredIff(sm, c, x);
      if |c| == 1 { assert c == [c[0]]; }
    }
    CycleJoin(sm, k, seen, c);
  }

  lemma CycleJoin(sm: StateMachine, k: nat, seen: set<StateId>, c: seq<StateId>)
    requires c != [] && forall x | x in c :: x in sm.states && Class(sm, x) == Members(c)
    requires forall x | x in c :: OnCycle(StateEdges(sm), x) <==> OnCycle(StateEdges(sm), c[0])
    requires forall x | x in c :: HasBound(sm, x) <==> HasBound(sm, c[0])
    ensures forall e :: SomeCycle(sm, k, seen + Members(c), e) <==>
      SomeCycle(sm, k, seen, e) ||
      (OnCycle(StateEdges(sm), c[0]) && !HasBound(sm, c[0]) && e == UnboundedCycle(k, Sorted(Members(c))))
  {
  }

  method ValidateRule(sm: StateMachine, k: nat, before: seq<ValidationError>) returns (errors: seq<ValidationError>)
    ensures forall e :: e in errors <==> e in before || Violation(sm, k, e)
  {
    errors := ValidateStart(sm, k, before);
    errors := ValidateStates(sm, k, errors);
    errors := ValidateTerminals(sm, k, errors);
    errors := ValidateCyclesBounded(sm, k, errors);
  }

  ghost predicate FileViolation(ms: seq<StateMachine>, n: nat, e: ValidationError) {
    exists k :: 0 <= k < n && k < |ms| && Violation(ms[k], k, e)
  }

  // Rules are numbered across the three sections.
  ghost function Machines(file: WorkflowFile): seq<StateMachine> {
    file.rules + file.cleanup + file.onFailure
  }

  // The errors are the violations of all machines; their order is not kept.
  method Check(file: WorkflowFile) returns (errors: seq<ValidationError>)
    ensures forall e :: e in errors <==> FileViolation(Machines(file), |Machines(file)|, e)
    ensures errors == [] <==> forall sm | sm in Machines(file) :: WellFormed(sm)
  {
    ghost var ms := Machines(file);
    errors := ValidateSection(file.rules, ms, 0, []);
    errors := ValidateSection(file.cleanup, ms, |file.rules|, errors);
    errors := ValidateSection(file.onFailure, ms, |file.rules| + |file.cleanup|, errors);
    FileAccepted(ms, errors);
  }

  // One section, whose first rule has number `start`.
  method ValidateSection(section: seq<StateMachine>, ghost ms: seq<StateMachine>, start: nat, before: seq<ValidationError>)
    returns (errors: seq<ValidationError>)
    requires start + |section| <= |ms| && ms[start..start + |section|] == section
    requires forall e :: e in before <==> FileViolation(ms, start, e)
    ensures forall e :: e in errors <==> FileViolation(ms, start + |section|, e)
  {
    hide Violation;
    errors := before;
    for i := 0 to |section|
      invariant forall e :: e in errors <==> FileViolation(ms, start + i, e)
    {
      assert section[i] == ms[start + i];
      FileViolationNext(ms, start + i);
      errors := ValidateRule(section[i], start + i, errors);
    }
  }

  lemma FileViolationNext(ms: seq<StateMachine>, n: nat)
    requires n < |ms|
    ensures forall e :: FileViolation(ms, n + 1, e) <==> FileViolation(ms, n, e) || Violation(ms[n], n, e)
  {
  }

  lemma FileAccepted(ms: seq<StateMachine>, errors: seq<ValidationError>)
    requires forall e :: e in errors <==> FileViolation(ms, |ms|, e)
    ensures errors == [] <==> forall sm | sm in ms :: WellFormed(sm)
  {
    hide Violation, WellFormed;
    if errors == [] {
      forall sm | sm in ms ensures WellFormed(sm) {
        var k :| 0 <= k < |ms| && ms[k] == sm;
        NoViolationIff(sm, k);
        forall e ensures !Violation(sm, k, e) { assert !FileViolation(ms, |ms|, e); }
      }
    } else {
      var e := errors[0];
      assert FileViolation(ms, |ms|, e);
      var k :| 0 <= k < |ms| && Violation(ms[k], k, e);
      NoViolationIff(ms[k], k);
      assert ms[k] in ms;
    }
  }
}
