// Expansion of a rule body (a task list or a raw state map) into a canonical
// machine: build the states, inject the implicit terminals (pass 1), inject
// visit bounds on cycles (pass 5), then retag edges that lead to terminals.
module Sugar {
  import opened Common
  import opened Canonical
  import opened CycleBounds
  import opened Durations

  datatype RawTarget = Short(id: StateId) | Long(target: StateId, maxVisits: Option<nat>)

  datatype RawState = RawState(
    run: Option<string>,
    uses: Option<string>,
    ifCond: Option<string>,
    timeout: Option<string>,
    onDone: Option<StateId>,
    onFail: Option<StateId>,
    directives: map<DirectiveName, RawTarget>,
    maxVisits: Option<nat>
  )

  datatype RawTask = RawTask(
    id: StateId,
    run: Option<string>,
    uses: Option<string>,
    ifCond: Option<string>,
    timeout: Option<string>,
    onFail: Option<StateId>,
    directives: map<DirectiveName, RawTarget>,
    maxVisits: Option<nat>
  )

  datatype RawBody =
    | CanonicalBody(start: StateId, states: map<StateId, RawState>, terminals: map<StateId, string>)
    | SugarBody(tasks: seq<RawTask>, states: map<StateId, RawState>, terminals: map<StateId, string>, onFail: Option<StateId>)
    | EmptyBody

  datatype ExpandError =
    | EmptyTasks(ruleIdx: nat)
    | NoBody(ruleIdx: nat)
    | InvalidDuration(ruleIdx: nat, value: string)

  datatype Result<+T> = Ok(value: T) | Err(error: ExpandError)

  // ---- building the states -----------------------------------------------------

  function BodyFromRunUses(run: Option<string>, uses: Option<string>): StateBody {
    match (run, uses)
    case (Some(cmd), None) => Run(cmd)
    case (None, Some(path)) => Uses(path)
    case _ => Run("")
  }

  function TargetId(t: RawTarget): StateId {
    match t
    case Short(id) => id
    case Long(id, _) => id
  }

  function ConvertDirectives(raw: map<DirectiveName, RawTarget>): map<DirectiveName, EdgeTarget> {
    map n | n in raw :: ToState(TargetId(raw[n]))
  }

  // A `timeout:` text that is no duration.
  predicate Unreadable(t: Option<string>)
    ensures Unreadable(t) ==> t.Some?
  {
    t.Some? && ParseDuration(t.value).None?
  }

  function Timeout(t: Option<string>): Option<nat> {
    if t.Some? then ParseDuration(t.value) else None
  }

  // A raw `on_*:` value, or the default terminal.
  function EdgeOr(raw: Option<StateId>, default: StateId): EdgeTarget {
    match raw
    case Some(id) => ToState(id)
    case None => ToTerminal(default)
  }

  function RawToState(id: StateId, raw: RawState): State {
    State(id, BodyFromRunUses(raw.run, raw.uses), raw.ifCond, EdgeOr(raw.onDone, SUCCESS), EdgeOr(raw.onFail, FAILURE),
          ConvertDirectives(raw.directives), raw.maxVisits.GetOr(1), Timeout(raw.timeout))
  }

  function OrElse(a: Option<StateId>, b: Option<StateId>): Option<StateId> {
    if a.Some? then a else b
  }

  function TaskState(task: RawTask, nextId: Option<StateId>, ruleOnFail: Option<StateId>): State {
    State(task.id, BodyFromRunUses(task.run, task.uses), task.ifCond, EdgeOr(nextId, SUCCESS),
          EdgeOr(OrElse(task.onFail, ruleOnFail), FAILURE),
          ConvertDirectives(task.directives), task.maxVisits.GetOr(1), Timeout(task.timeout))
  }

  function TaskToState(task: RawTask, nextId: Option<StateId>, ruleOnFail: Option<StateId>, ruleIdx: nat): Result<State> {
    if Unreadable(task.timeout) then Err(InvalidDuration(ruleIdx, task.timeout.value))
    else Ok(TaskState(task, nextId, ruleOnFail))
  }

  ghost function InlineStates(raw: map<StateId, RawState>): map<StateId, State> {
    map id | id in raw :: RawToState(id, raw[id])
  }

  // The first malformed timeout of a raw state map, in id order.
  ghost function FirstMalformed(raw: map<StateId, RawState>): Option<string> {
    var bad := set id | id in raw && Unreadable(raw[id].timeout);
    if bad == {} then None else Some(raw[Least(bad)].timeout.value)
  }

  method ConvertStates(raw: map<StateId, RawState>, ruleIdx: nat) returns (r: Result<map<StateId, State>>)
    ensures FirstMalformed(raw) == None ==> r == Ok(InlineStates(raw))
    ensures FirstMalformed(raw).Some? ==> r == Err(InvalidDuration(ruleIdx, FirstMalformed(raw).value))
  {
    hide LexLeq, RawToState, FirstMalformed, ConvertedPart, InlineStates, Unreadable, AllReadable;
    var ids := Sorted(raw.Keys);
    var out: map<StateId, State> := map[];
    PartConverts(raw, {}, "");
    for i := 0 to |ids|
      invariant AllReadable(raw, Taken(ids, i))
      invariant out == ConvertedPart(raw, Taken(ids, i))
    {
      var id := ids[i];
      if Unreadable(raw[id].timeout) {
        FirstInOrder(raw, ids, i);
        return Err(InvalidDuration(ruleIdx, raw[id].timeout.value));
      }
      PartConverts(raw, Taken(ids, i), id);
      out := out[id := RawToState(id, raw[id])];
    }
    TakenAll(ids, raw.Keys);
    NoneMalformed(raw);
    return Ok(out);
  }

  ghost predicate AllReadable(raw: map<StateId, RawState>, taken: set<StateId>) {
    forall id | id in taken :: id in raw && !Unreadable(raw[id].timeout)
  }

  ghost function ConvertedPart(raw: map<StateId, RawState>, taken: set<StateId>): map<StateId, State> {
    map id | id in taken && id in raw :: RawToState(id, raw[id])
  }

  lemma PartConverts(raw: map<StateId, RawState>, taken: set<StateId>, id: StateId)
    ensures ConvertedPart(raw, {}) == map[]
    ensures ConvertedPart(raw, raw.Keys) == InlineStates(raw)
    ensures id in raw ==> ConvertedPart(raw, taken + {id}) == ConvertedPart(raw, taken)[id := RawToState(id, raw[id])]
    ensures AllReadable(raw, {})
    ensures AllReadable(raw, taken) && id in raw && !Unreadable(raw[id].timeout) ==> AllReadable(raw, taken + {id})
  {
  }

  lemma NoneMalformed(raw: map<StateId, RawState>)
    requires AllReadable(raw, raw.Keys)
    ensures FirstMalformed(raw) == None
  {
  }

  lemma FirstInOrder(raw: map<StateId, RawState>, ids: seq<StateId>, i: nat)
    requires i < |ids| && forall id :: id in ids <==> id in raw
    requires forall j, k | 0 <= j < k < |ids| :: LexLeq(ids[j], ids[k])
    requires Unreadable(raw[ids[i]].timeout)
    requires AllReadable(raw, Taken(ids, i))
    ensures FirstMalformed(raw) == Some(raw[ids[i]].timeout.value)
  {
    hide Unreadable;
    var bad := set id | id in raw && Unreadable(raw[id].timeout);
    assert ids[i] in bad;
    forall x | x in bad ensures LexLeq(ids[i], x) {
      var j :| 0 <= j < |ids| && ids[j] == x;
      LexTotal(x, x);
      if j < i {
        TakenIs(ids, i, x);
        assert false;
      }
    }
    LeastUnique(ids[i], Least(bad), bad);
  }

  function NextId(tasks: seq<RawTask>, i: nat): Option<StateId> {
    if i + 1 < |tasks| then Some(tasks[i + 1].id) else None
  }

  // The states after the first k tasks are inserted over the inline ones: a
  // later task replaces an earlier one, or an inline state, of the same id.
  ghost function WithTasks(inline: map<StateId, State>, tasks: seq<RawTask>, onFail: Option<StateId>, k: nat): map<StateId, State>
    requires k <= |tasks|
  {
    if k == 0 then inline
    else WithTasks(inline, tasks, onFail, k - 1)[tasks[k - 1].id := TaskState(tasks[k - 1], NextId(tasks, k - 1), onFail)]
  }

  // The first malformed timeout of the first k tasks.
  ghost function FirstBadTask(tasks: seq<RawTask>, k: nat): Option<string>
    requires k <= |tasks|
  {
    if k == 0 then None
    else
      var earlier := FirstBadTask(tasks, k - 1);
      if earlier.Some? then earlier
      else if Unreadable(tasks[k - 1].timeout) then Some(tasks[k - 1].timeout.value) else None
  }

  function ConvertTerminals(raw: map<StateId, string>): map<StateId, Terminal> {
    map id | id in raw :: Terminal(id, raw[id])
  }

  // The machine a body denotes before any pass has run.
  ghost function Built(body: RawBody, ruleIdx: nat): Result<StateMachine> {
    match body
    case EmptyBody => Err(NoBody(ruleIdx))
    case CanonicalBody(start, states, terminals) =>
      var bad := FirstMalformed(states);
      if bad.Some? then Err(InvalidDuration(ruleIdx, bad.value))
      else Ok(StateMachine(start, InlineStates(states), ConvertTerminals(terminals)))
    case SugarBody(tasks, states, terminals, onFail) =>
      if tasks == [] then Err(EmptyTasks(ruleIdx))
      else
        var bad := FirstMalformed(states);
        var badTask := FirstBadTask(tasks, |tasks|);
        if bad.Some? then Err(InvalidDuration(ruleIdx, bad.value))
        else if badTask.Some? then Err(InvalidDuration(ruleIdx, badTask.value))
        else Ok(StateMachine(tasks[0].id, WithTasks(InlineStates(states), tasks, onFail, |tasks|), ConvertTerminals(terminals)))
  }

  lemma {:induction false} FirstBadStays(tasks: seq<RawTask>, j: nat, k: nat)
    requires j <= k <= |tasks| && FirstBadTask(tasks, j).Some?
    ensures FirstBadTask(tasks, k) == FirstBadTask(tasks, j)
    decreases k
  {
    hide Unreadable;
    if j < k { FirstBadStays(tasks, j, k - 1); }
  }

  method BuildSugarStateMachine(
    tasks: seq<RawTask>, inline: map<StateId, RawState>, terminals: map<StateId, string>, onFail: Option<StateId>, ruleIdx: nat)
    returns (r: Result<StateMachine>)
    ensures r == Built(SugarBody(tasks, inline, terminals, onFail), ruleIdx)
  {
    hide Unreadable, FirstMalformed, InlineStates, ConvertDirectives, BodyFromRunUses, EdgeOr, Timeout;
    if tasks == [] {
      return Err(EmptyTasks(ruleIdx));
    }
    var start := tasks[0].id;
    var converted := ConvertStates(inline, ruleIdx);
    if converted.Err? {
      return Err(converted.error);
    }
    var states := converted.value;
    for i := 0 to |tasks|
      invariant FirstBadTask(tasks, i) == None
      invariant states == WithTasks(InlineStates(inline), tasks, onFail, i)
    {
      var s := TaskToState(tasks[i], NextId(tasks, i), onFail, ruleIdx);
      if s.Err? {
        FirstBadStays(tasks, i + 1, |tasks|);
        return Err(s.error);
      }
      states := states[s.value.id := s.value];
    }
    return Ok(StateMachine(start, states, ConvertTerminals(terminals)));
  }

  // ---- pass 1: implicit terminals ----------------------------------------------

  function DefaultOutcome(id: StateId): string {
    if id == SUCCESS then "success"
    else if id == FAILURE then "failure"
    else if id == NO_ACTION then "no_action"
    else if id == CANCELLED then "cancelled"
    else ""
  }

  ghost predicate Referenced(sm: StateMachine, id: StateId) {
    id == sm.start || exists s, t :: s in sm.states && t in Targets(sm.states[s]) && t.id == id
  }

  ghost function Pass1(sm: StateMachine): StateMachine {
    sm.(terminals := sm.terminals +
      map b | b in BUILTINS && Referenced(sm, b) && b !in sm.terminals :: Terminal(b, DefaultOutcome(b)))
  }

  // A target of one of the first n states.
  ghost predicate TargetOfFirst(sm: StateMachine, ids: seq<StateId>, n: nat, id: StateId) {
    exists j, t :: 0 <= j < n && j < |ids| && ids[j] in sm.states && t in Targets(sm.states[ids[j]]) && t.id == id
  }

  lemma FirstGrows(sm: StateMachine, ids: seq<StateId>, n: nat)
    requires n < |ids| && ids[n] in sm.states
    ensures forall id :: TargetOfFirst(sm, ids, n + 1, id) <==>
      TargetOfFirst(sm, ids, n, id) || exists t :: t in Targets(sm.states[ids[n]]) && t.id == id
  {
    hide Targets;
    forall id | TargetOfFirst(sm, ids, n + 1, id)
      ensures TargetOfFirst(sm, ids, n, id) || exists t :: t in Targets(sm.states[ids[n]]) && t.id == id
    {
      var j, t :| 0 <= j < n + 1 && j < |ids| && ids[j] in sm.states && t in Targets(sm.states[ids[j]]) && t.id == id;
    }
  }

  method CollectReferencedTargets(sm: StateMachine) returns (out: set<StateId>)
    ensures forall id :: id in out <==> Referenced(sm, id)
  {
    hide Targets, LexLeq;
    out := {sm.start};
    var ids := Sorted(sm.states.Keys);
    for i := 0 to |ids|
      invariant forall id :: id in out <==> id == sm.start || TargetOfFirst(sm, ids, i, id)
    {
      FirstGrows(sm, ids, i);
      out := out + set t | t in Targets(sm.states[ids[i]]) :: t.id;
    }
    forall id ensures id in out <==> Referenced(sm, id) {
      if Referenced(sm, id) && id != sm.start {
        var s, t :| s in sm.states && t in Targets(sm.states[s]) && t.id == id;
        var j :| 0 <= j < |ids| && ids[j] == s;
      }
    }
  }

  method ApplyPass1(sm: StateMachine) returns (out: StateMachine)
    ensures out == Pass1(sm)
  {
    hide Pass1, Pass1Part, DefaultOutcome, Referenced;
    var referenced := CollectReferencedTargets(sm);
    var builtins := [SUCCESS, FAILURE, NO_ACTION, CANCELLED];
    var terminals := sm.terminals;
    Pass1Ends(sm);
    for i := 0 to |builtins|
      invariant terminals == Pass1Part(sm, Taken(builtins, i))
    {
      var b := builtins[i];
      Pass1Injects(sm, Taken(builtins, i), b);
      if b in referenced && b !in terminals {
        terminals := terminals[b := Terminal(b, DefaultOutcome(b))];
      }
    }
    assert forall b :: b in builtins <==> b in BUILTINS;
    TakenAll(builtins, BUILTINS);
    out := sm.(terminals := terminals);
  }

  ghost function Pass1Part(sm: StateMachine, bs: set<StateId>): map<StateId, Terminal> {
    sm.terminals + map b | b in bs && Referenced(sm, b) && b !in sm.terminals :: Terminal(b, DefaultOutcome(b))
  }

  lemma Pass1Ends(sm: StateMachine)
    ensures Pass1Part(sm, {}) == sm.terminals
    ensures Pass1(sm) == sm.(terminals := Pass1Part(sm, BUILTINS))
  {
  }

  lemma Pass1Injects(sm: StateMachine, bs: set<StateId>, b: StateId)
    ensures Pass1Part(sm, bs + {b}) ==
      if Referenced(sm, b) && b !in Pass1Part(sm, bs)
      then Pass1Part(sm, bs)[b := Terminal(b, DefaultOutcome(b))] else Pass1Part(sm, bs)
  {
    hide Referenced, DefaultOutcome;
  }

  // ---- edge classification -----------------------------------------------------

  function Reclassify(t: EdgeTarget, terminals: set<StateId>): EdgeTarget {
    if t.ToState? && t.id in terminals then ToTerminal(t.id) else t
  }

  function ReclassifyState(s: State, terminals: set<StateId>): State {
    s.(onDone := Reclassify(s.onDone, terminals),
       onFail := Reclassify(s.onFail, terminals),
       directives := map n | n in s.directives :: Reclassify(s.directives[n], terminals))
  }

  function Classified(sm: StateMachine): StateMachine {
    sm.(states := map id | id in sm.states :: ReclassifyState(sm.states[id], sm.terminals.Keys))
  }

  method ClassifyEdges(sm: StateMachine) returns (out: StateMachine)
    ensures out == Classified(sm)
  {
    hide LexLeq, ReclassifyState, ClassifiedPart, Classified;
    var ids := Sorted(sm.states.Keys);
    var states := sm.states;
    PartClassifies(sm, {}, "");
    for i := 0 to |ids|
      invariant states == ClassifiedPart(sm, Taken(ids, i))
    {
      TakenNext(ids, i);
      PartClassifies(sm, Taken(ids, i), ids[i]);
      states := states[ids[i] := ReclassifyState(states[ids[i]], sm.terminals.Keys)];
    }
    TakenAll(ids, sm.states.Keys);
    out := sm.(states := states);
  }

  ghost function ClassifiedPart(sm: StateMachine, taken: set<StateId>): map<StateId, State> {
    map id | id in sm.states ::
      if id in taken then ReclassifyState(sm.states[id], sm.terminals.Keys) else sm.states[id]
  }

  lemma PartClassifies(sm: StateMachine, taken: set<StateId>, id: StateId)
    ensures ClassifiedPart(sm, {}) == sm.states
    ensures ClassifiedPart(sm, sm.states.Keys) == Classified(sm).states
    ensures Classified(sm) == sm.(states := Classified(sm).states)
    ensures id in sm.states && id !in taken ==>
      && id in ClassifiedPart(sm, taken)
      && ClassifiedPart(sm, taken)[id] == sm.states[id]
      && ClassifiedPart(sm, taken + {id}) == ClassifiedPart(sm, taken)[id := ReclassifyState(sm.states[id], sm.terminals.Keys)]
  {
  }

  // ---- the whole expansion ---------------------------------------------------------

  ghost function Expand(body: RawBody, ruleIdx: nat, cap: nat): Result<StateMachine> {
    match Built(body, ruleIdx)
    case Err(e) => Err(e)
    case Ok(sm) => Ok(Classified(Pass5(Pass1(sm), cap)))
  }

  method ExpandBody(body: RawBody, ruleIdx: nat, cap: nat) returns (r: Result<StateMachine>)
    ensures r == Expand(body, ruleIdx, cap)
  {
    var sm: StateMachine;
    match body {
      case EmptyBody =>
        return Err(NoBody(ruleIdx));
      case CanonicalBody(start, states, terminals) =>
        var converted := ConvertStates(states, ruleIdx);
        if converted.Err? { return Err(converted.error); }
        sm := StateMachine(start, converted.value, ConvertTerminals(terminals));
      case SugarBody(tasks, states, terminals, onFail) =>
        var built := BuildSugarStateMachine(tasks, states, terminals, onFail, ruleIdx);
        if built.Err? { return Err(built.error); }
        sm := built.value;
    }
    sm := ApplyPass1(sm);
    sm := ApplyPass5(sm, cap);
    sm := ClassifyEdges(sm);
    return Ok(sm);
  }
}
