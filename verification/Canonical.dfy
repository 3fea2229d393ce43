// The canonical workflow machine: what expansion produces, the checker accepts
// and the cycle driver runs.
module Canonical {
  import opened Common
  import opened Graph

  type StateId = string
  type DirectiveName = string

  datatype EdgeTarget = ToState(id: StateId) | ToTerminal(id: StateId)

  datatype StateBody = Run(cmd: string) | Uses(path: string)

  datatype State = State(
    id: StateId,
    body: StateBody,
    ifCond: Option<string>,
    onDone: EdgeTarget,
    onFail: EdgeTarget,
    directives: map<DirectiveName, EdgeTarget>,
    maxVisits: nat,
    timeout: Option<nat>
  )

  datatype Terminal = Terminal(id: StateId, outcome: string)

  datatype StateMachine = StateMachine(
    start: StateId,
    states: map<StateId, State>,
    terminals: map<StateId, Terminal>
  )

  const SUCCESS: StateId := "__success__"
  const FAILURE: StateId := "__failure__"
  const NO_ACTION: StateId := "__no_action__"
  const CANCELLED: StateId := "__cancelled__"

  const BUILTINS: set<StateId> := {SUCCESS, FAILURE, NO_ACTION, CANCELLED}

  // The default target of a built-in directive name other than `retry`.
  function BuiltinTarget(name: DirectiveName): Option<StateId> {
    if name == "end" then Some(SUCCESS)
    else if name == "skip" then Some(NO_ACTION)
    else if name == "fail" then Some(FAILURE)
    else if name == "cancel" then Some(CANCELLED)
    else None
  }

  // A directive received at run time: the state's own map first, then the
  // built-in defaults; None makes the caller report schema drift.
  function ResolveDirective(name: DirectiveName, state: State): Option<EdgeTarget> {
    if name in state.directives then Some(state.directives[name])
    else if BuiltinTarget(name).Some? then Some(ToTerminal(BuiltinTarget(name).value))
    else if name == "retry" then Some(ToState(state.id))
    else None
  }

  // The targets written in the machine itself.
  function Targets(s: State): set<EdgeTarget> {
    {s.onDone, s.onFail} + s.directives.Values
  }

  // Every entry is filed under its own id.
  predicate Keyed(sm: StateMachine) {
    && (forall id <- sm.states :: sm.states[id].id == id)
    && (forall id <- sm.terminals :: sm.terminals[id].id == id)
  }

  // The graph the SCC computation works on: State-tagged edges whose target is
  // a state. Terminals are sinks and do not appear.
  ghost function StateEdges(sm: StateMachine): (g: Edges)
    ensures forall x, y :: (x, y) in g <==> x in sm.states && y in sm.states && ToState(y) in Targets(sm.states[x])
  {
    set x, y | x in sm.states && y in sm.states && ToState(y) in Targets(sm.states[x]) :: (x, y)
  }

  // A written target is the one for success, the one for failure, or a directive's.
  lemma TargetsExactly(s: State, t: EdgeTarget)
    ensures t in Targets(s) <==> t == s.onDone || t == s.onFail || exists n :: n in s.directives && s.directives[n] == t
  {
  }

  // The four built-in names have a terminal each, `retry` comes back to the state,
  // and a name of the state's own goes before all of them.
  lemma DirectiveExactly(name: DirectiveName, s: State)
    ensures ResolveDirective(name, s) ==
      if name in s.directives then Some(s.directives[name])
      else if name == "retry" then Some(ToState(s.id))
      else if name == "end" then Some(ToTerminal("__success__"))
      else if name == "fail" then Some(ToTerminal("__failure__"))
      else if name == "skip" then Some(ToTerminal("__no_action__"))
      else if name == "cancel" then Some(ToTerminal("__cancelled__"))
      else None
  {
  }
}
