// The per-ticket actors as an interleaving of atomic steps. One driver thread
// runs cold start and afterwards the webhook dispatcher; every spawned ticket
// task runs its own receive loop; each step performs one cache call, one inbox
// operation, or one critical section of the registry lock. The workflow match,
// the cycle id and the result of a cycle are free choices of the step, so every
// statement holds for each of them.
module Actors {
  import opened Common
  import opened Cache

  datatype Message = Webhook | ColdStartCycle | Shutdown

  const INBOX_CAPACITY := 1

  // What a cycle returned; `cleanup` is the kind carried by the result.
  datatype CycleEnd = Completed(cleanup: bool) | FailedCycle | ShorthandDeleted | CleanupFsError

  // A ticket task between two atomic steps.
  datatype Pc =
    | Waiting              // in `recv`
    | Received             // has a message, has not looked at the cache yet
    | Chosen               // a cycle was selected, the id is not set yet
    | Running              // the id is set and the runner works
    | Returned(end: CycleEnd)
    | Leaving              // about to evict its own entry
    | AskingEvict          // about to take `pending_evict`
    | AskingRecheck        // about to take `pending_recheck`
    | Resnapping           // the flag was set: about to look at the cache again
    | Resending            // about to put a message into its own inbox
    | Exiting              // left the loop, the receiver still exists
    | Dead                 // the receiver is dropped

  datatype Task = Task(ticket: TicketId, inbox: seq<Message>, pc: Pc)

  // The driver thread between two atomic steps.
  datatype Driver =
    | Idle
    | Rejecting(t: TicketId)     // admission refused: about to snapshot
    | Revoking(t: TicketId)      // about to set `pending_evict`
    | Checking(t: TicketId)      // about to look into the registry
    | Dropping(t: TicketId)      // no task there: about to evict
    | Readmitting(a: Admitted)   // admission granted: about to snapshot
    | Reviving(a: Admitted)      // about to clear `pending_evict`
    | Reading(a: Admitted)       // first phase of `observe`
    | Writing(a: Admitted)       // second phase of `observe`
    | Routing(a: Admitted)       // about to use the registry
    | Deferring(t: TicketId)     // inbox was full: about to set `pending_recheck`
    | ColdReading(a: Admitted)
    | ColdWriting(a: Admitted)
    | Admitting(a: Admitted)     // cold start: about to spawn

  datatype Phase = Seeding | Enumerating | Serving | Stopping

  // `latest`, `dirty`, `evicted` and `doubled` only record history: the newest
  // task ever spawned for a ticket; the tickets whose cache entry was written by
  // `observe` and not looked at by a task since; the tickets ever evicted; and
  // whether cold start ever admitted a ticket that already had a task (the
  // condition its debug assertion excludes).
  datatype System = System(
    cache: Entries,
    registry: map<TicketId, nat>,
    tasks: seq<Task>,
    driver: Driver,
    phase: Phase,
    latest: map<TicketId, nat>,
    dirty: set<TicketId>,
    evicted: set<TicketId>,
    doubled: bool
  )

  const BOOT := System(map[], map[], [], Idle, Seeding, map[], {}, {}, false)

  datatype Choice = Choice(matches: bool, cycleId: nat, end: CycleEnd)

  datatype Step =
    | Seed(t: TicketId, repo: string)
    | Enumerate
    | Admit(a: Admitted)
    | Open
    | Deliver(a: Admitted)
    | Refuse(t: TicketId)
    | Drive
    | Stop
    | SendStop(t: TicketId)
    | Act(k: nat, choice: Choice)

  // ---- the driver thread -------------------------------------------------------

  function Spawn(s: System, t: TicketId, seed: Message): System {
    s.(tasks := s.tasks + [Task(t, [seed], Waiting)],
       registry := s.registry[t := |s.tasks|],
       latest := s.latest[t := |s.tasks|],
       driver := Idle)
  }

  function Route(s: System, t: TicketId): System {
    if t in s.registry && s.registry[t] < |s.tasks| && !s.tasks[s.registry[t]].pc.Dead? then
      var k := s.registry[t];
      if |s.tasks[k].inbox| < INBOX_CAPACITY then
        WithInbox(s, k, s.tasks[k].inbox + [Webhook]).(driver := Idle)
      else
        s.(driver := Deferring(t))
    else
      Spawn(s, t, Webhook)
  }

  datatype Turn = Turn(driver: Driver, cache: Entries)

  // The steps that neither send nor spawn.
  function DriverTurn(driver: Driver, cache: Entries, registered: set<TicketId>): Turn {
    match driver
    case Rejecting(t) => Turn(if t in cache then Revoking(t) else Idle, cache)
    case Revoking(t) => Turn(Checking(t), WithEvict(cache, t, true))
    case Checking(t) => Turn(if t in registered then Idle else Dropping(t), cache)
    case Dropping(t) => Turn(Idle, cache - {t})
    case Readmitting(a) => Turn(if EvictSet(cache, a.id) then Reviving(a) else Reading(a), cache)
    case Reviving(a) => Turn(Reading(a), WithEvict(cache, a.id, false))
    case Reading(a) => Turn(if Known(cache, a) then Idle else Writing(a), cache)
    case Writing(a) => Turn(Routing(a), Written(cache, a))
    case Deferring(t) => Turn(Idle, WithRecheck(cache, t, true))
    case ColdReading(a) => Turn(if Known(cache, a) then Admitting(a) else ColdWriting(a), cache)
    case ColdWriting(a) => Turn(Admitting(a), Written(cache, a))
    case _ => Turn(driver, cache)
  }

  function DriverNext(s: System): System {
    if s.driver.Routing? then
      Route(s, s.driver.a.id)
    else if s.driver.Admitting? then
      Spawn(s, s.driver.a.id, ColdStartCycle).(doubled := s.doubled || s.driver.a.id in s.registry)
    else
      var turn := DriverTurn(s.driver, s.cache, s.registry.Keys);
      s.(driver := turn.driver,
         cache := turn.cache,
         dirty := if s.driver.Writing? || s.driver.ColdWriting? then s.dirty + {s.driver.a.id} else s.dirty,
         evicted := if s.driver.Dropping? then s.evicted + {s.driver.t} else s.evicted)
  }

  // ---- a ticket task -----------------------------------------------------------

  predicate Evicts(end: CycleEnd) {
    end == Completed(true) || end == ShorthandDeleted || end == CleanupFsError
  }

  // One step as the task sees it: its own state and the cache.
  datatype Local = Local(task: Task, cache: Entries)

  function TaskStep(task: Task, cache: Entries, choice: Choice): Local {
    var t := task.ticket;
    match task.pc
    case Waiting =>
      if task.inbox == [] then Local(task, cache)
      else Local(task.(inbox := task.inbox[1..], pc := if task.inbox[0].Shutdown? then Exiting else Received), cache)
    case Received => Local(task.(pc := if t in cache && choice.matches then Chosen else Waiting), cache)
    case Chosen => Local(task.(pc := Running), WithCycle(cache, t, Some(choice.cycleId)))
    case Running => Local(task.(pc := Returned(choice.end)), cache)
    case Returned(end) => Local(task.(pc := if Evicts(end) then Leaving else AskingEvict), WithCycle(cache, t, None))
    case Leaving => Local(task.(pc := Exiting), cache - {t})
    case AskingEvict =>
      Local(task.(pc := if EvictSet(cache, t) then Leaving else AskingRecheck), WithEvict(cache, t, false))
    case AskingRecheck =>
      Local(task.(pc := if RecheckSet(cache, t) then Resnapping else Waiting), WithRecheck(cache, t, false))
    case Resnapping => Local(task.(pc := if t in cache then Resending else Waiting), cache)
    case Resending =>
      Local(task.(inbox := if |task.inbox| < INBOX_CAPACITY then task.inbox + [Webhook] else task.inbox, pc := Waiting), cache)
    case Exiting => Local(task.(inbox := [], pc := Dead), cache)
    case Dead => Local(task, cache)
  }

  function TaskNext(s: System, k: nat, choice: Choice): System
    requires k < |s.tasks|
  {
    var task := s.tasks[k];
    var next := TaskStep(task, s.cache, choice);
    s.(tasks := s.tasks[k := next.task],
       cache := next.cache,
       dirty := if task.pc.Received? then s.dirty - {task.ticket} else s.dirty,
       evicted := if task.pc.Leaving? then s.evicted + {task.ticket} else s.evicted)
  }

  function WithInbox(s: System, k: nat, inbox: seq<Message>): System
    requires k < |s.tasks|
  {
    s.(tasks := s.tasks[k := s.tasks[k].(inbox := inbox)])
  }

  // ---- the whole system --------------------------------------------------------

  predicate Enabled(s: System, step: Step) {
    match step
    case Seed(_, _) => s.phase.Seeding?
    case Enumerate => s.phase.Seeding?
    case Admit(_) => s.phase.Enumerating? && s.driver.Idle?
    case Open => s.phase.Enumerating? && s.driver.Idle?
    case Deliver(_) => s.phase.Serving? && s.driver.Idle?
    case Refuse(_) => s.phase.Serving? && s.driver.Idle?
    case Drive => !s.driver.Idle?
    case Stop => s.phase.Serving? && s.driver.Idle?
    case SendStop(t) =>
      s.phase.Stopping? && t in s.registry && s.registry[t] < |s.tasks|
      && (s.tasks[s.registry[t]].pc.Dead? || |s.tasks[s.registry[t]].inbox| < INBOX_CAPACITY)
    case Act(k, _) => k < |s.tasks|
  }

  function SentStop(s: System, t: TicketId): System
    requires Enabled(s, SendStop(t))
  {
    var k := s.registry[t];
    var s' := s.(registry := s.registry - {t});
    if s.tasks[k].pc.Dead? then s' else WithInbox(s', k, s.tasks[k].inbox + [Shutdown])
  }

  // A step that is not enabled changes nothing, so that any list of steps is a run.
  function Apply(s: System, step: Step): System {
    if !Enabled(s, step) then s
    else match step
      case Seed(t, repo) => s.(cache := Seeded(s.cache, t, repo))
      case Enumerate => s.(phase := Enumerating)
      case Admit(a) => s.(driver := ColdReading(a))
      case Open => s.(phase := Serving)
      case Deliver(a) => s.(driver := Readmitting(a))
      case Refuse(t) => s.(driver := Rejecting(t))
      case Drive => DriverNext(s)
      case Stop => s.(phase := Stopping)
      case SendStop(t) => SentStop(s, t)
      case Act(k, choice) => TaskNext(s, k, choice)
  }

  function Run(s: System, steps: seq<Step>): System
    decreases |steps|
  {
    if steps == [] then s else Run(Apply(s, steps[0]), steps[1..])
  }
}
