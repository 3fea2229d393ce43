# Roki: verified core

A Dafny model of the parts of the Roki daemon in which several pieces have to
agree, and proofs of what they promise each other. `dafny verify dfyconfig.toml`
checks everything.

**The workflow compiler and its driver.** `Sugar` turns a task list or a raw
state map into a `Canonical` state machine: build, implicit terminals, visit
bounds, edge tags. `Graph`, `TarjanView` and `Tarjan` hold the strongly connected
components on which the bounds rest: the algorithm runs on arrays, its
correctness is proved on an immutable view of them. `Validate` is the checker,
stated both as a declarative rule and as the error-collecting loops. `Durations`
reads timeouts. `ExpansionFacts` proves exactly when the checker's cycle rule and
pass 5 agree. `Driver` executes a machine with an arbitrary per-state runner and
`if:` evaluator; `DriverFacts` and `Rounds` bound every run, and `Replay` explains
every run by its trace; `RealRunner`
restricts the runner to the edges the production runner can pick; `Missing` says
exactly when such a run asks for a state that does not exist, `Overrides`
exactly when one reports an outcome its last edge does not account for, and
`Relay` is a checked body that does both. `Meaning` interprets the
body as it is written and proves that expansion changes nothing.

**The per-ticket actors.** `Cache` is the diff cache. `Actors` interleaves one
driver thread (cold start, then the dispatcher) with any number of ticket tasks,
one atomic step for each cache call, inbox operation or critical section.
`ActorInvariants` proves an invariant of every step and `ActorTheorems` reads the
guarantees off it. `ActorProgress` bounds what a task still owes by its own
steps. `ActorObjects` holds `on_webhook` and `step_once` as
sequential code, proved equal to their steps, so that the interleaved steps are
the code's.

**The event ring and its readers.** `Ring`, with `Poller` and `EventsView` for
the dashboard and `Drain` for the command line.

**Cycle rows across crashes, and dispatch.** `CycleRows` is the table, the runner
and recovery; `CycleCrashes` interleaves many runners with crashes at any point.
`Dispatch` compares dispatch from a ticket with dispatch from the cache, and the
cold-start filter with both; `DispatchTexts` says exactly when the missing title
and body matter.

**Two short ones.** `Escaping` (the plain-text stream's inverse of escaping) and
`RateLimit` (the back-off numbers).

Where the code and its own documentation disagree the model follows the code. The
outcome override sticks across later states although it is documented for the
edge into a terminal (`DriverFacts.DocumentedExactly`; `Overrides.StraysExactly` says which
machines allow it, and `Relay.OverrideLeaks` shows one). The
ticket detail pages from the oldest event although it is documented as the most
recent ones (`Drain.DetailIsOldest`). A revoked ticket whose task is idle keeps
its entry although the comment speaks of an in-flight task, because the registry
keeps the handle of an idle task (`ActorTheorems.RevokeDropsExactly`,
`ActorTheorems.RevokedWhileIdle`); only a message the task still takes
and that selects a cycle removes it (`ActorTheorems.RevokedEntryStays`), and an
accepted webhook cancels the revocation first. The cache is said to be
enough to re-evaluate a ticket; `DispatchTexts.CacheDispatchExactly` says for
which workflows it is. A `max_visits` inside a long-form directive is read and
then dropped (`ExpansionFacts.DirectiveCapsDropped`). The id that the ticket task
puts into the cache for a cycle is not the id of the cycle's row
(`CycleRows.RealCycleRunner.RunCycle`). After a restart the dashboard reports a
gap while the new ring is empty, then passes over the first events of the boot
without one (`Poller.RestartSkips`, `Poller.DeliveredAfterRestart`).

Taken from outside and left arbitrary: what a child process does, how a liquid
condition evaluates, whether an entry matches in the actor model, what a cycle
returns, fresh ids, clocks, and the server's answers. The text escaper is a
library; the model assumes that it escapes `&`, `<` and `>` and nothing else.
Retry delays are the delay-seconds form of `Retry-After` (section 10.2.3 of
RFC 9110).

## Model
| member | source | states |
|---|---|---|
| `Tarjan.TarjanScc` | crates/roki-daemon/src/workflow/sugar.rs:482-507 | the components returned are nonempty and duplicate-free, pairwise disjoint, cover exactly the state ids, are each exactly one mutual-reachability class of the State-edge graph, and no component has an edge into a later one |
| `Tarjan.TarjanState.StrongConnect` | crates/roki-daemon/src/workflow/sugar.rs:519-554 | a visit keeps the search invariant, and either the vertex's component was emitted or the vertex stays stacked with a low-link that is the number of an older stacked vertex it reaches, no larger than that of any older one its subtree has an edge to; each call numbers a fresh vertex, so it terminates |
| `Tarjan.TarjanState.Leave` | crates/roki-daemon/src/workflow/sugar.rs:542-553 | emits the component of a vertex whose low-link is its own index and leaves any other stacked; the emitted list stays right and the visit is complete |
| `Tarjan.TarjanState.Run` | crates/roki-daemon/src/workflow/sugar.rs:501-505 | after the outer loop every state is in an emitted component |
| `Tarjan.StateStateNeighbors` | crates/roki-daemon/src/workflow/sugar.rs:556-578 | the neighbour positions are exactly the State-tagged targets that are states |
| `TarjanView.PoppedClass` | crates/roki-daemon/src/workflow/sugar.rs:542-553 | what is popped at a root is exactly one mutual-reachability class |
| `TarjanView.EmitClass` | crates/roki-daemon/src/workflow/sugar.rs:542-553 | appending it keeps the emitted list disjoint, class by class, and sinks first |
| `CycleBounds.ApplyPass5` | crates/roki-daemon/src/workflow/sugar.rs:434-458 | changes the cap of exactly one state, the least id, of every cyclic class without a bound, and nothing else in the machine |
| `CycleBounds.CyclicClass` | crates/roki-daemon/src/workflow/sugar.rs:437-470 | two members or a self-edge is exactly lying on a cycle |
| `Sugar.ConvertStates` | crates/roki-daemon/src/workflow/sugar.rs:206-235 | converts every raw state, or reports the first unreadable timeout in id order |
| `Durations.DurationRoundTrip` | crates/roki-daemon/src/workflow/sugar.rs:278-321 | every number of 64 bits, in every unit, with blanks around it and before the unit, is read, and as that many milliseconds exactly when it is not a number of minutes whose seconds overflow 64 bits (a release build wraps them around) |
| `Durations.ParsesExactly` | crates/roki-daemon/src/workflow/sugar.rs:278-321 | a text is accepted exactly when it is blanks, an optional plus, digits of a 64-bit value, blanks and a unit, and blanks |
| `Sugar.BuildSugarStateMachine` | crates/roki-daemon/src/workflow/sugar.rs:150-172 | chains the tasks over the inline states: next index on done, own then rule target on fail, later tasks and tasks over states of the same id |
| `Sugar.CollectReferencedTargets` | crates/roki-daemon/src/workflow/sugar.rs:412-423 | exactly the start id and the ids some edge or directive of some state names |
| `Sugar.ApplyPass1` | crates/roki-daemon/src/workflow/sugar.rs:382-410 | adds exactly the built-in terminals that are referenced and not declared |
| `Sugar.ClassifyEdges` | crates/roki-daemon/src/workflow/sugar.rs:582-600 | retags exactly the State targets whose id is a terminal |
| `Sugar.ExpandBody` | crates/roki-daemon/src/workflow/sugar.rs:119-148 | is build, pass 1, pass 5 and retagging in that order, with the builders' error otherwise |
| `ExpansionFacts.Pass5Bounds` | crates/roki-daemon/src/workflow/sugar.rs:434-458 | after pass 5 no cycle is unbounded exactly when the default cap is at least two or every cycle was bounded before |
| `ExpansionFacts.OneInjectionPerClass` | crates/roki-daemon/src/workflow/sugar.rs:446-455 | pass 5 replaces at most one cap in each class |
| `ExpansionFacts.ExpansionBounded` | crates/roki-daemon/src/workflow/sugar.rs:119-148 | for every body none of whose states shares an id with a terminal, the expanded machine meets the checker's cycle rule exactly when the default cap is at least two or the operator bounded every cycle |
| `ExpansionFacts.ExpansionBoundedExactly` | crates/roki-daemon/src/workflow/sugar.rs:119-148 | for every body that builds, shared ids or not: exactly when every cycle that retagging leaves has in its class there a state with a cap of its own or, with a default cap of at least two, one that pass 5 chose before |
| `ExpansionFacts.ClassifyKeepsGraph` | crates/roki-daemon/src/workflow/sugar.rs:582-600 | with those names disjoint, retagging cuts no edge between states |
| `ExpansionFacts.OverlapUnbounded` | crates/roki-daemon/src/workflow/sugar.rs:434-458 | a body with one shared id expands, for every default cap, to a machine with an unbounded cycle: the bound lands on the state that retagging then cuts out of it |
| `ExpansionFacts.DirectiveCapsDropped` | crates/roki-daemon/src/workflow/sugar.rs:251-263 | two bodies that differ only in the `max_visits` of their long-form directives expand to the same machine |
| `ExpansionFacts.ExpansionFails` | crates/roki-daemon/src/workflow/sugar.rs:119-172 | a body expands exactly when it has tasks or states and every timeout can be read; otherwise which text is reported: inline states before tasks, least id first, tasks in order |
| `Validate.Check` | crates/roki-daemon/src/workflow/validate.rs:51-66 | reports exactly the violations of all machines of the three sections, and none exactly when all are well formed |
| `Validate.NoViolationIff` | crates/roki-daemon/src/workflow/validate.rs:68-77 | having no violation is being well formed: start, ids, bodies, declared targets, terminal outcomes, and a bound on every cycle |
| `Validate.WellFormedExactly` | crates/roki-daemon/src/workflow/validate.rs:68-163 | being well formed in full: start, the characters of ids, command and path, every written target, outcomes, cycles |
| `Validate.ViolationExactly` | crates/roki-daemon/src/workflow/validate.rs:68-210 | each kind of error is reported exactly for its own reason; a reserved id as that, not as an unsafe one |
| `Validate.ValidateStart` | crates/roki-daemon/src/workflow/validate.rs:79-91 | rejects a start that is no state or is a terminal, except the stateless machine that starts at a terminal |
| `Validate.ValidateStateEdges` | crates/roki-daemon/src/workflow/validate.rs:133-163 | one error for every target, directive targets included, that is neither state nor terminal |
| `Validate.ValidateCyclesBounded` | crates/roki-daemon/src/workflow/validate.rs:190-210 | one error, with the sorted members, for every mutual-reachability class that has a cycle and no cap above one |
| `Driver.RunCycle` | crates/roki-daemon/src/engine/cycle_state.rs:42-147 | the loop computes, with its counters, captures and trace, the recursively specified run, and terminates for every machine, runner and `if:` evaluator |
| `Driver.CycleContext.BumpVisit` | crates/roki-daemon/src/engine/state_runtime.rs:97-102 | raises the state's count and `iter` by one, and returns the new count |
| `Driver.CycleContext.RecordCapture` | crates/roki-daemon/src/engine/state_runtime.rs:93-95 | sets the state's captures and nothing else |
| `Replay.CapturesAreNewest` | crates/roki-daemon/src/engine/state_runtime.rs:93-95 | in every run a state has captures exactly when it ran, and they are those of the last time it ran |
| `Replay.RunExplained` | crates/roki-daemon/src/engine/cycle_state.rs:50-147 | every run turn by turn: each event is what its state answered, on the visit of that number, to the captures of those that ran before; the next id is where the answer led; and the verdict names the reason the run stopped |
| `Driver.StepDrops` | crates/roki-daemon/src/engine/cycle_state.rs:50-79 | every turn that goes on uses up visit budget, which is what bounds a cycle |
| `Canonical.DirectiveExactly` | crates/roki-daemon/src/workflow/canonical.rs:129-141 | a directive goes where the state maps it, else `retry` to the state itself and the four built-in names to their terminals, else nowhere |
| `DriverFacts.CycleBounds` | crates/roki-daemon/src/engine/cycle_state.rs:50-147 | from empty counters `iter` is the sum of all visit counts and at most the sum of all caps plus one; without the driver's own bound every count is within its cap, with it exactly the reported state is over, by one |
| `Rounds.VisitsWithinCap` | crates/roki-daemon/src/engine/cycle_state.rs:71-79 | no run completes more visits of a state than its cap |
| `Rounds.NoSecondRound` | crates/roki-daemon/src/workflow/sugar.rs:446-455 | so, whatever the default cap, no run of an expanded machine goes twice through a state without a cap of its own that pass 5 did not choose |
| `DriverFacts.OverrideSticks` | crates/roki-daemon/src/engine/cycle_state.rs:130-134 | the outcome of a finished cycle is the last one any directive of the run carried, whatever edge it took |
| `DriverFacts.DocumentedExactly` | crates/roki-daemon/src/engine/cycle_state.rs:39-41 | a finished run reports the documented outcome exactly when its last edge carries an outcome itself or what earlier edges left, if anything, is the terminal's own |
| `Overrides.LeadingRuns` | crates/roki-daemon/src/engine/real_state_runner.rs:360-381 | a child that plays a plan by the turn leads every run along a given walk to its terminal, with the outcomes the plan says |
| `Overrides.StraysExactly` | crates/roki-daemon/src/engine/cycle_state.rs:130-134 | some child and conditions make a cycle report an undocumented outcome exactly when the machine has a walk from the start to a terminal, within every cap, on which a directive can take an edge before the last |
| `Overrides.StraysExactlyUnconditional` | crates/roki-daemon/src/engine/cycle_state.rs:130-134 | the same for the children alone, on machines without an `if:` |
| `Relay.OverrideLeaks` | crates/roki-daemon/src/engine/cycle_state.rs:130-134 | a body that expands and passes the checker, and a child the production runner can meet, on which the two differ |
| `RealRunner.ExpandTagged` | crates/roki-daemon/src/workflow/sugar.rs:582-600 | in every expanded machine an edge is tagged Terminal exactly when its id is a terminal, and entries are filed under their own ids |
| `RealRunner.EdgeDeclared` | crates/roki-daemon/src/engine/real_state_runner.rs:360-381 | where every written edge is declared, the edge the runner picks leads to a declared id, or is a built-in default of that very state whose terminal is not declared |
| `RealRunner.NotFoundDangles` | crates/roki-daemon/src/engine/cycle_state.rs:54-69 | run by that runner, such a machine reports a missing state only through such a default |
| `RealRunner.CheckedExpansionRuns` | crates/roki-daemon/src/workflow/validate.rs:133-163 | so for every body that expands and passes the checker: edges are tagged right, and a missing state is reported only through such a default |
| `RealRunner.AllDeclaredNeverNotFound` | crates/roki-daemon/src/workflow/canonical.rs:129-141 | and never when all four built-in terminals are declared |
| `Missing.MissingExactly` | crates/roki-daemon/src/engine/cycle_state.rs:60-69 | on a machine with declared edges and start, some children and conditions make a cycle report a given missing state exactly when a state with that undeclared built-in default is reached from the start through states that may run |
| `Missing.MissingExactlyUnconditional` | crates/roki-daemon/src/engine/cycle_state.rs:60-69 | where no state has an `if:` the same for the children alone, under every evaluator |
| `Missing.PlanHits` | crates/roki-daemon/src/engine/real_state_runner.rs:360-381 | children that play a plan without repetition lead the driver along it to its end |
| `Relay.SkipIsMissing` | crates/roki-daemon/src/workflow/canonical.rs:129-141 | a body that expands and passes the checker, with such a state beyond the start, and the child that hits it |
| `Meaning.ExpansionPreservesMeaning` | crates/roki-daemon/src/workflow/sugar.rs:119-204 | for every body that expands, walking it as it is written, with what it says of jobs, conditions, targets, terminals and caps, and driving the expanded machine give the same verdict, counters, captures and trace for every child and `if:` evaluator |
| `Meaning.WalksTheArray` | crates/roki-daemon/src/workflow/sugar.rs:174-189 | where the task ids differ and none is a terminal, that walk starts at the first task and goes from each to the next |
| `Meaning.RunsMatch` | crates/roki-daemon/src/engine/cycle_state.rs:42-147 | the two runs agree from every location and context, for every machine that realizes the body |
| `Meaning.ExpandRealizes` | crates/roki-daemon/src/workflow/sugar.rs:174-204 | expansion realizes the body: each task and inline state keeps its job, condition, targets and directives through all passes, of several with one id the last |
| `Meaning.CapsAreWritten` | crates/roki-daemon/src/workflow/sugar.rs:201-229 | the caps of the expanded machine: the written `max_visits` or one for every task and inline state, and the default cap where pass 5 chose the state |
| `Meaning.TerminalsAre` | crates/roki-daemon/src/workflow/sugar.rs:382-410 | its terminals: the declared ones, and each standard one that the start, an edge, a default or a directive of the body names, with its standard outcome |
| `Cache.DiffCache.Observe` | crates/roki-daemon/src/daemon/cache.rs:70-153 | Unchanged exactly for a known triple, NewEntry exactly for an absent ticket; otherwise the triple is written and known afterwards |
| `Cache.WrittenIsKnown` | crates/roki-daemon/src/daemon/cache.rs:70-129 | after an update exactly the same status, assignee (a missing one standing for the empty one) and set of labels is known; the runtime fields and the first repository stay |
| `Cache.DiffCache.InFlightCount` | crates/roki-daemon/src/daemon/cache.rs:246-253 | counts exactly the entries with a cycle id |
| `Cache.DiffCache.TakePendingEvict` | crates/roki-daemon/src/daemon/cache.rs:210-218 | returns the flag and leaves it down |
| `Cache.DiffCache.TakePendingRecheck` | crates/roki-daemon/src/daemon/cache.rs:188-196 | returns the flag and leaves it down |
| `Cache.FlagsExactly` | crates/roki-daemon/src/daemon/cache.rs:182-218 | raising or lowering a flag does that and nothing else, for every ticket, cached or not |
| `Cache.DiffCache.SeedFromStoreHint` | crates/roki-daemon/src/daemon/cache.rs:269-283 | inserts an empty triple, never over an entry |
| `ActorTheorems.SeedKeepsRepo` | crates/roki-daemon/src/daemon/cold_start.rs:196-215 | a seeded ticket that cold start admits keeps its remembered repository, with the triple as observed |
| `ActorObjects.Dispatcher.OnWebhook` | crates/roki-daemon/src/daemon/dispatcher.rs:97-171 | run without interference it leaves cache, registry and inboxes as its atomic steps do; skips exactly known triples, spawns exactly when a task is added |
| `ActorObjects.WebhookSettles` | crates/roki-daemon/src/daemon/dispatcher.rs:133-171 | an admitted webhook without interference: the triple refreshed, a revocation taken back, and for a new triple a message to a live task with room, a recheck flag for one without, or a new task |
| `ActorObjects.RevokeSettles` | crates/roki-daemon/src/daemon/dispatcher.rs:101-131 | a revoking webhook without interference marks the entry of a ticket with a handle and drops the entry of one without |
| `ActorObjects.Dispatcher.Reject` | crates/roki-daemon/src/daemon/dispatcher.rs:110-129 | the admission-revoke path as its atomic steps |
| `ActorObjects.Dispatcher.SendOrSpawn` | crates/roki-daemon/src/daemon/dispatcher.rs:148-171 | delivers, defers or respawns as its atomic steps do |
| `ActorObjects.Dispatcher.AdmitForColdStart` | crates/roki-daemon/src/daemon/dispatcher.rs:190-244 | spawns and seeds a task, over any earlier handle |
| `ActorObjects.AdmissionSettles` | crates/roki-daemon/src/daemon/cold_start.rs:196-215 | cold start without interference refreshes the triple, leaves a revocation, and spawns whatever the registry holds |
| `ActorObjects.StepOnce` | crates/roki-daemon/src/daemon/ticket_task.rs:146-242 | run without interference it leaves cache and inbox as the task's atomic steps do, and reports an eviction exactly when the task leaves its loop |
| `ActorObjects.MessageSettles` | crates/roki-daemon/src/daemon/ticket_task.rs:146-242 | a message without interference: a finished cleanup, an immediate delete, a cleanup that broke on the file system and a revocation drop the entry and end the task; any other cycle leaves the entry without a cycle id, and a flagged update in the task's own inbox if there is room |
| `ActorObjects.RecheckSettles` | crates/roki-daemon/src/daemon/ticket_task.rs:225-234 | a flagged update is only put back if the entry is still there |
| `ActorObjects.Inbox.TrySend` | crates/roki-daemon/src/daemon/dispatcher.rs:212-213 | Closed, Full at capacity one, or enqueued |
| `ActorInvariants.InvKept` | crates/roki-daemon/src/daemon/dispatcher.rs:97-244 | every atomic step of the driver or of any task keeps the invariant of registry, tasks, flags and cache |
| `ActorInvariants.ShapeKept` | crates/roki-daemon/src/daemon/dispatcher.rs:148-244 | the registry names exactly the newest task of each ticket, every other task is dead, inboxes hold at most one message |
| `ActorTheorems.NoLostUpdate` | crates/roki-daemon/src/daemon/dispatcher.rs:141-171 | over all interleavings, an update written after the last look a task took has a writer about to route it, or a task of the ticket with a message or about to look, unless the ticket was evicted or shutdown began |
| `ActorTheorems.LossNeedsExit` | crates/roki-daemon/src/daemon/ticket_task.rs:97-141 | an update that nobody carries is left behind exactly when the ticket's newest task has left its loop, which it does only after an eviction or on shutdown |
| `ActorTheorems.LostAfterEvict` | crates/roki-daemon/src/daemon/ticket_task.rs:190-196 | and it can: for every ticket a run in which a webhook accepted between the eviction and the end of the receiver is lost, and delivering it again changes nothing |
| `ActorProgress.LookedAtInTime` | crates/roki-daemon/src/daemon/ticket_task.rs:97-165 | an update that has reached its task is looked at, or the ticket evicted, within nine steps of the task itself, whatever every other party does in between |
| `ActorProgress.RevokedInTime` | crates/roki-daemon/src/daemon/ticket_task.rs:211-225 | a ticket revoked while its cycle runs is evicted within five steps of its task, unless a re-admission cancels it, and until then the task does not turn to a recheck |
| `ActorTheorems.OneTaskPerTicket` | crates/roki-daemon/src/daemon/dispatcher.rs:148-171 | at most one task with an open inbox for each ticket, as long as cold start never admitted a ticket that had a task |
| `ActorTheorems.SecondTask` | crates/roki-daemon/src/daemon/dispatcher.rs:190-198 | the one step that breaks this, exactly: a cold-start spawn for a ticket whose registered task is alive |
| `ActorTheorems.DoubleAdmission` | crates/roki-daemon/src/daemon/dispatcher.rs:190-198 | then one ticket runs two cycles at once, of which the in-flight count shows one |
| `ActorTheorems.CycleIdMeansRunning` | crates/roki-daemon/src/daemon/ticket_task.rs:175-180 | a cached cycle id is set exactly while a task of the ticket is between setting and clearing it |
| `ActorTheorems.InFlightIsRunning` | crates/roki-daemon/src/daemon/cache.rs:246-253 | the in-flight count equals the number of tasks running a cycle |
| `ActorTheorems.EvictionSparesRunning` | crates/roki-daemon/src/daemon/ticket_task.rs:190-225 | no step of anyone removes an entry while a cycle of its ticket is chosen or running |
| `ActorTheorems.DispatcherEvictsOnlySeeded` | crates/roki-daemon/src/daemon/dispatcher.rs:117-128 | the dispatcher itself only ever evicts an entry for which no task was ever spawned |
| `ActorTheorems.RevokeDropsExactly` | crates/roki-daemon/src/daemon/dispatcher.rs:117-128 | a revoking webhook drops the cached entry at once exactly when no task was ever spawned for the ticket |
| `ActorTheorems.RevokedWhileIdle` | crates/roki-daemon/src/daemon/dispatcher.rs:111-116 | for every ticket a run that ends with the ticket revoked, its entry cached and its task waiting |
| `ActorTheorems.RevokedEntryStays` | crates/roki-daemon/src/daemon/ticket_task.rs:162-225 | a message the task takes while the flag is up removes the entry exactly when it selects a cycle, and otherwise leaves entry and flag alone |
| `ActorTheorems.TakeSettles` | crates/roki-daemon/src/daemon/ticket_task.rs:97-142 | a waiting task takes one message: the stop message ends it with what is left in its inbox, any other has it look at the cache |
| `ActorTheorems.StoppedOnce` | crates/roki-daemon/src/runtime.rs:467-483 | a ticket is told to stop at most once: after that its handle never comes back |
| `ActorTheorems.StoppedCleanly` | crates/roki-daemon/src/runtime.rs:467-483 | for every ticket a run in which its idle task is stopped and gone, its entry still cached and the registry empty |
| `Ring.EventRing.Record` | crates/roki-daemon/src/observability/ring.rs:42-72 | numbers from one without gaps and keeps the buffer equal to the last `capacity` recorded events, none for capacity zero |
| `Ring.EventRing.Page` | crates/roki-daemon/src/observability/ring.rs:74-128 | the first `limit` (at least one) matching events in order, the gap flag, and the last sequence number |
| `Ring.MatchingIs` | crates/roki-daemon/src/observability/ring.rs:89-109 | an event is selected exactly when it is held, beyond the cursor, and of the kind, the ticket and the cycle asked for; one without a ticket or a cycle is of none |
| `Ring.PageExactly` | crates/roki-daemon/src/observability/ring.rs:82-128 | a page is the oldest selected events, as many as asked for and at least one; when it reports a gap, and its cursor |
| `Ring.MatchingAscending` | crates/roki-daemon/src/observability/ring.rs:89-127 | a page is in strictly ascending order |
| `Poller.DeliveredOnceInOrder` | crates/roki-tui/src/poll/events.rs:13-30 | over all interleavings of records and polls, delivered events are as recorded, strictly ascending, and each event up to the cursor is delivered once or lost |
| `Poller.GapMeansOverwritten` | crates/roki-daemon/src/observability/ring.rs:83-88 | after the first delivery a page reports a gap exactly when an undelivered event was overwritten, starts right after the cursor otherwise, and events are lost exactly in pages that report it |
| `Poller.GapMissedExactly` | crates/roki-daemon/src/observability/ring.rs:84-88 | an overwritten event goes unreported exactly on a first page after the ring has wrapped |
| `Poller.RestartSkips` | crates/roki-tui/src/poll/events.rs:13-19 | a page against the ring of a new boot holds nothing up to the kept cursor, and reports a gap exactly while that ring holds nothing or once it has wrapped beyond the cursor |
| `Poller.DeliveredAfterRestart` | crates/roki-tui/src/poll/events.rs:13-19 | however records and polls interleave after a restart, what arrives is in order, as recorded and numbered beyond the old cursor, and each event from there to the new cursor was delivered or counted as lost |
| `Poller.PaneInStep` | crates/roki-tui/src/model/events.rs:15-29 | fed by the poller, the rows are strictly ascending and end at `last_seq` |
| `Poller.PollLoop.Tick` | crates/roki-tui/src/poll/events.rs:14-30 | one tick of the loop is one poll of the session |
| `EventsView.Pane.MergePage` | crates/roki-tui/src/model/events.rs:15-29 | appends the page to the rows, keeps the last thousand, raises `last_seq`, and sets or clears the banner |
| `EventsView.PaneShowsAll` | crates/roki-tui/src/model/events.rs:15-29 | after any pages the rows are the last thousand of everything delivered, and `last_seq` is its maximum |
| `EventsView.BannerMeansGap` | crates/roki-tui/src/model/events.rs:16-28 | the banner is up exactly when the newest page that reported a gap or an event reported a gap |
| `Drain.RunOnline` | crates/roki-daemon/src/cli/events.rs:145-228 | on a ring at rest the paging loop terminates for every filter and page size, and prints at most one gap marker, first, and then what one unpaged pass would print |
| `Drain.PrintedAre` | crates/roki-daemon/src/cli/events.rs:199-214 | which are exactly the events held beyond the start cursor, of the kind, ticket and cycle asked for and not before the time asked for; the marker comes first, exactly where the ring has lost something after the cursor |
| `Drain.MatchingFrom` | crates/roki-daemon/src/cli/events.rs:218-222 | moving the cursor to the n-th match drops exactly the first n matches |
| `Drain.DetailIsOldest` | crates/roki-daemon/src/api/projection/tickets.rs:21-40 | the ticket detail holds the oldest events of the ticket, and these are the documented most recent ones exactly when nothing is truncated |
| `CycleRows.Store.OpenCycle` | crates/roki-store/src/sqlite.rs:204-228 | inserts one open row, or fails on a known id |
| `CycleRows.Store.CloseCycle` | crates/roki-store/src/sqlite.rs:261-278 | sets outcome and end of an open row only |
| `CycleRows.Store.ListInflight` | crates/roki-store/src/sqlite.rs:295-307 | exactly the open rows, each once, oldest start first |
| `CycleRows.RealCycleRunner.RunCycle` | crates/roki-daemon/src/daemon/real_runner.rs:37-196 | the rows it leaves for each target, ending and handler, and its result; the cycle id it is handed takes no part in either |
| `CycleRows.RealCycleRunner.HandleFailedCycle` | crates/roki-daemon/src/daemon/real_runner.rs:205-331 | one level: nothing for a failed failure cycle or without a matching handler, else one closed row of kind failure |
| `CycleRows.NothingLeftOpen` | crates/roki-daemon/src/daemon/real_runner.rs:122-194 | an invocation leaves the open rows as they were, adds at most its two, touches no other, and its answer agrees with the row it wrote last |
| `CycleRows.InvocationWrites` | crates/roki-daemon/src/daemon/real_runner.rs:37-196 | the rows in full: kind, entry name, times, and the outcome each ending stands for (`no_action` and `cancelled` alone stand for themselves); when a handler gets a row; and the kind in the answer |
| `CycleRows.RecoverInflightCycles` | crates/roki-daemon/src/daemon/cold_start.rs:265-324 | closes exactly the open rows as failures, leaves none open, and reports exactly those with a UUID, oldest first |
| `CycleCrashes.OutcomeOnce` | crates/roki-store/src/sqlite.rs:261-278 | whatever fails and whenever the daemon crashes, an ended row keeps its outcome and end time |
| `CycleCrashes.OpenMeansRunning` | crates/roki-daemon/src/daemon/cold_start.rs:168-173 | over all interleavings and crashes, with successful writes, the open rows of a daemon that is up are exactly those of running invocations: none right after recovery |
| `CycleCrashes.AtMostTwoRows` | crates/roki-daemon/src/daemon/real_runner.rs:37-196 | an invocation opens at most two rows, and once it is over each is closed |
| `CycleCrashes.InvocationAlone` | crates/roki-daemon/src/daemon/real_runner.rs:37-196 | the interleaved steps, run without interruption, leave the table that `RunCycle` leaves |
| `CycleCrashes.WhoCloses` | crates/roki-store/src/sqlite.rs:261-278 | an open row is only ever closed by its own invocation, with the outcome settled for it, or by recovery, as failed |
| `CycleCrashes.ProgressSettles` | crates/roki-store/src/sqlite.rs:230-241 | progress is noted in the running cycle's row and nowhere else |
| `CycleCrashes.ReturnSettles` | crates/roki-daemon/src/daemon/real_runner.rs:122-194 | what an invocation will write is settled when its cycle returns, and when a handler follows |
| `CycleCrashes.RecoveryAlone` | crates/roki-daemon/src/daemon/cold_start.rs:265-324 | recovery without interruption leaves exactly the open rows closed as failures and the daemon up |
| `Dispatch.FirstMatch` | crates/roki-daemon/src/rule.rs:18-37 | the earliest entry that matches, and none only if none does |
| `Dispatch.EvaluateExactly` | crates/roki-daemon/src/engine/dispatch.rs:37-66 | an override replaces both lists for its repository; the first fitting cleanup decides, as an immediate delete when it has no states and starts at success; then the first fitting rule, outside the mode for cleanups only |
| `Dispatch.ClauseExactly` | crates/roki-daemon/src/rule.rs:46-86 | a clause asks for each part it has, of the ticket's own field, a missing assignee being the empty one |
| `Dispatch.LabelsExactly` | crates/roki-daemon/src/rule.rs:95-117 | `has_all` is inclusion, `has_any` a common label, `has_none` disjointness, whatever the order and repetition |
| `Dispatch.TextExactly` | crates/roki-daemon/src/rule.rs:119-133 | a beginning for `starts_with`, a part for the other two |
| `Dispatch.CacheDispatchAgrees` | crates/roki-daemon/src/engine/dispatch.rs:70-88 | for workflows without effective title or body matchers, the cached entry of a known ticket is dispatched as the ticket itself |
| `Dispatch.UnchangedSameTarget` | crates/roki-daemon/src/daemon/cache.rs:83-97 | two webhooks of which the second is skipped as unchanged would be dispatched alike |
| `Dispatch.BlindExactly` | crates/roki-daemon/src/rule.rs:119-130 | a text matcher answers alike on all texts exactly when its pattern is empty |
| `DispatchTexts.EntryExactly` | crates/roki-daemon/src/rule.rs:46-85 | an entry treats all titles and bodies alike exactly when it asks for none or does not accept the rest of the ticket |
| `DispatchTexts.CacheDispatchExactly` | crates/roki-daemon/src/engine/dispatch.rs:70-88 | for a known ticket, dispatch from the cache agrees with dispatch from the ticket for every title and body exactly when, in the list that decides, no entry with a text precedes the first without among those that accept the rest; before an immediate delete, other deletes and entries they cover may |
| `Dispatch.TitleIsLost` | crates/roki-daemon/src/engine/dispatch.rs:70-88 | an instance where they differ: one rule with a title matcher, and every ticket whose title it matches |
| `Dispatch.ComputeStatusUnion` | crates/roki-daemon/src/daemon/cold_start.rs:63-118 | all explicit statuses of all entries of all repositories, or nothing and the first cleanup that names none |
| `Dispatch.FilterKeepsExplicit` | crates/roki-daemon/src/daemon/cold_start.rs:136-141 | every ticket of any repository that dispatch sends to a cleanup, or to a rule with an `eq` or `in` status, passes the enumeration filter |
| `Dispatch.FilterMissesExactly` | crates/roki-daemon/src/daemon/cold_start.rs:63-118 | the filter misses a dispatched ticket exactly when it is in force, the status is outside it, and a rule of the repository without an explicit status matches |
| `Dispatch.AnyStatusRuleMissed` | crates/roki-daemon/src/daemon/cold_start.rs:78-94 | an instance: beside a rule that names a status, a rule that names none gets no ticket in another status from cold start |
| `Escaping.StripAnsiOnlyStripsOnly` | crates/roki-daemon/src/api/routes.rs:300-308 | for every string the five ordered replacements undo the escaping, leaving what the stripper produced |
| `Escaping.UndoOne` | crates/roki-daemon/src/api/routes.rs:303-307 | replacing one entity where every ampersand is escaped makes exactly that character plain |
| `Escaping.AmpersandFirstIsWrong` | crates/roki-daemon/src/api/routes.rs:303-307 | the ampersand first would not be the inverse |
| `RateLimit.RateLimitState.Record429` | crates/roki-daemon/src/linear/rate_limit.rs:67-81 | one to sixty seconds: the header if there is one, else twice the last |
| `RateLimit.NextExactly` | crates/roki-daemon/src/linear/rate_limit.rs:67-81 | a header of one second to a minute is obeyed whatever came before, a longer or shorter one is cut to that; silence doubles from one second to a minute |
| `RateLimit.BackoffRange` | crates/roki-daemon/src/linear/rate_limit.rs:67-81 | any run of answers, with or without headers, stays in that range |
| `RateLimit.NthBackoff` | crates/roki-daemon/src/linear/rate_limit.rs:67-86 | from a cleared state the n-th answer in a row without a header backs off min(60, 2^(n-1)) seconds |
| `RateLimit.FetchPage` | crates/roki-daemon/src/linear/graphql.rs:102-140 | at most seven requests for a page, ending at the first answer that is no 429, with exactly the back-offs of the 429s before it |
| `RateLimit.SixSilent` | crates/roki-daemon/src/linear/graphql.rs:116-120 | the six back-offs before giving up add up to 63 seconds exactly when the state was clear; left as the first exhaustion leaves it, the next add up to 360 |

## Left out
- Integer widths: counters, sequence numbers and seconds are unbounded; only the saturating doubling of the back-off is kept.
- Durations.DurationRoundTrip: the overflow of minutes is that of a release build; a debug build panics on the same texts.
- Sugar.ExpandBody: expansion of one body; the walk over a whole file, matchers and admission settings are converted field by field and left out.
- Validate.Check: which errors are reported is exact; that the list is sorted at the end is not kept.
- Driver.RunCycle: the best-effort mirror of visits and current state into the store, and the liquid globals, are not part of the run.
- RealRunner.EdgeDeclared: spawning, output capture, stall watching, signals and sentinel parsing are summed up in how the child ended.
- Cache.DiffCache.Observe: the event time and the best-effort mirror into the store are not kept; its two phases are separate steps in `Actors`.
- ActorObjects.StepOnce: the cycle trigger, the escalation queue and the content of messages, which the step ignores, are not kept.
- Actors: task scheduling, memory orderings and the shutdown deadline; shutdown is one send for each ticket in any order.
- Poller.GapMeansOverwritten: the poller sends no filter; filtered pages are covered by `Ring` and `Drain` only.
- Drain.RunOnline: the tail mode with its retries, the text of the lines and the one-time notice on standard error.
- Offline reading of event files, whose `--since` is inclusive where the online one is exclusive.
- CycleRows.Store.OpenCycle: the foreign key to the ticket row; a failed write is covered by `CycleCrashes`.
- CycleRows.RealCycleRunner.RunCycle: the cycle metadata file, events, and the deletion of worktrees.
- DispatchTexts.CacheDispatchExactly: where the bare ticket matches an immediate delete it takes a character that no cleanup pattern contains, of which there are more than a million to choose from.
- Dispatch.FirstMatch: matchers on failure kind and phase, which only failure routing reads.
- RateLimit.FetchPage: transport, parsing and the outer page loop; a state shared with another client may back off longer, still within `BackoffRange`.
- HTTP servers, webhook parsing, GraphQL bodies, configuration loading, the terminal interface, the escalation ring, polling and debouncing: plumbing, or easy members only.
