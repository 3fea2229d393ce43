// The protocol's guarantees over every run, and the two ways they end: a second
// cold-start admission, and a message sent to a task that has already evicted.
module ActorTheorems {
  import opened Common
  import opened Cache
  import opened Actors
  import opened ActorInvariants
  import opened ActorObjects

  predicate Alive(s: System, k: nat) {
    k < |s.tasks| && !s.tasks[k].pc.Dead?
  }

  // A task that will look at the cache: it holds a message or has just taken one.
  predicate WillLook(s: System, k: nat) {
    k < |s.tasks| && Heard(s.tasks[k].pc, s.tasks[k].inbox)
  }

  // No lost update: if `observe` wrote t's entry after the last look a task took
  // at it, then the writer has still to hand t over, or a task of t holds a
  // message or has taken one without looking yet. This fails only for a ticket
  // that was evicted, or after shutdown began.
  lemma NoLostUpdate(steps: seq<Step>, t: TicketId)
    requires var s := Run(BOOT, steps);
      !s.doubled && t in s.dirty && t !in s.evicted && !s.phase.Stopping?
    ensures var s := Run(BOOT, steps);
      Carried(s.driver, t) || exists k: nat :: WillLook(s, k) && s.tasks[k].ticket == t
  {
    var s := Run(BOOT, steps);
    InvReached(steps);
    hide Run;
    assert TicketOk(s, t);
    if !Carried(s.driver, t) {
      assert WillLook(s, s.latest[t]);
    }
  }

  // Whatever was evicted or shut down: an update that nobody carries is left behind
  // exactly when the ticket's newest task has left its loop, which it does only
  // after an eviction or on shutdown.
  lemma LossNeedsExit(steps: seq<Step>, t: TicketId)
    requires var s := Run(BOOT, steps); !s.doubled && t in s.dirty && !Carried(s.driver, t)
    ensures var s := Run(BOOT, steps);
      && (!Heard(PcOf(s, t), InboxOf(s, t)) <==> t in s.latest && Gone(PcOf(s, t)))
      && (!Heard(PcOf(s, t), InboxOf(s, t)) ==> t in s.evicted || s.phase.Stopping?)
  {
    InvReached(steps);
    hide Run;
    assert TicketOk(Run(BOOT, steps), t);
  }

  ghost predicate AtMostOneTask(s: System) {
    forall j: nat, k: nat | Alive(s, j) && Alive(s, k) && s.tasks[j].ticket == s.tasks[k].ticket :: j == k
  }

  // One task with an open inbox for each ticket, and so at most one cycle.
  lemma OneTaskPerTicket(steps: seq<Step>)
    requires !Run(BOOT, steps).doubled
    ensures AtMostOneTask(Run(BOOT, steps))
  {
    InvReached(steps);
  }

  // The step that breaks it, exactly: cold start spawns for a ticket whose
  // registered task is still alive.
  lemma SecondTask(steps: seq<Step>, step: Step)
    requires !Run(BOOT, steps).doubled
    ensures var s := Run(BOOT, steps);
      !AtMostOneTask(Apply(s, step))
      <==> (step.Drive? && s.driver.Admitting? && s.driver.a.id in s.registry && Alive(s, s.registry[s.driver.a.id]))
  {
    var s := Run(BOOT, steps);
    InvReached(steps);
    hide Run;
    if step.Drive? && s.driver.Admitting? {
      SpawnTwice(s);
    } else {
      assert !Apply(s, step).doubled by { hide TaskStep, DriverTurn; }
      InvKept(s, step);
      assert LatestOk(Apply(s, step));
      hide Apply;
    }
  }

  lemma SpawnTwice(s: System)
    requires Shape(s) && s.driver.Admitting?
    ensures !AtMostOneTask(DriverNext(s)) <==> (s.driver.a.id in s.registry && Alive(s, s.registry[s.driver.a.id]))
  {
    var id, s' := s.driver.a.id, DriverNext(s);
    if id in s.registry && Alive(s, s.registry[id]) {
      assert Alive(s', s.registry[id]) && Alive(s', |s.tasks|);
    } else {
      forall j: nat, k: nat | Alive(s', j) && Alive(s', k) && s'.tasks[j].ticket == s'.tasks[k].ticket
        ensures j == k
      {
      }
    }
  }

  // ---- the cycle id ------------------------------------------------------------

  ghost function CyclesRunning(s: System): set<nat> {
    set k: nat | k < |s.tasks| && Held(s.tasks[k].pc)
  }

  // The cached cycle id is set exactly while a task of the ticket is between
  // setting and clearing it.
  lemma CycleIdMeansRunning(steps: seq<Step>, t: TicketId)
    requires !Run(BOOT, steps).doubled
    ensures var s := Run(BOOT, steps);
      HasCycle(s.cache, t) <==> exists k :: k in CyclesRunning(s) && s.tasks[k].ticket == t
  {
    var s := Run(BOOT, steps);
    InvReached(steps);
    hide Run;
    assert TicketOk(s, t);
    if HasCycle(s.cache, t) {
      assert s.latest[t] in CyclesRunning(s);
    }
  }

  // The number reported when shutdown begins is the number of running cycles.
  lemma InFlightIsRunning(steps: seq<Step>)
    requires !Run(BOOT, steps).doubled
    ensures var s := Run(BOOT, steps); |InFlight(s.cache)| == |CyclesRunning(s)|
  {
    var s := Run(BOOT, steps);
    InvReached(steps);
    forall t ensures t in InFlight(s.cache) <==> exists k :: k in CyclesRunning(s) && s.tasks[k].ticket == t {
      CycleIdMeansRunning(steps, t);
    }
    forall j, k | j in CyclesRunning(s) && k in CyclesRunning(s) && s.tasks[j].ticket == s.tasks[k].ticket
      ensures j == k
    {
    }
    hide Run, Inv, InFlight;
    SameSize(s.tasks, CyclesRunning(s), InFlight(s.cache));
  }

  lemma SameSize(tasks: seq<Task>, ks: set<nat>, ts: set<TicketId>)
    requires forall k <- ks :: k < |tasks|
    requires forall j, k | j in ks && k in ks && tasks[j].ticket == tasks[k].ticket :: j == k
    requires forall t :: t in ts <==> exists k :: k in ks && tasks[k].ticket == t
    ensures |ks| == |ts|
  {
    if ks == {} {
      assert ts == {};
    } else {
      var k :| k in ks;
      var t := tasks[k].ticket;
      assert t in ts;
      forall u ensures u in ts - {t} <==> exists j :: j in ks - {k} && tasks[j].ticket == u {
        if u in ts - {t} {
          var j :| j in ks && tasks[j].ticket == u;
          assert j in ks - {k};
        }
      }
      SameSize(tasks, ks - {k}, ts - {t});
    }
  }

  // No entry disappears while a cycle of its ticket is chosen or running,
  // whoever evicts.
  lemma EvictionSparesRunning(steps: seq<Step>, step: Step, k: nat)
    requires var s := Run(BOOT, steps);
      && !Apply(s, step).doubled
      && k < |s.tasks| && (Held(s.tasks[k].pc) || s.tasks[k].pc.Chosen?)
    ensures var s := Run(BOOT, steps);
      s.tasks[k].ticket in s.cache && s.tasks[k].ticket in Apply(s, step).cache
  {
    var s := Run(BOOT, steps);
    if s.doubled { DoubledStays(s, [step]); }
    InvReached(steps);
    hide Run;
    assert TicketOk(s, s.tasks[k].ticket);
    if Enabled(s, step) {
      match step
      case Drive => TurnSpares(s, s.tasks[k].ticket);
      case Act(j, choice) => TaskSpares(s, j, choice, k);
      case _ =>
    }
  }

  lemma TurnSpares(s: System, t: TicketId)
    requires Shape(s) && t in s.cache && t in s.latest && !s.driver.Idle?
    ensures t in DriverNext(s).cache
  {
  }

  lemma TaskSpares(s: System, j: nat, choice: Choice, k: nat)
    requires LatestOk(s) && j < |s.tasks| && k < |s.tasks| && s.tasks[k].ticket in s.cache
    requires Held(s.tasks[k].pc) || s.tasks[k].pc.Chosen?
    ensures s.tasks[k].ticket in TaskNext(s, j, choice).cache
  {
  }

  // The dispatcher's own eviction only ever reaches an entry for which no task
  // was ever spawned: one seeded from the store.
  lemma DispatcherEvictsOnlySeeded(steps: seq<Step>, k: nat)
    requires var s := Run(BOOT, steps); !s.doubled && s.driver.Dropping? && k < |s.tasks|
    ensures var s := Run(BOOT, steps); s.tasks[k].ticket != s.driver.t
  {
    InvReached(steps);
  }

  // A webhook that revokes a cached ticket drops its entry at once exactly when no
  // task was ever spawned for it: the registry keeps the handle of an idle task.
  lemma RevokeDropsExactly(steps: seq<Step>, t: TicketId)
    requires var s := Run(BOOT, steps); !s.doubled && s.phase.Serving? && s.driver.Idle? && t in s.cache
    ensures var s := Run(BOOT, steps);
      t !in DriverAlone(s.(driver := Rejecting(t))).cache <==> t !in s.latest
  {
    var s := Run(BOOT, steps);
    InvReached(steps);
    assert RegistryOk(s);
    hide Run, Inv, RegistryOk;
    RejectedAlone(s, t);
  }

  lemma RejectedAlone(s: System, t: TicketId)
    requires s.driver.Idle? && t in s.cache
    ensures DriverAlone(s.(driver := Rejecting(t))).cache
            == if t in s.registry then WithEvict(s.cache, t, true) else WithEvict(s.cache, t, true) - {t}
  {
    var now := Turned(s.(driver := Rejecting(t)));
    now := Turned(now);
    now := Turned(now);
    if t !in s.registry { now := Turned(now); }
  }

  // What is left of the revocation is settled by the next message, exactly when it
  // selects a cycle: a message that matches nothing leaves entry and flag alone.
  lemma RevokedEntryStays(task: Task, cache: Entries, choice: Choice)
    requires task.pc.Received? && EvictSet(cache, task.ticket)
    ensures var end := TaskAlone(task, cache, choice);
      && (task.ticket !in end.cache <==> choice.matches)
      && (!choice.matches ==> end == Local(task.(pc := Waiting), cache))
  {
    var now := Stepped(Local(task, cache), choice);
    if choice.matches {
      now := Stepped(now, choice);
      now := Stepped(now, choice);
      now := Stepped(now, choice);
      if !now.task.pc.Leaving? { now := Stepped(now, choice); }
      assert now.task.pc.Leaving?;
      now := Stepped(now, choice);
    }
  }

  // ---- the loss window ---------------------------------------------------------

  lemma {:induction false} RunAppend(s: System, xs: seq<Step>, ys: seq<Step>)
    ensures Run(s, xs + ys) == Run(Run(s, xs), ys)
    decreases |xs|
  {
    if xs == [] {
      assert xs + ys == ys;
    } else {
      hide Apply;
      assert (xs + ys)[1..] == xs[1..] + ys;
      RunAppend(Apply(s, xs[0]), xs[1..], ys);
    }
  }

  function Entered(a: Admitted): Entry {
    Fresh(a.repo, a.status, Tracked(a).1, a.assignee.GetOr(""))
  }

  // The system with one task, all of one ticket.
  function Lone(a: Admitted, cache: Entries, inbox: seq<Message>, pc: Pc, dirty: set<TicketId>, evicted: set<TicketId>): System {
    System(cache, map[a.id := 0], [Task(a.id, inbox, pc)], Idle, Serving, map[a.id := 0], dirty, evicted, false)
  }

  lemma Then(run: seq<Step>, step: Step) returns (more: seq<Step>)
    ensures Run(BOOT, more) == Apply(Run(BOOT, run), step)
  {
    more := run + [step];
    RunAppend(BOOT, run, [step]);
    hide Apply;
  }

  // Four turns of the dispatcher take a webhook for an unknown ticket to the
  // registry.
  lemma Announced(run: seq<Step>, a: Admitted) returns (more: seq<Step>)
    requires var s := Run(BOOT, run); s.phase.Serving? && s.driver.Idle? && a.id !in s.cache
    ensures var s := Run(BOOT, run);
      Run(BOOT, more) == Route(s.(cache := s.cache[a.id := Entered(a)], dirty := s.dirty + {a.id}, driver := Routing(a)), a.id)
  {
    var s := Run(BOOT, run);
    hide Run, Route;
    more := Then(run, Deliver(a));
    more := Then(more, Drive);
    more := Then(more, Drive);
    more := Then(more, Drive);
    assert Run(BOOT, more) == s.(cache := s.cache[a.id := Entered(a)], dirty := s.dirty + {a.id}, driver := Routing(a));
    more := Then(more, Drive);
  }

  // A task with a message, whose entry is cached, starts a cycle in three steps.
  lemma Started(run: seq<Step>, k: nat, id: nat) returns (more: seq<Step>)
    requires var s := Run(BOOT, run);
      k < |s.tasks| && s.tasks[k].pc.Waiting? && |s.tasks[k].inbox| == 1 && !s.tasks[k].inbox[0].Shutdown? && s.tasks[k].ticket in s.cache
    ensures var s := Run(BOOT, run);
      var t := s.tasks[k].ticket;
      Run(BOOT, more) == s.(tasks := s.tasks[k := Task(t, [], Running)], cache := WithCycle(s.cache, t, Some(id)), dirty := s.dirty - {t})
  {
    var s := Run(BOOT, run);
    hide Run, WithCycle;
    var go := Act(k, Choice(true, id, FailedCycle));
    assert s.tasks[k].inbox[1..] == [];
    more := Then(run, go);
    assert Run(BOOT, more) == s.(tasks := s.tasks[k := Task(s.tasks[k].ticket, [], Received)]);
    more := Then(more, go);
    assert Run(BOOT, more) == s.(tasks := s.tasks[k := Task(s.tasks[k].ticket, [], Chosen)], dirty := s.dirty - {s.tasks[k].ticket});
    more := Then(more, go);
  }

  lemma FirstCycle(a: Admitted) returns (run: seq<Step>)
    ensures Run(BOOT, run) == Lone(a, map[a.id := Entered(a).(cycleId := Some(0))], [], Running, {}, {})
  {
    run := Then([], Enumerate);
    run := Then(run, Step.Open);
    run := Announced(run, a);
    hide Run, Apply;
    assert Run(BOOT, run) == Lone(a, map[a.id := Entered(a)], [Webhook], Waiting, {a.id}, {});
    run := Started(run, 0, 0);
    assert Run(BOOT, run).tasks == [Task(a.id, [], Running)] && Run(BOOT, run).dirty == {};
    assert Run(BOOT, run).cache == map[a.id := Entered(a).(cycleId := Some(0))];
  }

  // From its first message through a cleanup cycle up to the eviction.
  lemma CleanedUp(a: Admitted) returns (run: seq<Step>)
    ensures Run(BOOT, run) == Lone(a, map[], [], Exiting, {}, {a.id})
  {
    run := FirstCycle(a);
    hide Run, Fresh;
    var clean := Act(0, Choice(true, 0, Completed(true)));
    run := Then(run, clean);
    run := Then(run, clean);
    assert Run(BOOT, run) == Lone(a, map[a.id := Entered(a).(cycleId := None)], [], Leaving, {}, {});
    run := Then(run, clean);
  }

  // A webhook with a known triple leaves everything as it was.
  lemma Skipped(s: System, a: Admitted)
    requires s.phase.Serving? && s.driver.Idle? && Known(s.cache, a) && !EvictSet(s.cache, a.id)
    ensures Apply(Apply(Apply(s, Deliver(a)), Drive), Drive) == s
  {
  }

  // The promise does not survive the task's own eviction: for every ticket there
  // is a run in which a webhook arrives between the eviction and the end of the
  // receiver, is accepted by the old inbox, and dies there. The cache then holds
  // the new triple, no task is alive, and delivering the same webhook again
  // changes nothing, any number of times.
  lemma LostAfterEvict(a: Admitted) returns (run: seq<Step>)
    ensures var s := Run(BOOT, run);
      && !s.doubled && s.phase.Serving? && s.driver.Idle?
      && a.id in s.dirty && Known(s.cache, a)
      && forall k: nat :: !Alive(s, k)
    ensures var s := Run(BOOT, run);
      Apply(Apply(Apply(s, Deliver(a)), Drive), Drive) == s
  {
    run := CleanedUp(a);
    run := Announced(run, a);
    hide Run;
    assert [] + [Webhook] == [Webhook] && {} + {a.id} == {a.id};
    assert Run(BOOT, run) == Lone(a, map[a.id := Entered(a)], [Webhook], Exiting, {a.id}, {a.id});
    run := Then(run, Act(0, Choice(true, 0, FailedCycle)));
    assert Run(BOOT, run) == Lone(a, map[a.id := Entered(a)], [], Dead, {a.id}, {a.id});
    Skipped(Run(BOOT, run), a);
    hide Apply;
  }

  // Cold start admits a ticket that the cache may already hold.
  lemma ColdAdmitted(run: seq<Step>, a: Admitted) returns (more: seq<Step>)
    requires var s := Run(BOOT, run); s.phase.Enumerating? && s.driver.Idle?
    ensures var s := Run(BOOT, run);
      var cache := if Known(s.cache, a) then s.cache else Written(s.cache, a);
      var dirty := if Known(s.cache, a) then s.dirty else s.dirty + {a.id};
      Run(BOOT, more) == Spawn(s.(cache := cache, dirty := dirty), a.id, ColdStartCycle).(doubled := s.doubled || a.id in s.registry)
  {
    var s := Run(BOOT, run);
    hide Run, Written, Known;
    more := Then(run, Admit(a));
    assert Run(BOOT, more) == s.(driver := ColdReading(a));
    more := Then(more, Drive);
    if !Known(s.cache, a) {
      more := Then(more, Drive);
      assert Run(BOOT, more) == s.(cache := Written(s.cache, a), dirty := s.dirty + {a.id}, driver := Admitting(a));
    }
    more := Then(more, Drive);
  }

  // Admitted twice at cold start, one ticket runs two cycles at once, and the
  // number in flight counts only one of them.
  lemma DoubleAdmission(a: Admitted) returns (run: seq<Step>)
    ensures var s := Run(BOOT, run);
      && |s.tasks| == 2 && s.tasks[0].ticket == s.tasks[1].ticket == a.id
      && s.tasks[0].pc.Running? && s.tasks[1].pc.Running?
      && InFlight(s.cache) == {a.id}
  {
    run := Then([], Enumerate);
    run := ColdAdmitted(run, a);
    hide Run;
    assert Run(BOOT, run) == Lone(a, map[a.id := Entered(a)], [ColdStartCycle], Waiting, {a.id}, {}).(phase := Enumerating);
    run := ColdAdmitted(run, a);
    hide Apply;
    assert Run(BOOT, run).cache == map[a.id := Entered(a)];
    assert Run(BOOT, run).tasks == [Task(a.id, [ColdStartCycle], Waiting), Task(a.id, [ColdStartCycle], Waiting)];
    hide Written, Spawn, Known;
    run := Started(run, 0, 0);
    run := Started(run, 1, 1);
  }

  // A failed cycle returns the task to its inbox.
  lemma IdleAgain(a: Admitted) returns (run: seq<Step>)
    ensures Run(BOOT, run) == Lone(a, map[a.id := Entered(a)], [], Waiting, {}, {})
  {
    run := FirstCycle(a);
    hide Run;
    var fail := Act(0, Choice(true, 0, FailedCycle));
    run := Then(run, fail);
    run := Then(run, fail);
    assert Run(BOOT, run) == Lone(a, map[a.id := Entered(a)], [], AskingEvict, {}, {});
    run := Then(run, fail);
    run := Then(run, fail);
  }

  lemma Revoked(run: seq<Step>, t: TicketId) returns (more: seq<Step>)
    requires var s := Run(BOOT, run); s.phase.Serving? && s.driver.Idle? && t in s.cache && t in s.registry
    ensures Run(BOOT, more) == Run(BOOT, run).(cache := WithEvict(Run(BOOT, run).cache, t, true))
  {
    var s := Run(BOOT, run);
    hide Run, WithEvict;
    more := Then(run, Refuse(t));
    more := Then(more, Drive);
    assert Run(BOOT, more) == s.(driver := Revoking(t));
    more := Then(more, Drive);
    assert Run(BOOT, more) == s.(cache := WithEvict(s.cache, t, true), driver := Checking(t));
    more := Then(more, Drive);
  }

  // And such an entry exists: for every ticket there is a run that ends with the
  // ticket revoked, its entry cached, and its task waiting for a message.
  lemma RevokedWhileIdle(a: Admitted) returns (run: seq<Step>)
    ensures var s := Run(BOOT, run);
      s.phase.Serving? && s.driver.Idle? && s.tasks == [Task(a.id, [], Waiting)] && EvictSet(s.cache, a.id)
  {
    run := IdleAgain(a);
    hide Run;
    run := Revoked(run, a.id);
  }

  // ---- shutdown ------------------------------------------------------------------

  // Shutting down takes a handle out of the registry and puts one message behind
  // whatever the inbox holds; a dropped receiver gets none.
  lemma StopSettles(s: System, t: TicketId)
    requires Enabled(s, SendStop(t))
    ensures var k, s' := s.registry[t], Apply(s, SendStop(t));
      && s'.registry.Keys == s.registry.Keys - {t} && (forall u <- s'.registry :: s'.registry[u] == s.registry[u])
      && s' == s.(registry := s'.registry, tasks := s'.tasks)
      && s'.tasks == if s.tasks[k].pc.Dead? then s.tasks else s.tasks[k := s.tasks[k].(inbox := s.tasks[k].inbox + [Shutdown])]
  {
  }

  // So a ticket is told to stop at most once: its handle never comes back.
  lemma {:induction false} StoppedOnce(s: System, steps: seq<Step>, t: TicketId)
    requires s.phase.Stopping? && s.driver.Idle? && t !in s.registry
    ensures var s' := Run(s, steps); s'.phase.Stopping? && t !in s'.registry && !Enabled(s', SendStop(t))
    decreases |steps|
  {
    if steps == [] {
    } else {
      assert Apply(s, steps[0]).phase.Stopping? && Apply(s, steps[0]).driver.Idle? && t !in Apply(s, steps[0]).registry;
      hide Apply;
      StoppedOnce(Apply(s, steps[0]), steps[1..], t);
    }
  }

  // A waiting task takes one message: the stop message ends it, and its receiver goes
  // with whatever is left in the inbox; any other one has it look at the cache.
  lemma TakeSettles(s: System, k: nat, choice: Choice)
    requires k < |s.tasks| && s.tasks[k].pc == Waiting && s.tasks[k].inbox != []
    ensures var task, next := s.tasks[k], Apply(s, Act(k, choice));
      && next == s.(tasks := s.tasks[k := Task(task.ticket, task.inbox[1..], if task.inbox[0] == Shutdown then Exiting else Received)])
      && (task.inbox[0] == Shutdown ==> Apply(next, Act(k, choice)) == s.(tasks := s.tasks[k := Task(task.ticket, [], Dead)]))
  {
  }

  // So a task that waits when the daemon stops is gone after one message, and its
  // cached entry stays for the next start.
  lemma StoppedCleanly(a: Admitted) returns (run: seq<Step>)
    ensures var s := Run(BOOT, run);
      s.phase.Stopping? && s.registry == map[] && s.tasks == [Task(a.id, [], Dead)] && s.cache == map[a.id := Entered(a)]
  {
    run := IdleAgain(a);
    hide Run;
    var choice := Choice(false, 0, FailedCycle);
    var idle := Run(BOOT, run);
    run := Then(run, Stop);
    assert Run(BOOT, run) == idle.(phase := Stopping) && idle.registry == map[a.id := 0];
    run := Then(run, SendStop(a.id));
    assert [] + [Shutdown] == [Shutdown] && map[a.id := 0] - {a.id} == map[];
    assert Run(BOOT, run).tasks == [Task(a.id, [Shutdown], Waiting)] && Run(BOOT, run).registry == map[];
    var told := Run(BOOT, run);
    TakeSettles(told, 0, choice);
    run := Then(run, Act(0, choice));
    run := Then(run, Act(0, choice));
    assert [Task(a.id, [Shutdown], Waiting)][0 := Task(a.id, [], Dead)] == [Task(a.id, [], Dead)];
    hide Apply;
  }

  // A ticket the store remembers comes back with its remembered repository: cold
  // start fills in the triple and leaves that alone.
  lemma SeedKeepsRepo(a: Admitted, repo: string) returns (run: seq<Step>)
    requires a.status != ""
    ensures var s := Run(BOOT, run);
      && s.tasks == [Task(a.id, [ColdStartCycle], Waiting)] && s.cache.Keys == {a.id}
      && s.cache[a.id].repo == repo && TrackedOf(s.cache[a.id]) == Tracked(a)
  {
    run := Then([], Seed(a.id, repo));
    run := Then(run, Enumerate);
    hide Run;
    assert Run(BOOT, run).cache == map[a.id := Fresh(repo, "", {}, "")];
    run := ColdAdmitted(run, a);
  }
}
