// What every interleaving of the driver and the ticket tasks keeps.
module ActorInvariants {
  import opened Common
  import opened Cache
  import opened Actors

  // ---- who owns what -----------------------------------------------------------

  ghost predicate LatestOk(s: System) {
    && (forall t <- s.latest :: s.latest[t] < |s.tasks| && s.tasks[s.latest[t]].ticket == t)
    && (forall k | 0 <= k < |s.tasks| ::
          && s.tasks[k].ticket in s.latest
          && (s.tasks[k].pc.Dead? || k == s.latest[s.tasks[k].ticket])
          && |s.tasks[k].inbox| <= INBOX_CAPACITY
          && (Shutdown in s.tasks[k].inbox ==> s.phase.Stopping?))
  }

  ghost predicate RegistryOk(s: System) {
    if s.phase.Stopping? then forall t <- s.registry :: t in s.latest && s.registry[t] == s.latest[t]
    else s.registry == s.latest
  }

  ghost predicate DriverOk(s: System) {
    match s.driver
    case Idle => true
    case ColdReading(_) => s.phase.Enumerating?
    case ColdWriting(_) => s.phase.Enumerating?
    case Admitting(_) => s.phase.Enumerating?
    case Dropping(t) => s.phase.Serving? && t !in s.latest
    case _ => s.phase.Serving?
  }

  ghost predicate Shape(s: System) {
    LatestOk(s) && RegistryOk(s) && DriverOk(s)
  }

  // Only task k changed, and it is still a task of the same ticket.
  ghost predicate OneTask(s: System, s': System, k: nat) {
    && k < |s.tasks| == |s'.tasks|
    && s'.tasks == s.tasks[k := s'.tasks[k]]
    && s'.tasks[k].ticket == s.tasks[k].ticket
    && s'.latest == s.latest
  }

  lemma LatestByTask(s: System, s': System, k: nat)
    requires LatestOk(s) && OneTask(s, s', k) && (s.phase.Stopping? ==> s'.phase.Stopping?)
    requires |s'.tasks[k].inbox| <= INBOX_CAPACITY && (Shutdown in s'.tasks[k].inbox ==> s'.phase.Stopping?)
    requires s.tasks[k].pc.Dead? ==> s'.tasks[k].pc.Dead?
    ensures LatestOk(s')
  {
  }

  lemma LatestBySpawn(s: System, t: TicketId, seed: Message)
    requires LatestOk(s) && !seed.Shutdown?
    requires t in s.latest ==> s.tasks[s.latest[t]].pc.Dead?
    ensures LatestOk(Spawn(s, t, seed))
  {
  }

  lemma ShapeByTask(s: System, k: nat, choice: Choice)
    requires Shape(s) && k < |s.tasks|
    ensures Shape(TaskNext(s, k, choice))
  {
  }

  // Routing to a live task puts the message into its inbox or, if that is full,
  // defers; only a ticket without a live task gets a new one.
  lemma Routed(s: System, t: TicketId)
    requires Shape(s) && s.phase.Serving?
    ensures var s' := Route(s, t);
      if t in s.latest && !s.tasks[s.latest[t]].pc.Dead? then
        var k := s.latest[t];
        if s.tasks[k].inbox == [] then s' == WithInbox(s, k, [Webhook]).(driver := Idle)
        else s' == s.(driver := Deferring(t))
      else s' == Spawn(s, t, Webhook)
  {
    assert [] + [Webhook] == [Webhook];
  }

  lemma LatestByFrame(s: System, s': System)
    requires LatestOk(s) && RegistryOk(s)
    requires s'.tasks == s.tasks && s'.latest == s.latest && s'.registry == s.registry && s'.phase == s.phase
    ensures LatestOk(s') && RegistryOk(s')
  {
  }

  lemma ShapeByRoute(s: System, t: TicketId)
    requires Shape(s) && s.phase.Serving?
    ensures Shape(Route(s, t))
  {
    var s' := Route(s, t);
    Routed(s, t);
    hide Route;
    if !(t in s.latest && !s.tasks[s.latest[t]].pc.Dead?) {
      LatestBySpawn(s, t, Webhook);
    } else if s'.driver.Idle? {
      LatestByTask(s, s', s.latest[t]);
    }
  }

  lemma TurnPhase(s: System)
    requires DriverOk(s) && s.registry == s.latest && !s.driver.Admitting? && !s.driver.Routing?
    ensures DriverOk(DriverNext(s))
  {
  }

  lemma ShapeByDriver(s: System)
    requires Shape(s) && !s.driver.Idle? && !DriverNext(s).doubled
    ensures Shape(DriverNext(s))
  {
    if s.driver.Admitting? {
      LatestBySpawn(s, s.driver.a.id, ColdStartCycle);
    } else if s.driver.Routing? {
      ShapeByRoute(s, s.driver.a.id);
    } else {
      TurnPhase(s);
      hide DriverTurn;
      LatestByFrame(s, DriverNext(s));
    }
  }

  lemma ShapeBySendStop(s: System, t: TicketId)
    requires Shape(s) && Enabled(s, SendStop(t))
    ensures Shape(SentStop(s, t))
  {
  }

  // Starting, handing over and stopping touch no task.
  lemma ShapeByControl(s: System, step: Step)
    requires Shape(s) && Enabled(s, step) && !step.Drive? && !step.Act? && !step.SendStop?
    ensures Shape(Apply(s, step))
  {
  }

  lemma ShapeKept(s: System, step: Step)
    requires Shape(s) && !Apply(s, step).doubled
    ensures Shape(Apply(s, step))
  {
    hide Shape;
    if Enabled(s, step) {
      if step.Drive? {
        ShapeByDriver(s);
      } else if step.Act? {
        ShapeByTask(s, step.k, step.choice);
      } else if step.SendStop? {
        ShapeBySendStop(s, step.t);
      } else {
        ShapeByControl(s, step);
      }
    }
  }

  // ---- what holds of each ticket -----------------------------------------------

  // The program counter of the ticket's newest task; without a task, `Dead`.
  ghost function PcOf(s: System, t: TicketId): Pc {
    if t in s.latest && s.latest[t] < |s.tasks| then s.tasks[s.latest[t]].pc else Dead
  }

  ghost function InboxOf(s: System, t: TicketId): seq<Message> {
    if t in s.latest && s.latest[t] < |s.tasks| then s.tasks[s.latest[t]].inbox else []
  }

  // Between `set_cycle_id` and `clear_cycle_id`.
  predicate Held(pc: Pc) {
    pc.Running? || pc.Returned?
  }

  predicate Gone(pc: Pc) {
    pc.Exiting? || pc.Dead?
  }

  predicate HasCycle(c: Entries, t: TicketId) {
    t in c && c[t].cycleId.Some?
  }

  predicate CycleAt(pc: Pc, c: Entries, t: TicketId) {
    && (HasCycle(c, t) <==> Held(pc))
    && (pc.Chosen? ==> t in c)
  }

  // The driver has written the entry and is about to hand the ticket over.
  predicate Carried(d: Driver, t: TicketId) {
    (d.Routing? || d.Admitting?) && d.a.id == t
  }

  // A message is on its way to a look at the cache.
  predicate Heard(pc: Pc, inbox: seq<Message>) {
    pc.Received? || (inbox != [] && !Gone(pc))
  }

  ghost predicate TicketOk(s: System, t: TicketId) {
    && CycleAt(PcOf(s, t), s.cache, t)
    && (t in s.dirty ==> Carried(s.driver, t) || Heard(PcOf(s, t), InboxOf(s, t)) || (t in s.latest && Gone(PcOf(s, t))))
    && (t in s.latest && Gone(PcOf(s, t)) ==> t in s.evicted || s.phase.Stopping?)
  }

  ghost predicate Inv(s: System) {
    Shape(s) && forall t :: TicketOk(s, t)
  }

  lemma TaskStepCycle(task: Task, cache: Entries, choice: Choice, t: TicketId)
    requires CycleAt(task.pc, cache, task.ticket)
    ensures CycleAt(TaskStep(task, cache, choice).task.pc, TaskStep(task, cache, choice).cache, task.ticket)
    ensures t != task.ticket ==>
      (t in TaskStep(task, cache, choice).cache <==> t in cache)
      && (HasCycle(TaskStep(task, cache, choice).cache, t) <==> HasCycle(cache, t))
  {
  }

  lemma TaskStepHeard(task: Task, cache: Entries, choice: Choice)
    ensures var next := TaskStep(task, cache, choice).task;
      && (Heard(task.pc, task.inbox) && !task.pc.Received? ==> Heard(next.pc, next.inbox) || Gone(next.pc))
      && (Gone(task.pc) ==> Gone(next.pc))
      && (Gone(next.pc) && !Gone(task.pc) ==> task.pc.Leaving? || Shutdown in task.inbox)
  {
  }

  lemma TicketByTask(s: System, k: nat, choice: Choice, t: TicketId)
    requires Shape(s) && k < |s.tasks| && TicketOk(s, t)
    requires s.tasks[k].ticket in s.latest && TicketOk(s, s.tasks[k].ticket)
    ensures TicketOk(TaskNext(s, k, choice), t)
  {
    var task := s.tasks[k];
    if !task.pc.Dead? {
      TaskStepCycle(task, s.cache, choice, t);
      TaskStepHeard(task, s.cache, choice);
    }
  }

  lemma TicketByTurn(s: System, t: TicketId)
    requires Shape(s) && TicketOk(s, t) && !s.driver.Routing? && !s.driver.Admitting?
    ensures TicketOk(DriverNext(s), t)
  {
  }

  lemma TicketBySpawn(s: System, id: TicketId, seed: Message, t: TicketId)
    requires Shape(s) && TicketOk(s, t) && Gone(PcOf(s, id))
    requires Carried(s.driver, id)
    ensures TicketOk(Spawn(s, id, seed), t)
  {
  }

  lemma TicketByRoute(s: System, t: TicketId)
    requires Shape(s) && TicketOk(s, t) && s.driver.Routing? && TicketOk(s, s.driver.a.id)
    ensures TicketOk(DriverNext(s), t)
  {
    var id := s.driver.a.id;
    Routed(s, id);
    hide Route;
    if id in s.latest && !s.tasks[s.latest[id]].pc.Dead? {
    } else {
      TicketBySpawn(s, id, Webhook, t);
    }
  }

  lemma TicketByDriver(s: System, t: TicketId)
    requires Shape(s) && TicketOk(s, t) && !s.driver.Idle? && !DriverNext(s).doubled
    requires s.driver.Routing? ==> TicketOk(s, s.driver.a.id)
    ensures TicketOk(DriverNext(s), t)
  {
    if s.driver.Routing? {
      TicketByRoute(s, t);
    } else if s.driver.Admitting? {
      TicketBySpawn(s, s.driver.a.id, ColdStartCycle, t);
    } else {
      TicketByTurn(s, t);
    }
  }

  lemma TicketBySendStop(s: System, id: TicketId, t: TicketId)
    requires Shape(s) && TicketOk(s, t) && Enabled(s, SendStop(id))
    ensures TicketOk(SentStop(s, id), t)
  {
  }

  lemma TicketKept(s: System, step: Step, t: TicketId)
    requires Inv(s) && !Apply(s, step).doubled
    ensures TicketOk(Apply(s, step), t)
  {
    assert TicketOk(s, t);
    if step.Act? && Enabled(s, step) { assert s.tasks[step.k].ticket in s.latest; }
    if Enabled(s, step) {
      hide LatestOk, RegistryOk, DriverOk, DriverNext, TaskNext, SentStop;
      match step
      case Drive => {
        assert s.driver.Routing? ==> TicketOk(s, s.driver.a.id);
        hide TicketOk;
        TicketByDriver(s, t);
      }
      case Act(k, choice) => {
        assert TicketOk(s, s.tasks[k].ticket);
        hide TicketOk;
        TicketByTask(s, k, choice, t);
      }
      case SendStop(id) => {
        hide TicketOk;
        TicketBySendStop(s, id, t);
      }
      case _ =>
    }
  }

  lemma InvKept(s: System, step: Step)
    requires Inv(s) && !Apply(s, step).doubled
    ensures Inv(Apply(s, step))
  {
    ShapeKept(s, step);
    forall t ensures TicketOk(Apply(s, step), t) {
      TicketKept(s, step, t);
    }
  }

  lemma {:induction false} DoubledStays(s: System, steps: seq<Step>)
    requires s.doubled
    ensures Run(s, steps).doubled
    decreases |steps|
  {
    if steps == [] {
    } else {
      assert Apply(s, steps[0]).doubled by { hide TaskStep, DriverTurn; }
      DoubledStays(Apply(s, steps[0]), steps[1..]);
    }
  }

  lemma {:induction false} InvRun(s: System, steps: seq<Step>)
    requires Inv(s) && !Run(s, steps).doubled
    ensures Inv(Run(s, steps))
    decreases |steps|
  {
    if steps == [] {
    } else {
      var s' := Apply(s, steps[0]);
      hide Apply, Inv;
      if s'.doubled { DoubledStays(s', steps[1..]); }
      InvKept(s, steps[0]);
      InvRun(s', steps[1..]);
    }
  }

  lemma InvReached(steps: seq<Step>)
    requires !Run(BOOT, steps).doubled
    ensures Inv(Run(BOOT, steps))
  {
    assert Inv(BOOT);
    InvRun(BOOT, steps);
  }
}
