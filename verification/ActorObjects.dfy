// The dispatcher and the ticket task as the sequential code they are written as.
// Each method is proved equal to its own atomic steps taken one after another
// without interference, so the step system above interleaves this code and
// nothing else.
module ActorObjects {
  import opened Common
  import opened Cache
  import opened Actors

  datatype SendResult = SendOk | SendFull | SendClosed

  datatype DispatchAction = AdmissionRejected | SkippedNoDiff | Routed | BackPressureSetPending | Spawned

  datatype StepOutcome = Dispatched(evicted: bool) | NoMatch | QueuedPending

  // ---- the steps, uninterrupted ------------------------------------------------

  function DriverRank(d: Driver): nat {
    match d
    case Idle => 0
    case Rejecting(_) => 4 case Revoking(_) => 3 case Checking(_) => 2 case Dropping(_) => 1
    case Readmitting(_) => 6 case Reviving(_) => 5 case Reading(_) => 4 case Writing(_) => 3 case Routing(_) => 2 case Deferring(_) => 1
    case ColdReading(_) => 3 case ColdWriting(_) => 2 case Admitting(_) => 1
  }

  // The driver alone, until it is idle again.
  ghost function DriverAlone(s: System): System
    decreases DriverRank(s.driver)
  {
    if s.driver.Idle? then s else DriverAlone(DriverNext(s))
  }

  function PcRank(pc: Pc): nat {
    match pc
    case Received => 9 case Chosen => 8 case Running => 7 case Returned(_) => 6
    case AskingEvict => 5 case Leaving => 4 case AskingRecheck => 3 case Resnapping => 2 case Resending => 1
    case _ => 0
  }

  // A task alone, from a received message until it waits again or has left.
  ghost function TaskAlone(task: Task, cache: Entries, choice: Choice): Local
    decreases PcRank(task.pc)
  {
    if PcRank(task.pc) == 0 then Local(task, cache)
    else
      var next := TaskStep(task, cache, choice);
      TaskAlone(next.task, next.cache, choice)
  }

  lemma Stepped(now: Local, choice: Choice) returns (next: Local)
    requires PcRank(now.task.pc) > 0
    ensures next == TaskStep(now.task, now.cache, choice)
    ensures TaskAlone(now.task, now.cache, choice) == TaskAlone(next.task, next.cache, choice)
  {
    next := TaskStep(now.task, now.cache, choice);
  }

  // ---- one iteration of the ticket task ----------------------------------------

  class Inbox {
    var queue: seq<Message>
    var open: bool

    constructor (seed: Message)
      ensures queue == [seed] && open
    {
      queue, open := [seed], true;
    }

    method TrySend(m: Message) returns (r: SendResult)
      modifies this`queue
      ensures r == if !open then SendClosed else if |old(queue)| < INBOX_CAPACITY then SendOk else SendFull
      ensures queue == if r.SendOk? then old(queue) + [m] else old(queue)
    {
      if !open { return SendClosed; }
      if |queue| >= INBOX_CAPACITY { return SendFull; }
      queue := queue + [m];
      return SendOk;
    }
  }

  // `choice` stands for the workflow match, the fresh id and the cycle's result.
  method StepOnce(t: TicketId, cache: DiffCache, self: Inbox, choice: Choice) returns (outcome: StepOutcome)
    requires self.open
    modifies cache, self`queue
    ensures var end := TaskAlone(Task(t, old(self.queue), Received), old(cache.entries), choice);
      && cache.entries == end.cache
      && self.queue == end.task.inbox
      && (outcome == Dispatched(true) <==> end.task.pc.Exiting?)
      && (outcome != Dispatched(true) <==> end.task.pc.Waiting?)
    ensures outcome.NoMatch? <==> !(t in old(cache.entries) && choice.matches)
    ensures outcome.QueuedPending? <==>
      && t in old(cache.entries) && choice.matches && choice.end !in {Completed(true), ShorthandDeleted, CleanupFsError}
      && !old(cache.entries)[t].pendingEvict && old(cache.entries)[t].pendingRecheck
  {
    FlagsKept(cache.entries, t, choice.cycleId);
    hide WithCycle, WithEvict, WithRecheck, EvictSet, RecheckSet;
    ghost var now := Local(Task(t, self.queue, Received), cache.entries);
    var snapshot := cache.Snapshot(t);
    if snapshot.None? { return NoMatch; }
    if !choice.matches { return NoMatch; }
    now := Stepped(now, choice);
    cache.SetCycleId(t, choice.cycleId);
    now := Stepped(now, choice);
    // the cycle runs here
    now := Stepped(now, choice);
    cache.ClearCycleId(t);
    now := Stepped(now, choice);
    if choice.end == Completed(true) || choice.end.ShorthandDeleted? {
      cache.Evict(t);
      return Dispatched(true);
    }
    if choice.end.CleanupFsError? {
      cache.Evict(t);
      return Dispatched(true);
    }
    assert now == Local(Task(t, self.queue, AskingEvict), cache.entries);
    outcome := SettleFlags(t, cache, self, choice);
  }

  lemma FlagsKept(c: Entries, t: TicketId, id: nat)
    ensures var after := WithCycle(WithCycle(c, t, Some(id)), t, None);
      (EvictSet(after, t) <==> t in c && c[t].pendingEvict) && (RecheckSet(after, t) <==> t in c && c[t].pendingRecheck)
  {
  }

  lemma OtherFlag(c: Entries, t: TicketId)
    ensures RecheckSet(WithEvict(c, t, false), t) == RecheckSet(c, t)
    ensures forall id :: RecheckSet(WithCycle(c, t, id), t) == RecheckSet(c, t) && EvictSet(WithCycle(c, t, id), t) == EvictSet(c, t)
  {
  }

  // After a cycle that did not evict: a revocation first, then a recheck.
  method SettleFlags(t: TicketId, cache: DiffCache, self: Inbox, choice: Choice) returns (outcome: StepOutcome)
    requires self.open
    modifies cache, self`queue
    ensures var end := TaskAlone(Task(t, old(self.queue), AskingEvict), old(cache.entries), choice);
      && cache.entries == end.cache
      && self.queue == end.task.inbox
      && (outcome == Dispatched(true) <==> end.task.pc.Exiting?)
      && (outcome != Dispatched(true) <==> end.task.pc.Waiting?)
    ensures !outcome.NoMatch?
    ensures outcome.QueuedPending? <==> !EvictSet(old(cache.entries), t) && RecheckSet(old(cache.entries), t)
  {
    hide WithCycle, WithEvict, WithRecheck, EvictSet, RecheckSet;
    OtherFlag(cache.entries, t);
    ghost var now := Local(Task(t, self.queue, AskingEvict), cache.entries);
    var revoked := cache.TakePendingEvict(t);
    now := Stepped(now, choice);
    if revoked {
      cache.Evict(t);
      return Dispatched(true);
    }
    var recheck := cache.TakePendingRecheck(t);
    now := Stepped(now, choice);
    if recheck {
      var again := cache.Snapshot(t);
      now := Stepped(now, choice);
      if again.Some? {
        var _ := self.TrySend(Webhook);
      }
      return QueuedPending;
    }
    return Dispatched(false);
  }

  // ---- the dispatcher ----------------------------------------------------------

  lemma Turned(now: System) returns (next: System)
    requires !now.driver.Idle?
    ensures next == DriverNext(now)
    ensures DriverAlone(now) == DriverAlone(next)
  {
    next := DriverNext(now);
  }

  lemma Alone(now: System)
    ensures now.driver.Idle? ==> DriverAlone(now) == now
  {
  }

  class Dispatcher {
    const cache: DiffCache
    var tickets: map<TicketId, nat>   // inbox handles, by the number of the task behind them
    var tasks: seq<Task>              // every task spawned so far

    constructor (cache: DiffCache)
      ensures this.cache == cache && tickets == map[] && tasks == []
    {
      this.cache, tickets, tasks := cache, map[], [];
    }

    // The dispatcher at a program point; the history fields are left empty.
    function View(driver: Driver): System
      reads this, cache
    {
      System(cache.entries, tickets, tasks, driver, Serving, map[], {}, {}, false)
    }

    predicate Valid()
      reads this
    {
      forall t <- tickets :: tickets[t] < |tasks|
    }

    method SpawnAndRoute(t: TicketId, seed: Message)
      requires Valid()
      modifies this
      ensures Valid()
      ensures tasks == old(tasks) + [Task(t, [seed], Waiting)] && tickets == old(tickets)[t := |old(tasks)|]
    {
      tickets := tickets[t := |tasks|];
      tasks := tasks + [Task(t, [seed], Waiting)];
    }

    // Cold start spawns whatever the registry holds: only a debug assertion says
    // that it must not hold the ticket already.
    method AdmitForColdStart(a: Admitted)
      requires Valid()
      modifies this
      ensures Valid()
      ensures SameDaemon(View(Idle), DriverNext(old(View(Admitting(a)))))
    {
      SpawnAndRoute(a.id, ColdStartCycle);
    }

    method OnWebhook(a: Admitted, accepted: bool) returns (action: DispatchAction)
      requires Valid()
      modifies this, cache
      ensures Valid()
      ensures SameDaemon(View(Idle), DriverAlone(old(View(if accepted then Readmitting(a) else Rejecting(a.id)))))
      ensures action.AdmissionRejected? <==> !accepted
      ensures action.SkippedNoDiff? <==> accepted && Known(old(cache.entries), a)
      ensures action.Spawned? <==> |tasks| > |old(tasks)|
      ensures action.BackPressureSetPending? ==> tasks == old(tasks) && RecheckSet(cache.entries, a.id)
      ensures action.Routed? ==> a.id in tickets && tasks != old(tasks) && |tasks| == |old(tasks)|
    {
      hide DriverAlone, WithEvict, Known;
      if !accepted {
        Reject(a.id);
        return AdmissionRejected;
      }
      ghost var now := View(Readmitting(a));
      CancelRevocation(a);
      now := Turned(now);
      if now.driver.Reviving? { now := Turned(now); }
      action := ObserveAndSend(a, now);
    }

    // Re-admission clears a pending eviction.
    method CancelRevocation(a: Admitted)
      modifies cache
      ensures cache.entries == if EvictSet(old(cache.entries), a.id) then WithEvict(old(cache.entries), a.id, false) else old(cache.entries)
      ensures Known(cache.entries, a) <==> Known(old(cache.entries), a)
    {
      var snapshot := cache.Snapshot(a.id);
      if snapshot.Some? && snapshot.value.pendingEvict {
        cache.ClearPendingEvict(a.id);
      }
    }

    method ObserveAndSend(a: Admitted, ghost before: System) returns (action: DispatchAction)
      requires Valid() && SameDaemon(View(Reading(a)), before)
      modifies this, cache
      ensures Valid()
      ensures SameDaemon(View(Idle), DriverAlone(before))
      ensures action in {SkippedNoDiff, Routed, BackPressureSetPending, Spawned}
      ensures action.SkippedNoDiff? <==> Known(old(cache.entries), a)
      ensures action.Spawned? <==> |tasks| > |old(tasks)|
      ensures action.BackPressureSetPending? ==> tasks == old(tasks) && RecheckSet(cache.entries, a.id)
      ensures action.Routed? ==> a.id in tickets && tasks != old(tasks) && |tasks| == |old(tasks)|
    {
      ghost var now := Turned(before);
      var outcome := cache.Observe(a);
      if outcome.Unchanged? { return SkippedNoDiff; }
      now := Turned(now);
      action := SendOrSpawn(a, now);
    }

    method Reject(t: TicketId)
      requires Valid()
      modifies cache
      ensures SameDaemon(View(Idle), DriverAlone(old(View(Rejecting(t)))))
    {
      ghost var now := View(Rejecting(t));
      var snapshot := cache.Snapshot(t);
      now := Turned(now);
      if snapshot.Some? {
        cache.SetPendingEvict(t);
        now := Turned(now);
        now := Turned(now);
        if t !in tickets {
          cache.Evict(t);
          now := Turned(now);
        }
      }
    }

    // The critical section of the registry lock, and the deferral after it.
    method SendOrSpawn(a: Admitted, ghost before: System) returns (action: DispatchAction)
      requires Valid() && SameDaemon(View(Routing(a)), before)
      modifies this, cache
      ensures Valid()
      ensures SameDaemon(View(Idle), DriverAlone(before))
      ensures action in {Routed, BackPressureSetPending, Spawned}
      ensures action.Spawned? <==> |tasks| > |old(tasks)|
      ensures action.BackPressureSetPending? ==> tasks == old(tasks) && cache.entries == WithRecheck(old(cache.entries), a.id, true)
      ensures action.Routed? ==> a.id in tickets && tasks != old(tasks) && |tasks| == |old(tasks)|
    {
      hide WithRecheck, Known, Written, WithEvict, EvictSet, DriverAlone;
      ghost var now := Turned(before);
      Alone(now);
      if a.id in tickets {
        var k := tickets[a.id];
        if tasks[k].pc.Dead? {
          SpawnAndRoute(a.id, Webhook);
          return Spawned;
        }
        if |tasks[k].inbox| < INBOX_CAPACITY {
          ghost var inbox := tasks[k].inbox;
          tasks := tasks[k := tasks[k].(inbox := tasks[k].inbox + [Webhook])];
          assert |tasks[k].inbox| == |inbox| + 1 && inbox == old(tasks)[k].inbox;
          return Routed;
        }
        cache.SetPendingRecheck(a.id);
        now := Turned(now);
        Alone(now);
        return BackPressureSetPending;
      }
      SpawnAndRoute(a.id, Webhook);
      return Spawned;
    }
  }

  // Equal but for history.
  ghost predicate SameDaemon(s: System, t: System) {
    s.cache == t.cache && s.registry == t.registry && s.tasks == t.tasks && s.driver == t.driver
  }

  // ---- what a message and a webhook do in all ------------------------------------

  // A received message with nothing in between. Without a cached entry or a match
  // nothing happens. A finished cleanup, an immediate delete and a cleanup that
  // broke on the file system drop the entry; so does any cycle of a revoked ticket;
  // and the task leaves. Otherwise the entry is back without a cycle id, an update
  // that came in the meantime is put into the task's own inbox if there is room, and
  // the task waits.
  lemma MessageSettles(t: TicketId, inbox: seq<Message>, c: Entries, choice: Choice)
    ensures var end := TaskAlone(Task(t, inbox, Received), c, choice);
      && end.task.ticket == t
      && (t !in c || !choice.matches ==> end == Local(Task(t, inbox, Waiting), c))
      && (t in c && choice.matches ==>
        if choice.end in {Completed(true), ShorthandDeleted, CleanupFsError} || c[t].pendingEvict then
          end == Local(Task(t, inbox, Exiting), c - {t})
        else
          && end.cache == c[t := c[t].(cycleId := None, pendingRecheck := false)]
          && end.task == Task(t, if c[t].pendingRecheck && inbox == [] then [Webhook] else inbox, Waiting))
  {
    if t in c && choice.matches {
      var a := Local(Task(t, inbox, Chosen), c);
      var b := Stepped(a, choice);
      var d := Stepped(b, choice);
      assert d == Local(Task(t, inbox, Returned(choice.end)), c[t := c[t].(cycleId := Some(choice.cycleId))]);
      CycleSettles(t, inbox, c, choice);
    }
  }

  lemma CycleSettles(t: TicketId, inbox: seq<Message>, c: Entries, choice: Choice)
    requires t in c
    ensures var end := TaskAlone(Task(t, inbox, Returned(choice.end)), c[t := c[t].(cycleId := Some(choice.cycleId))], choice);
      && end.task.ticket == t
      && if choice.end in {Completed(true), ShorthandDeleted, CleanupFsError} || c[t].pendingEvict then
           end == Local(Task(t, inbox, Exiting), c - {t})
         else
           && end.cache == c[t := c[t].(cycleId := None, pendingRecheck := false)]
           && end.task == Task(t, if c[t].pendingRecheck && inbox == [] then [Webhook] else inbox, Waiting)
  {
    var idle := c[t := c[t].(cycleId := None)];
    var now := Local(Task(t, inbox, Returned(choice.end)), c[t := c[t].(cycleId := Some(choice.cycleId))]);
    now := Stepped(now, choice);
    assert now.cache == idle;
    if choice.end in {Completed(true), ShorthandDeleted, CleanupFsError} {
      assert now.task == Task(t, inbox, Leaving) && idle - {t} == c - {t};
    } else {
      FlagsSettle(t, inbox, idle, choice);
      assert idle - {t} == c - {t};
    }
  }

  lemma FlagsSettle(t: TicketId, inbox: seq<Message>, c: Entries, choice: Choice)
    requires t in c
    ensures var end := TaskAlone(Task(t, inbox, AskingEvict), c, choice);
      && end.task.ticket == t
      && if c[t].pendingEvict then end == Local(Task(t, inbox, Exiting), c - {t})
         else
           && end.cache == c[t := c[t].(pendingRecheck := false)]
           && end.task == Task(t, if c[t].pendingRecheck && inbox == [] then [Webhook] else inbox, Waiting)
  {
    var now := Local(Task(t, inbox, AskingEvict), c);
    now := Stepped(now, choice);
    if c[t].pendingEvict {
      assert now.cache - {t} == c - {t};
    } else {
      assert now.cache == c;
      now := Stepped(now, choice);
      assert now.cache == c[t := c[t].(pendingRecheck := false)];
      if c[t].pendingRecheck {
        now := Stepped(now, choice);
        now := Stepped(now, choice);
      }
    }
  }

  // A task that has taken the recheck flag looks at the cache again: if the entry was
  // dropped in the meantime there is nothing to recheck.
  lemma RecheckSettles(t: TicketId, inbox: seq<Message>, c: Entries, choice: Choice)
    ensures TaskAlone(Task(t, inbox, Resnapping), c, choice)
            == Local(Task(t, if t in c && inbox == [] then [Webhook] else inbox, Waiting), c)
  {
    var now := Local(Task(t, inbox, Resnapping), c);
    now := Stepped(now, choice);
    if t in c { now := Stepped(now, choice); }
  }

  // A revoking webhook with nothing in between marks the entry of a ticket that has
  // an inbox handle, and drops the entry of one that has none.
  lemma RevokeSettles(s: System, t: TicketId)
    requires s.driver == Rejecting(t)
    ensures var end := DriverAlone(s);
      && end.driver.Idle? && end.tasks == s.tasks && end.registry == s.registry
      && end.cache == if t !in s.cache then s.cache
                      else if t in s.registry then s.cache[t := s.cache[t].(pendingEvict := true)]
                      else s.cache - {t}
  {
    var now := Turned(s);
    if t in s.cache {
      now := Turned(now);
      now := Turned(now);
      if t !in s.registry {
        now := Turned(now);
        assert now.cache == s.cache - {t};
      }
    }
  }

  // The entry an admitted webhook leaves: its triple as observed, every other field
  // kept, except that a revocation is taken back.
  function Refreshed(c: Entries, a: Admitted): Entry {
    var labels := set l | l in a.labels;
    if a.id in c then c[a.id].(status := a.status, labels := labels, assignee := a.assignee.GetOr(""), pendingEvict := false)
    else Entry(a.repo, a.status, labels, a.assignee.GetOr(""), None, false, false)
  }

  // An admitted webhook with nothing in between. The entry is refreshed; if that
  // changed the triple, a live task with room gets the message, a live task without
  // room is marked for a recheck, and otherwise a task is spawned with the message.
  lemma WebhookSettles(s: System, a: Admitted)
    requires s.driver == Readmitting(a) && (a.id in s.registry ==> s.registry[a.id] < |s.tasks|)
    ensures var end, e := DriverAlone(s), Refreshed(s.cache, a);
      && end.driver.Idle?
      && if a.id in s.cache && TrackedOf(s.cache[a.id]) == TrackedOf(e) then
           end.cache == s.cache[a.id := e] && end.tasks == s.tasks && end.registry == s.registry
         else if a.id in s.registry && !s.tasks[s.registry[a.id]].pc.Dead? then
           var k := s.registry[a.id]; var task := s.tasks[k];
           && end.registry == s.registry
           && if task.inbox == [] then
                end.cache == s.cache[a.id := e] && end.tasks == s.tasks[k := task.(inbox := [Webhook])]
              else
                end.cache == s.cache[a.id := e.(pendingRecheck := true)] && end.tasks == s.tasks
         else
           && end.cache == s.cache[a.id := e] && end.registry == s.registry[a.id := |s.tasks|]
           && end.tasks == s.tasks + [Task(a.id, [Webhook], Waiting)]
  {
    var now := Turned(s);
    if now.driver.Reviving? { now := Turned(now); }
    assert now.driver == Reading(a) && now.tasks == s.tasks && now.registry == s.registry;
    assert a.id in s.cache ==> now.cache == s.cache[a.id := s.cache[a.id].(pendingEvict := false)];
    assert a.id !in s.cache ==> now.cache == s.cache;
    ObservedSettles(now, a, s.cache);
  }

  lemma ObservedSettles(now: System, a: Admitted, c: Entries)
    requires now.driver == Reading(a) && (a.id in now.registry ==> now.registry[a.id] < |now.tasks|)
    requires now.cache == if a.id in c then c[a.id := c[a.id].(pendingEvict := false)] else c
    ensures var end, e := DriverAlone(now), Refreshed(c, a);
      && end.driver.Idle?
      && if a.id in c && TrackedOf(c[a.id]) == TrackedOf(e) then
           end.cache == c[a.id := e] && end.tasks == now.tasks && end.registry == now.registry
         else if a.id in now.registry && !now.tasks[now.registry[a.id]].pc.Dead? then
           var k := now.registry[a.id]; var task := now.tasks[k];
           && end.registry == now.registry
           && if task.inbox == [] then
                end.cache == c[a.id := e] && end.tasks == now.tasks[k := task.(inbox := [Webhook])]
              else
                end.cache == c[a.id := e.(pendingRecheck := true)] && end.tasks == now.tasks
         else
           && end.cache == c[a.id := e] && end.registry == now.registry[a.id := |now.tasks|]
           && end.tasks == now.tasks + [Task(a.id, [Webhook], Waiting)]
  {
    var e := Refreshed(c, a);
    RefreshedIs(c, now.cache, a);
    hide Refreshed, Tracked, TrackedOf, Written;
    var next := Turned(now);
    if !next.driver.Idle? {
      next := Turned(next);
      RouteSettles(next, a.id, e);
    }
  }

  lemma RefreshedIs(c: Entries, now: Entries, a: Admitted)
    requires now == if a.id in c then c[a.id := c[a.id].(pendingEvict := false)] else c
    ensures var e := Refreshed(c, a);
      && Written(now, a) == c[a.id := e]
      && (Known(now, a) <==> a.id in c && TrackedOf(c[a.id]) == TrackedOf(e))
      && (Known(now, a) ==> now == c[a.id := e])
  {
    var e := Refreshed(c, a);
    assert (set l | l in a.labels) == Tracked(a).1;
    assert TrackedOf(e) == Tracked(a);
    assert Written(now, a)[a.id] == e;
  }

  lemma RouteSettles(s: System, t: TicketId, e: Entry)
    requires s.driver.Routing? && s.driver.a.id == t && t in s.cache && s.cache[t] == e
    requires t in s.registry ==> s.registry[t] < |s.tasks|
    ensures var end := DriverAlone(s);
      && end.driver.Idle?
      && if t in s.registry && !s.tasks[s.registry[t]].pc.Dead? then
           var k := s.registry[t]; var task := s.tasks[k];
           && end.registry == s.registry
           && if task.inbox == [] then
                end.cache == s.cache && end.tasks == s.tasks[k := task.(inbox := [Webhook])]
              else
                end.cache == s.cache[t := e.(pendingRecheck := true)] && end.tasks == s.tasks
         else
           && end.cache == s.cache && end.registry == s.registry[t := |s.tasks|]
           && end.tasks == s.tasks + [Task(t, [Webhook], Waiting)]
  {
    var next := Turned(s);
    if next.driver.Idle? {
      if t in s.registry {
        var task := s.tasks[s.registry[t]];
        assert task.inbox == [] ==> task.inbox + [Webhook] == [Webhook];
      }
    } else {
      next := Turned(next);
    }
  }

  // Cold start refreshes the triple alone, and spawns whatever the registry holds.
  lemma AdmissionSettles(s: System, a: Admitted)
    requires s.driver == ColdReading(a)
    ensures var end := DriverAlone(s);
      && end.driver.Idle? && end.registry == s.registry[a.id := |s.tasks|]
      && end.tasks == s.tasks + [Task(a.id, [ColdStartCycle], Waiting)]
      && end.cache == if a.id in s.cache then s.cache[a.id := Refreshed(s.cache, a).(pendingEvict := s.cache[a.id].pendingEvict)]
                      else s.cache[a.id := Refreshed(s.cache, a)]
  {
    ColdRefreshed(s.cache, a);
    hide Refreshed, Written, Known;
    var now := Turned(s);
    if now.driver.ColdWriting? { now := Turned(now); }
    now := Turned(now);
  }

  lemma ColdRefreshed(c: Entries, a: Admitted)
    ensures var e := if a.id in c then Refreshed(c, a).(pendingEvict := c[a.id].pendingEvict) else Refreshed(c, a);
      Written(c, a) == c[a.id := e] && (Known(c, a) ==> c == c[a.id := e])
  {
    assert (set l | l in a.labels) == Tracked(a).1;
  }
}
