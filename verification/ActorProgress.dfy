// What a task still owes is bounded by its own steps, whatever everyone else does
// in between: an update that has reached it is looked at within nine, and a ticket
// revoked during its cycle is evicted within five.
module ActorProgress {
  import opened Cache
  import opened Actors
  import opened ActorInvariants

  // The task's own steps until it looks at the cache, or evicts instead.
  function Distance(pc: Pc): nat {
    match pc
    case Chosen => 9 case Running => 8 case Returned(_) => 7
    case AskingEvict => 6 case AskingRecheck => 5 case Resnapping => 4 case Resending => 3
    case Waiting => 2
    case Received => 1 case Leaving => 1
    case _ => 0
  }

  // An update of t is waiting for its task k.
  ghost predicate Pending(s: System, t: TicketId, k: nat) {
    && t in s.latest && s.latest[t] == k && k < |s.tasks| && s.tasks[k].ticket == t
    && t in s.dirty
    && Heard(s.tasks[k].pc, s.tasks[k].inbox)
  }

  ghost predicate Settled(s: System, t: TicketId) {
    t !in s.dirty || t in s.evicted
  }

  function Turns(steps: seq<Step>, k: nat): nat {
    if steps == [] then 0
    else Turns(steps[1..], k) + if steps[0].Act? && steps[0].k == k then 1 else 0
  }

  lemma OwnStep(task: Task, cache: Entries, choice: Choice)
    requires Heard(task.pc, task.inbox) && |task.inbox| <= INBOX_CAPACITY && Shutdown !in task.inbox
    requires !task.pc.Received? && !task.pc.Leaving?
    ensures var next := TaskStep(task, cache, choice).task;
      Heard(next.pc, next.inbox) && Distance(next.pc) < Distance(task.pc)
  {
  }

  // The driver leaves a task that has a message as it is.
  lemma DriverLeaves(s: System, t: TicketId, k: nat)
    requires Inv(s) && Pending(s, t, k) && !s.driver.Idle? && !DriverNext(s).doubled
    ensures Pending(DriverNext(s), t, k) && DriverNext(s).tasks[k].pc == s.tasks[k].pc
  {
    if s.driver.Routing? { Routed(s, s.driver.a.id); }
  }

  lemma StepCloser(s: System, step: Step, t: TicketId, k: nat)
    requires Inv(s) && Pending(s, t, k) && !Apply(s, step).doubled && !Apply(s, step).phase.Stopping?
    ensures var s' := Apply(s, step);
      || Settled(s', t)
      || (Pending(s', t, k)
          && Distance(s'.tasks[k].pc) <= Distance(s.tasks[k].pc)
          && (step.Act? && step.k == k ==> Distance(s'.tasks[k].pc) < Distance(s.tasks[k].pc)))
  {
    if Enabled(s, step) {
      match step
      case Drive => DriverLeaves(s, t, k);
      case Act(j, choice) => {
        var task := s.tasks[k];
        if j == k && !task.pc.Received? && !task.pc.Leaving? { OwnStep(task, s.cache, choice); }
        hide TaskStep;
      }
      case _ =>
    }
  }

  // From any state of any run: if an update of t waits for its task k and k takes
  // its `Distance` of steps, at most nine, then on the way the task has looked at
  // the entry or the ticket has been evicted.
  lemma {:induction false} LookedAtInTime(s: System, steps: seq<Step>, t: TicketId, k: nat) returns (n: nat)
    requires Inv(s) && Pending(s, t, k) && Turns(steps, k) >= Distance(s.tasks[k].pc)
    requires !Run(s, steps).doubled && !Run(s, steps).phase.Stopping?
    ensures n <= |steps| && Settled(Run(s, steps[..n]), t)
    decreases |steps|
  {
    if steps == [] {
      assert false;
    }
    var s' := Apply(s, steps[0]);
    if s'.doubled { DoubledStays(s', steps[1..]); }
    if s'.phase.Stopping? { StoppingStays(s', steps[1..]); }
    InvKept(s, steps[0]);
    StepCloser(s, steps[0], t, k);
    hide Apply, Inv;
    if Settled(s', t) {
      n := 1;
      assert steps[..1][1..] == [];
      assert Run(s, steps[..1]) == Run(s', []);
    } else {
      n := LookedAtInTime(s', steps[1..], t, k);
      n := n + 1;
      assert steps[..n][1..] == steps[1..][..n - 1];
    }
  }

  lemma {:induction false} StoppingStays(s: System, steps: seq<Step>)
    requires s.phase.Stopping?
    ensures Run(s, steps).phase.Stopping?
    decreases |steps|
  {
    if steps == [] {
    } else {
      assert Apply(s, steps[0]).phase.Stopping? by { hide TaskStep, DriverTurn; }
      StoppingStays(Apply(s, steps[0]), steps[1..]);
    }
  }

  // ---- a revoked ticket --------------------------------------------------------

  function StepsOut(pc: Pc): nat {
    match pc
    case Chosen => 5 case Running => 4 case Returned(_) => 3 case AskingEvict => 2 case Leaving => 1
    case _ => 0
  }

  // The ticket was revoked while its task k has a cycle that has not been settled.
  ghost predicate Doomed(s: System, t: TicketId, k: nat) {
    && t in s.latest && s.latest[t] == k && k < |s.tasks| && s.tasks[k].ticket == t
    && StepsOut(s.tasks[k].pc) > 0
    && (s.tasks[k].pc.Leaving? || EvictSet(s.cache, t))
  }

  // Gone, or about to be spared by a re-admission.
  ghost predicate Decided(s: System, t: TicketId) {
    t !in s.cache || (s.driver.Reviving? && s.driver.a.id == t)
  }

  predicate Rechecking(pc: Pc) {
    pc.AskingRecheck? || pc.Resnapping? || pc.Resending?
  }

  lemma StepOut(task: Task, cache: Entries, choice: Choice)
    requires StepsOut(task.pc) > 1 && EvictSet(cache, task.ticket)
    ensures var next := TaskStep(task, cache, choice);
      && 0 < StepsOut(next.task.pc) < StepsOut(task.pc)
      && (next.task.pc.Leaving? || EvictSet(next.cache, task.ticket))
  {
  }

  lemma TurnKeepsFlag(s: System, t: TicketId)
    requires Shape(s) && t in s.latest && !s.driver.Idle? && !(s.driver.Reviving? && s.driver.a.id == t)
    ensures EvictSet(s.cache, t) ==> EvictSet(DriverNext(s).cache, t)
  {
    hide LatestOk, RegistryOk;
  }

  lemma DoomedTurn(s: System, t: TicketId, k: nat)
    requires Inv(s) && Doomed(s, t, k) && !Decided(s, t) && !s.driver.Idle? && !DriverNext(s).doubled
    ensures Doomed(DriverNext(s), t, k) && DriverNext(s).tasks[k].pc == s.tasks[k].pc
  {
    TurnKeepsFlag(s, t);
    if s.driver.Routing? { Routed(s, s.driver.a.id); }
    hide DriverTurn, EvictSet;
  }

  lemma DoomedAct(s: System, j: nat, choice: Choice, t: TicketId, k: nat)
    requires LatestOk(s) && Doomed(s, t, k) && j < |s.tasks|
    ensures var s' := TaskNext(s, j, choice);
      || (t !in s'.cache && !Rechecking(s'.tasks[k].pc))
      || (Doomed(s', t, k)
          && (j != k ==> s'.tasks[k].pc == s.tasks[k].pc)
          && (j == k ==> StepsOut(s'.tasks[k].pc) < StepsOut(s.tasks[k].pc)))
  {
    if j == k {
      if !s.tasks[k].pc.Leaving? { StepOut(s.tasks[k], s.cache, choice); }
    } else if s.tasks[j].ticket != t {
      OtherEntry(s.tasks[j], s.cache, choice, t);
      hide TaskStep;
    }
  }

  predicate NoRecheck(s: System, k: nat) {
    k < |s.tasks| && !Rechecking(s.tasks[k].pc)
  }

  lemma DoomedStep(s: System, step: Step, t: TicketId, k: nat)
    requires Inv(s) && Doomed(s, t, k) && !Decided(s, t) && !Apply(s, step).doubled
    ensures NoRecheck(Apply(s, step), k)
    ensures var s' := Apply(s, step);
      || Decided(s', t)
      || (Doomed(s', t, k)
          && StepsOut(s'.tasks[k].pc) <= StepsOut(s.tasks[k].pc)
          && (step.Act? && step.k == k ==> StepsOut(s'.tasks[k].pc) < StepsOut(s.tasks[k].pc)))
  {
    if step.Drive? && Enabled(s, step) {
      DoomedTurn(s, t, k);
      hide DriverTurn, Inv;
    } else if step.Act? && Enabled(s, step) {
      DoomedAct(s, step.k, step.choice, t, k);
      hide TaskStep, Inv;
    } else {
      DoomedElse(s, step, t, k);
      hide Apply, Inv;
    }
  }

  // The environment neither spares the entry nor moves the task.
  lemma DoomedElse(s: System, step: Step, t: TicketId, k: nat)
    requires Doomed(s, t, k) && (Enabled(s, step) ==> !step.Drive? && !step.Act?)
    ensures Doomed(Apply(s, step), t, k) && Apply(s, step).tasks[k].pc == s.tasks[k].pc
  {
    match step
    case SendStop(_) => hide Seeded;
    case _ =>
  }

  lemma OtherEntry(task: Task, cache: Entries, choice: Choice, t: TicketId)
    requires task.ticket != t
    ensures EvictSet(TaskStep(task, cache, choice).cache, t) == EvictSet(cache, t)
  {
  }

  // Up to the n-th step task k is not on its way to a recheck.
  ghost predicate QuietUpTo(s: System, steps: seq<Step>, k: nat, n: nat) {
    n <= |steps| && forall m | 0 <= m <= n :: NoRecheck(Run(s, steps[..m]), k)
  }

  lemma RunTakes(s: System, steps: seq<Step>, m: nat)
    requires 0 < m <= |steps|
    ensures Run(s, steps[..m]) == Run(Apply(s, steps[0]), steps[1..][..m - 1])
  {
    hide Apply;
    assert steps[..m][1..] == steps[1..][..m - 1];
  }

  lemma QuietPrepend(s: System, steps: seq<Step>, k: nat, n: nat)
    requires steps != [] && NoRecheck(s, k) && QuietUpTo(Apply(s, steps[0]), steps[1..], k, n)
    ensures QuietUpTo(s, steps, k, n + 1)
  {
    hide Apply, NoRecheck;
    forall m | 0 <= m <= n + 1 ensures NoRecheck(Run(s, steps[..m]), k) {
      if m > 0 { RunTakes(s, steps, m); }
    }
  }

  lemma QuietStart(s: System, steps: seq<Step>, k: nat)
    requires NoRecheck(s, k)
    ensures QuietUpTo(s, steps, k, 0) && Run(s, steps[..0]) == s
  {
    hide NoRecheck;
    assert steps[..0] == [];
  }

  lemma {:induction false} RevokedSteps(s: System, steps: seq<Step>, t: TicketId, k: nat) returns (n: nat)
    requires Inv(s) && Doomed(s, t, k) && Turns(steps, k) >= StepsOut(s.tasks[k].pc)
    requires !Run(s, steps).doubled
    ensures QuietUpTo(s, steps, k, n) && Decided(Run(s, steps[..n]), t)
    decreases |steps|
  {
    assert NoRecheck(s, k);
    if Decided(s, t) {
      n := 0;
      QuietStart(s, steps, k);
    } else if steps == [] {
      assert false;
    } else {
      var s' := Apply(s, steps[0]);
      if s'.doubled { DoubledStays(s', steps[1..]); }
      hide QuietUpTo, Inv, NoRecheck, Decided, Apply;
      InvKept(s, steps[0]);
      DoomedStep(s, steps[0], t, k);
      hide Doomed;
      n := 0;
      QuietStart(s', steps[1..], k);
      if !Decided(s', t) { n := RevokedSteps(s', steps[1..], t, k); }
      QuietPrepend(s, steps, k, n);
      RunTakes(s, steps, n + 1);
      n := n + 1;
    }
  }

  // `pending_evict` is honoured before anything else: within five own steps of the
  // task the entry is gone, unless a re-admission cancels the revocation first, and
  // the task has not turned to a recheck on the way.
  lemma RevokedInTime(s: System, steps: seq<Step>, t: TicketId, k: nat) returns (n: nat)
    requires Inv(s) && Doomed(s, t, k) && Turns(steps, k) >= StepsOut(s.tasks[k].pc)
    requires !Run(s, steps).doubled
    ensures n <= |steps| && Decided(Run(s, steps[..n]), t)
    ensures forall m | 0 <= m <= n :: NoRecheck(Run(s, steps[..m]), k)
  {
    n := RevokedSteps(s, steps, t, k);
  }
}
