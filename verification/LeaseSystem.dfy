// The server, any number of workers and one clock that never runs backwards, over whole runs.
//
// The network is the set of lease replies ever sent: a worker may act on any of them, at any
// time and any number of times, or never, so replies may be lost, delayed, repeated and
// reordered. Requests carry arbitrary contents.
module LeaseSystem {
  import opened Wrappers
  import opened ControlPlane
  import opened LeaseInvariant
  import opened LeaseHistory

  // What a claim or renewal reply tells a worker (internal/worker/run.go).
  datatype Lease = Lease(ref: LeaseRef, expires: Time)

  datatype System = System(server: State, now: Time, sent: set<Lease>, views: set<Lease>)

  datatype Action =
    | Tick(delay: Time)
    | RegisterWorker(boot: string, pool: string, site: string, capabilities: seq<Operation>, limit: int)
    | StartRun(pool: string, operation: Operation, partitions: nat)
    | SendClaim(claim: ClaimRequest, token: Token)
    | SendRenew(ref: LeaseRef, lag: Time)
    | SendResult(result: ResultRequest)
    | SendComplete(complete: CompleteRequest)
    | Cancel(run: RunId)
    | Clean(chosen: set<ResultKey>)
    | SetRenewAvailable(available: bool)
    | Adopt(lease: Lease)
    | Abandon(lease: Lease)

  function Handle(c: Config, y: System, a: Action): State {
    match a
    case RegisterWorker(boot, pool, site, capabilities, limit) => Register(y.server, boot, pool, site, capabilities, limit).0
    case StartRun(pool, operation, partitions) => CreateRun(y.server, pool, operation, partitions, y.now).0
    case SendClaim(claim, token) => Claim(c, y.server, claim, token, y.now).0
    case SendRenew(ref, lag) => Renew(c, y.server, ref, y.now, y.now + lag).0
    case SendResult(result) => SubmitResult(y.server, result, y.now).0
    case SendComplete(complete) => CompleteTask(y.server, complete, y.now).0
    case Cancel(run) => CancelRun(y.server, run).0
    case Clean(chosen) => Cleanup(c, y.server, chosen, y.now)
    case SetRenewAvailable(available) => y.server.(renewAvailable := available)
    case _ => y.server
  }

  function Replies(c: Config, y: System, a: Action): set<Lease> {
    match a
    case SendClaim(claim, token) =>
      (match Claim(c, y.server, claim, token, y.now).1
       case Claimed(ref, expires, _) => {Lease(ref, expires)}
       case _ => {})
    case SendRenew(ref, lag) =>
      (match Renew(c, y.server, ref, y.now, y.now + lag).1
       case Renewed(expires) => {Lease(ref, expires)}
       case _ => {})
    case _ => {}
  }

  function Clock(y: System, a: Action): Time {
    match a
    case Tick(delay) => y.now + delay
    case SendRenew(_, lag) => y.now + lag
    case _ => y.now
  }

  function Views(y: System, a: Action): set<Lease> {
    match a
    case Adopt(lease) => if lease in y.sent then y.views + {lease} else y.views
    case Abandon(lease) => y.views - {lease}
    case _ => y.views
  }

  function Step(c: Config, y: System, a: Action): System {
    System(Handle(c, y, a), Clock(y, a), y.sent + Replies(c, y, a), Views(y, a))
  }

  function Exec(c: Config, y: System, actions: seq<Action>): System
    decreases |actions|
  {
    if actions == [] then y else Exec(c, Step(c, y, actions[0]), actions[1..])
  }

  const START := System(EMPTY, 0, {}, {})

  // ----- the invariant of the whole system

  function HolderOf(ref: LeaseRef): Holder {
    Holder(ref.worker, ref.boot, ref.attempt, ref.token)
  }

  // A reply's lease never outlives the server's for that attempt, and has run out by the time
  // the task has another attempt.
  ghost predicate LeaseOK(l: Lease, s: State, now: Time) {
    && l.ref.task in s.tasks && l.ref.attempt.task == l.ref.task
    && var task := s.tasks[l.ref.task];
       && 1 <= l.ref.attempt.number <= task.attempt
       && l.expires <= task.deadline
       && (l.ref.attempt.number == task.attempt ==>
             l.expires <= task.expires && (task.holder.Some? ==> task.holder.value == HolderOf(l.ref)))
       && (l.ref.attempt.number < task.attempt ==> l.expires <= now)
  }

  ghost predicate SentOK(y: System) {
    && (forall l :: l in y.sent ==> LeaseOK(l, y.server, y.now))
    && (forall l, m :: l in y.sent && m in y.sent && l.ref.task == m.ref.task && l.ref.attempt == m.ref.attempt ==> l.ref == m.ref)
    && y.views <= y.sent
  }

  ghost predicate Inv(c: Config, y: System) {
    && Kept(y.server) && LimitsOK(c, y.server) && TimesOK(c, y.server, y.now) && SentOK(y)
  }

  lemma {:induction false} StartInv(c: Config)
    ensures Inv(c, START)
  {
    EmptyKept(c, 0);
  }

  lemma {:induction false} HandleKept(c: Config, y: System, a: Action)
    requires Kept(y.server)
    ensures Kept(Handle(c, y, a))
  {
    hide Kept, Claim, Renew, SubmitResult, CompleteTask, CancelRun, Cleanup, CreateRun;
    var s := y.server;
    match a
    case RegisterWorker(boot, pool, site, capabilities, limit) => WorkersKept(s, Handle(c, y, a));
    case StartRun(pool, operation, partitions) => CreateRunKept(s, pool, operation, partitions, y.now);
    case SendClaim(claim, token) => ClaimKept(c, s, claim, token, y.now);
    case SendRenew(ref, lag) => RenewKept(c, s, ref, y.now, y.now + lag);
    case SendResult(result) => SubmitKept(s, result, y.now);
    case SendComplete(complete) => CompleteKept(s, complete, y.now);
    case Cancel(run) => CancelKept(s, run);
    case Clean(chosen) => CleanupKept(c, s, chosen, y.now);
    case SetRenewAvailable(available) => SwitchKept(s, available);
    case _ =>
  }

  lemma {:induction false} SwitchKept(s: State, available: bool)
    requires Kept(s)
    ensures Kept(s.(renewAvailable := available))
  {
    hide TasksOK, RunsOK, AttemptsOK, DeliveryOK;
    var s' := s.(renewAvailable := available);
    SameTasksKept(s, s');
    forall t | t in s'.tasks && s'.tasks[t].state == Complete ensures Delivered(s', t) {
      assert Delivered(s, t);
    }
  }

  lemma {:induction false} CleanupSame(c: Config, s: State, chosen: set<ResultKey>, now: Time)
    ensures var s' := Cleanup(c, s, chosen, now);
      s'.tasks == s.tasks && s'.runs == s.runs && s'.workers == s.workers && s'.deliveries == s.deliveries && s'.nextID == s.nextID
  {
  }

  lemma {:induction false} HandleEvolves(c: Config, y: System, a: Action)
    requires Kept(y.server) && TimesOK(c, y.server, y.now)
    ensures Evolves(y.server, Handle(c, y, a))
  {
    hide Shape, TasksOK, RunsOK, ResultsOK, DeliveriesOK, ConservationOK, AttemptsOK, Unique, TimesOK, Evolves,
         Claim, Renew, SubmitResult, CompleteTask, CancelRun, Cleanup, CreateRun;
    var s := y.server;
    EvolvesWorkers(s, s);
    match a
    case RegisterWorker(boot, pool, site, capabilities, limit) => EvolvesWorkers(s, Handle(c, y, a));
    case StartRun(pool, operation, partitions) => CreateEvolves(s, pool, operation, partitions, y.now);
    case SendClaim(claim, token) => ClaimEvolves(c, s, claim, token, y.now);
    case SendRenew(ref, lag) => RenewEvolves(c, s, ref, y.now, y.now + lag);
    case SendResult(result) => SubmitEvolves(s, result, y.now);
    case SendComplete(complete) => CompleteEvolves(s, complete, y.now);
    case Cancel(run) => CancelEvolves(s, run);
    case Clean(chosen) => { CleanupSame(c, s, chosen, y.now); EvolvesWorkers(s, Handle(c, y, a)); }
    case SetRenewAvailable(available) => EvolvesWorkers(s, Handle(c, y, a));
    case _ =>
  }

  lemma {:induction false} HandleTimes(c: Config, y: System, a: Action)
    requires Kept(y.server) && TimesOK(c, y.server, y.now)
    ensures TimesOK(c, Handle(c, y, a), Clock(y, a))
  {
    hide Shape, TasksOK, RunsOK, ResultsOK, DeliveriesOK, ConservationOK, AttemptsOK, Unique, TimesOK,
         Claim, Renew, SubmitResult, CompleteTask, CancelRun, Cleanup, CreateRun;
    var s := y.server;
    TimesLater(c, s, y.now, Clock(y, a));
    match a
    case StartRun(pool, operation, partitions) => CreateTimes(c, s, pool, operation, partitions, y.now);
    case SendClaim(claim, token) => ClaimTimes(c, s, claim, token, y.now);
    case SendRenew(ref, lag) => RenewTimes(c, s, ref, y.now, y.now + lag);
    case SendResult(result) => SubmitTimes(c, s, result, y.now);
    case SendComplete(complete) => CompleteTimes(c, s, complete, y.now);
    case Cancel(run) => CancelTimes(c, s, run, y.now);
    case Clean(chosen) => { CleanupSame(c, s, chosen, y.now); SameTimes(c, s, Handle(c, y, a), y.now); }
    case RegisterWorker(boot, pool, site, capabilities, limit) => SameTimes(c, s, Handle(c, y, a), y.now);
    case SetRenewAvailable(available) => SameTimes(c, s, Handle(c, y, a), y.now);
    case _ =>
  }

  lemma {:induction false} SameTimes(c: Config, s: State, s': State, now: Time)
    requires TimesOK(c, s, now) && s'.tasks == s.tasks
    ensures TimesOK(c, s', now)
  {
  }

  lemma {:induction false} OneTaskShrinks(tasks: map<TaskId, Task>, t: TaskId, b: Task)
    requires t in tasks && (Active(b.state) ==> Active(tasks[t].state) && b.holder == tasks[t].holder && b.pool == tasks[t].pool)
    ensures LeasesShrink(tasks, tasks[t := b])
  {
  }

  lemma {:induction false} SubmitShrinks(s: State, q: ResultRequest, now: Time)
    ensures var s' := SubmitResult(s, q, now).0;
      LeasesShrink(s.tasks, s'.tasks) && s'.workers == s.workers && s'.nextID == s.nextID
  {
    var (s', reply) := SubmitResult(s, q, now);
    if reply.Accepted? {
      hide LeasesShrink;
      OneTaskShrinks(s.tasks, q.ref.task, s'.tasks[q.ref.task]);
    }
  }

  lemma {:induction false} RenewShrinks(c: Config, s: State, ref: LeaseRef, now: Time, later: Time)
    ensures var s' := Renew(c, s, ref, now, later).0;
      LeasesShrink(s.tasks, s'.tasks) && s'.workers == s.workers && s'.nextID == s.nextID
  {
    var (s', reply) := Renew(c, s, ref, now, later);
    if reply.Renewed? {
      hide LeasesShrink;
      OneTaskShrinks(s.tasks, ref.task, s'.tasks[ref.task]);
    }
  }

  lemma {:induction false} CancelShrinks(s: State, r: RunId)
    ensures var s' := CancelRun(s, r).0; LeasesShrink(s.tasks, s'.tasks) && s'.workers == s.workers && s'.nextID == s.nextID
  {
    hide SomeTask;
  }

  lemma {:induction false} CreateShrinks(s: State, pool: string, operation: Operation, partitions: nat, now: Time)
    requires Unique(s)
    ensures var s' := CreateRun(s, pool, operation, partitions, now).0;
      LeasesShrink(s.tasks, s'.tasks) && s'.workers == s.workers && s.nextID <= s'.nextID
  {
    if 1 <= partitions <= MAX_PARTITIONS {
      CreateRunCreates(s, pool, operation, partitions, now);
    }
  }

  lemma {:induction false} CompleteShrinks(s: State, q: CompleteRequest, now: Time)
    requires Shape(s)
    ensures var s' := CompleteTask(s, q, now).0; LeasesShrink(s.tasks, s'.tasks) && s'.workers == s.workers && s'.nextID == s.nextID
  {
    hide Shape, Deliver, RefreshedState;
    var (s', reply) := CompleteTask(s, q, now);
    if ValidLease(s, q.ref, now) && s' != s {
      hide LeasesShrink;
      var t := q.ref.task;
      if !q.success {
        FailureOneTask(s, q);
      } else {
        DeliverFinishes(s, q.ref, s.results[ResultKey(t, q.ref.attempt)].observation.value, now);
        var outcome, d :| Finishes(s, s', q.ref, outcome, d, now);
      }
      OneTaskShrinks(s.tasks, t, s'.tasks[t]);
    }
  }

  lemma {:induction false} HandleLimits(c: Config, y: System, a: Action)
    requires Kept(y.server) && LimitsOK(c, y.server)
    ensures LimitsOK(c, Handle(c, y, a))
  {
    hide Shape, TasksOK, RunsOK, ResultsOK, DeliveriesOK, ConservationOK, AttemptsOK, Unique, LimitsOK,
         Claim, Renew, SubmitResult, CompleteTask, CancelRun, Cleanup, CreateRun, Register;
    var s, s' := y.server, Handle(c, y, a);
    match a
    case RegisterWorker(boot, pool, site, capabilities, limit) => RegisterLimits(c, s, boot, pool, site, capabilities, limit);
    case SendClaim(claim, token) => ClaimLimits(c, s, claim, token, y.now);
    case StartRun(pool, operation, partitions) => { CreateShrinks(s, pool, operation, partitions, y.now); ShrinkLimits(c, s, s'); }
    case SendRenew(ref, lag) => { RenewShrinks(c, s, ref, y.now, y.now + lag); ShrinkLimits(c, s, s'); }
    case SendResult(result) => { SubmitShrinks(s, result, y.now); ShrinkLimits(c, s, s'); }
    case SendComplete(complete) => { CompleteShrinks(s, complete, y.now); ShrinkLimits(c, s, s'); }
    case Cancel(run) => { CancelShrinks(s, run); ShrinkLimits(c, s, s'); }
    case Clean(chosen) => { CleanupSame(c, s, chosen, y.now); ShrinkLimits(c, s, s'); }
    case _ => ShrinkLimits(c, s, s');
  }

  // ----- replies

  lemma {:induction false} LeaseKept(l: Lease, s: State, s': State, now: Time, now': Time)
    requires LeaseOK(l, s, now) && Evolves(s, s') && now <= now'
    requires s'.tasks[l.ref.task].attempt > s.tasks[l.ref.task].attempt ==> s.tasks[l.ref.task].expires <= now
    ensures LeaseOK(l, s', now')
  {
    assert TaskEvolves(s.tasks[l.ref.task], s'.tasks[l.ref.task]);
  }

  // Only a claim starts a new attempt, and only of a task whose last lease has ended.
  lemma {:induction false} NewAttemptAfterExpiry(c: Config, y: System, a: Action, t: TaskId)
    requires Kept(y.server) && TimesOK(c, y.server, y.now) && t in y.server.tasks
    ensures t in Handle(c, y, a).tasks
    ensures Handle(c, y, a).tasks[t].attempt > y.server.tasks[t].attempt ==> y.server.tasks[t].expires <= y.now
  {
    hide Shape, TasksOK, RunsOK, ResultsOK, DeliveriesOK, ConservationOK, AttemptsOK, Unique,
         Claim, Renew, SubmitResult, CompleteTask, CancelRun, Cleanup, CreateRun;
    HandleEvolves(c, y, a);
    var s := y.server;
    match a
    case StartRun(pool, operation, partitions) => CreateAttempts(s, pool, operation, partitions, y.now, t);
    case SendClaim(claim, token) => ClaimAttempt(c, s, claim, token, y.now, t);
    case SendRenew(ref, lag) => RenewAttempts(c, s, ref, y.now, y.now + lag, t);
    case SendResult(result) => SubmitAttempts(s, result, y.now, t);
    case SendComplete(complete) => CompleteAttempts(s, complete, y.now, t);
    case Cancel(run) => CancelRunAttempts(s, run, t);
    case Clean(chosen) => CleanupSame(c, s, chosen, y.now);
    case _ =>
  }

  lemma {:induction false} CreateAttempts(s: State, pool: string, operation: Operation, partitions: nat, now: Time, t: TaskId)
    requires Unique(s) && t in s.tasks
    ensures var s' := CreateRun(s, pool, operation, partitions, now).0; t in s'.tasks && s'.tasks[t].attempt == s.tasks[t].attempt
  {
    if 1 <= partitions <= MAX_PARTITIONS {
      CreateRunCreates(s, pool, operation, partitions, now);
    }
  }

  lemma {:induction false} RenewAttempts(c: Config, s: State, ref: LeaseRef, now: Time, later: Time, t: TaskId)
    requires t in s.tasks
    ensures var s' := Renew(c, s, ref, now, later).0; t in s'.tasks && s'.tasks[t].attempt == s.tasks[t].attempt
  {
  }

  lemma {:induction false} SubmitAttempts(s: State, q: ResultRequest, now: Time, t: TaskId)
    requires t in s.tasks
    ensures var s' := SubmitResult(s, q, now).0; t in s'.tasks && s'.tasks[t].attempt == s.tasks[t].attempt
  {
  }

  lemma {:induction false} CancelRunAttempts(s: State, r: RunId, t: TaskId)
    requires t in s.tasks
    ensures var s' := CancelRun(s, r).0; t in s'.tasks && s'.tasks[t].attempt == s.tasks[t].attempt
  {
    hide SomeTask;
  }

  lemma {:induction false} CompleteAttempts(s: State, q: CompleteRequest, now: Time, t: TaskId)
    requires Shape(s) && t in s.tasks
    ensures var s' := CompleteTask(s, q, now).0; t in s'.tasks && s'.tasks[t].attempt == s.tasks[t].attempt
  {
    hide Shape, Deliver, RefreshedState;
    var (s', reply) := CompleteTask(s, q, now);
    if ValidLease(s, q.ref, now) && s' != s {
      if !q.success {
        FailureOneTask(s, q);
      } else {
        DeliverFinishes(s, q.ref, s.results[ResultKey(q.ref.task, q.ref.attempt)].observation.value, now);
        var outcome, d :| Finishes(s, s', q.ref, outcome, d, now);
      }
    }
  }

  lemma {:induction false} ClaimAttempt(c: Config, s: State, q: ClaimRequest, token: Token, now: Time, t: TaskId)
    requires TimesOK(c, s, now) && t in s.tasks
    ensures var s' := Claim(c, s, q, token, now).0;
      t in s'.tasks && (s'.tasks[t].attempt > s.tasks[t].attempt ==> s.tasks[t].expires <= now)
  {
    hide Full, WorkerLeases, Refresh, RunLapsed;
  }

  // The lease a claim sends is the new attempt's own.
  lemma {:induction false} ClaimSends(c: Config, s: State, q: ClaimRequest, token: Token, now: Time)
    requires Claim(c, s, q, token, now).1.Claimed?
    ensures var (s', reply) := Claim(c, s, q, token, now);
      && reply.ref.task in s.tasks && reply.ref.task in s'.tasks
      && var b := s'.tasks[reply.ref.task];
         && reply.ref.attempt == AttemptId(reply.ref.task, b.attempt) && b.attempt == s.tasks[reply.ref.task].attempt + 1
         && b.holder == Some(HolderOf(reply.ref)) && reply.expires == b.expires <= b.deadline
  {
    hide Full, WorkerLeases, Refresh, RunLapsed;
  }

  lemma {:induction false} RenewSends(c: Config, s: State, ref: LeaseRef, now: Time, later: Time)
    requires TasksOK(s) && Renew(c, s, ref, now, later).1.Renewed?
    ensures var (s', reply) := Renew(c, s, ref, now, later);
      && ref.task in s.tasks && ref.task in s'.tasks
      && var b := s'.tasks[ref.task];
         && ref.attempt == AttemptId(ref.task, b.attempt) && b.attempt == s.tasks[ref.task].attempt >= 1
         && s.tasks[ref.task].holder == b.holder == Some(HolderOf(ref)) && reply.expires == b.expires <= b.deadline
  {
    assert TaskOK(ref.task, s.tasks[ref.task]);
  }

  lemma {:induction false} ReplyOK(c: Config, y: System, a: Action, l: Lease)
    requires Inv(c, y) && l in Replies(c, y, a)
    ensures LeaseOK(l, Handle(c, y, a), Clock(y, a))
    ensures forall m :: m in y.sent && m.ref.task == l.ref.task && m.ref.attempt == l.ref.attempt ==> m.ref == l.ref
  {
    hide Shape, RunsOK, ResultsOK, DeliveriesOK, ConservationOK, AttemptsOK, Unique, LimitsOK, TimesOK,
         TasksOK, Claim, Renew;
    match a
    case SendClaim(claim, token) => ClaimSends(c, y.server, claim, token, y.now);
    case SendRenew(ref, lag) => RenewSends(c, y.server, ref, y.now, y.now + lag);
    forall m | m in y.sent && m.ref.task == l.ref.task && m.ref.attempt == l.ref.attempt ensures m.ref == l.ref {
      assert LeaseOK(m, y.server, y.now);
    }
  }

  lemma {:induction false} StepSent(c: Config, y: System, a: Action)
    requires Inv(c, y)
    ensures SentOK(Step(c, y, a))
  {
    hide Kept, LimitsOK, TimesOK, Handle, Evolves, LeaseOK, Replies;
    var z := Step(c, y, a);
    HandleEvolves(c, y, a);
    forall l | l in z.sent ensures LeaseOK(l, z.server, z.now) {
      if l in y.sent {
        LeaseTask(l, y.server, y.now);
        NewAttemptAfterExpiry(c, y, a, l.ref.task);
        LeaseKept(l, y.server, z.server, y.now, z.now);
      } else {
        ReplyOK(c, y, a, l);
      }
    }
    forall l, m | l in z.sent && m in z.sent && l.ref.task == m.ref.task && l.ref.attempt == m.ref.attempt
      ensures l.ref == m.ref
    {
      if l in y.sent && m in y.sent {
      } else if l in y.sent {
        ReplyOK(c, y, a, m);
      } else if m in y.sent {
        ReplyOK(c, y, a, l);
      } else {
        OneReply(c, y, a, l, m);
      }
    }
  }

  lemma {:induction false} LeaseTask(l: Lease, s: State, now: Time)
    requires LeaseOK(l, s, now)
    ensures l.ref.task in s.tasks
  {
  }

  lemma {:induction false} OneReply(c: Config, y: System, a: Action, l: Lease, m: Lease)
    requires l in Replies(c, y, a) && m in Replies(c, y, a)
    ensures l == m
  {
    hide Claim, Renew;
  }

  lemma {:induction false} StepInv(c: Config, y: System, a: Action)
    requires Inv(c, y)
    ensures Inv(c, Step(c, y, a))
  {
    hide Kept, LimitsOK, TimesOK, SentOK, Handle, Replies;
    HandleKept(c, y, a);
    HandleLimits(c, y, a);
    HandleTimes(c, y, a);
    StepSent(c, y, a);
  }

  lemma {:induction false} ExecInv(c: Config, y: System, actions: seq<Action>)
    requires Inv(c, y)
    ensures Inv(c, Exec(c, y, actions))
    decreases |actions|
  {
    hide Inv, Step;
    if actions != [] {
      StepInv(c, y, actions[0]);
      ExecInv(c, Step(c, y, actions[0]), actions[1..]);
    }
  }

  lemma {:induction false} ExecEvolves(c: Config, y: System, actions: seq<Action>)
    requires Inv(c, y)
    ensures Evolves(y.server, Exec(c, y, actions).server)
    ensures y.now <= Exec(c, y, actions).now
    decreases |actions|
  {
    hide Kept, LimitsOK, TimesOK, SentOK, Evolves, Handle, Replies;
    if actions == [] {
      EvolvesWorkers(y.server, y.server);
    } else {
      var z := Step(c, y, actions[0]);
      HandleEvolves(c, y, actions[0]);
      StepInv(c, y, actions[0]);
      ExecEvolves(c, z, actions[1..]);
      EvolvesTransitive(y.server, z.server, Exec(c, z, actions[1..]).server);
    }
  }

  // ----- theorems about every run

  // THEOREM (lease mutual exclusion). No two workers, boots or attempts ever hold unexpired
  // views of the same task.
  lemma {:induction false} MutualExclusion(c: Config, actions: seq<Action>, l: Lease, m: Lease)
    requires var y := Exec(c, START, actions);
      l in y.views && m in y.views && l.ref.task == m.ref.task && l.expires > y.now && m.expires > y.now
    ensures l.ref == m.ref
  {
    hide Kept, LimitsOK, TimesOK, Exec;
    StartInv(c);
    ExecInv(c, START, actions);
    var y := Exec(c, START, actions);
    assert LeaseOK(l, y.server, y.now) && LeaseOK(m, y.server, y.now);
    assert l.ref.attempt.number == y.server.tasks[l.ref.task].attempt == m.ref.attempt.number;
  }

  // THEOREM. An unexpired view is of the current attempt, never outlives the server's lease,
  // and the server's lease never passes the deadline. While the task is unfinished the server
  // still names the viewer as its holder.
  lemma {:induction false} ViewBoundedByServer(c: Config, actions: seq<Action>, l: Lease)
    requires var y := Exec(c, START, actions); l in y.views && l.expires > y.now
    ensures var y := Exec(c, START, actions);
      && l.ref.task in y.server.tasks
      && var task := y.server.tasks[l.ref.task];
         && task.attempt == l.ref.attempt.number && l.expires <= task.expires && l.expires <= task.deadline
         && (!Final(task.state) ==> task.holder == Some(HolderOf(l.ref)))
  {
    hide Shape, Unique, RunsOK, ResultsOK, DeliveriesOK, ConservationOK, AttemptsOK, LimitsOK, Exec;
    StartInv(c);
    ExecInv(c, START, actions);
    var y := Exec(c, START, actions);
    assert LeaseOK(l, y.server, y.now);
    assert TaskOK(l.ref.task, y.server.tasks[l.ref.task]);
  }

  // THEOREM. Complete, failed and cancelled tasks never change again; attempts never go back.
  lemma {:induction false} OutcomesFinal(c: Config, before: seq<Action>, after: seq<Action>, t: TaskId)
    requires t in Exec(c, START, before).server.tasks
    ensures var y := Exec(c, START, before); var z := Exec(c, y, after);
      && t in z.server.tasks && y.server.tasks[t].attempt <= z.server.tasks[t].attempt
      && (Final(y.server.tasks[t].state) ==> z.server.tasks[t] == y.server.tasks[t])
      && (y.server.tasks[t].attempt == z.server.tasks[t].attempt ==> y.server.tasks[t].expires <= z.server.tasks[t].expires)
  {
    hide Kept, LimitsOK, TimesOK, SentOK, Exec;
    StartInv(c);
    ExecInv(c, START, before);
    var y := Exec(c, START, before);
    ExecEvolves(c, y, after);
    assert TaskEvolves(y.server.tasks[t], Exec(c, y, after).server.tasks[t]);
  }

  // THEOREM. At every moment: each task has at most one delivery, and exactly one if complete;
  // deliveries belong to final tasks; the INSERTs of all deliveries number the stored items and
  // relations; a run's attempts are the sum of its tasks'; a run is final exactly when its tasks
  // are; a task with results received has an unprocessed, undeleted chunk for its attempt.
  lemma {:induction false} AccountsAlwaysBalance(c: Config, actions: seq<Action>)
    ensures var s := Exec(c, START, actions).server;
      && DeliveriesOK(s) && ConservationOK(s) && AttemptsOK(s) && RunsOK(s) && ResultsOK(s)
  {
    hide Exec, LimitsOK, TimesOK, SentOK, Shape, Unique, TasksOK, RunsOK, ResultsOK, DeliveriesOK,
         ConservationOK, AttemptsOK;
    StartInv(c);
    ExecInv(c, START, actions);
  }

  // THEOREM. No worker ever holds more leases than it registered for, no pool more than its limit.
  lemma {:induction false} LimitsAlwaysHold(c: Config, actions: seq<Action>, w: WorkerId)
    requires w in Exec(c, START, actions).server.workers
    ensures var s := Exec(c, START, actions).server;
      |WorkerLeases(s.tasks, w)| <= s.workers[w].maxConcurrency && |PoolLeases(s.tasks, s.workers[w].pool)| <= c.poolMaxLeases
  {
    hide Exec, Kept, TimesOK, SentOK, WorkerLeases, PoolLeases;
    StartInv(c);
    ExecInv(c, START, actions);
  }

  lemma {:induction false} DoomedStep(c: Config, y: System, a: Action, r: RunId)
    requires Kept(y.server) && Doomed(y.server, r)
    ensures Doomed(Handle(c, y, a), r) && Frozen(y.server, Handle(c, y, a), r)
  {
    hide Shape, TasksOK, RunsOK, ResultsOK, DeliveriesOK, ConservationOK, AttemptsOK, Unique,
         Claim, Renew, SubmitResult, CompleteTask, CancelRun, Cleanup, CreateRun;
    var s := y.server;
    match a
    case StartRun(pool, operation, partitions) => DoomedCreate(s, r, pool, operation, partitions, y.now);
    case SendClaim(claim, token) => DoomedClaim(c, s, r, claim, token, y.now);
    case SendRenew(ref, lag) => DoomedRenew(c, s, r, ref, y.now, y.now + lag);
    case SendResult(result) => DoomedSubmit(s, r, result, y.now);
    case SendComplete(complete) => DoomedComplete(s, r, complete, y.now);
    case Cancel(run) => DoomedCancel(s, r, run);
    case Clean(chosen) => CleanupSame(c, s, chosen, y.now);
    case _ =>
  }

  lemma {:induction false} DoomedRenew(c: Config, s: State, r: RunId, ref: LeaseRef, now: Time, later: Time)
    requires Doomed(s, r)
    ensures Doomed(Renew(c, s, ref, now, later).0, r) && Frozen(s, Renew(c, s, ref, now, later).0, r)
  {
  }

  lemma {:induction false} DoomedSubmit(s: State, r: RunId, q: ResultRequest, now: Time)
    requires Doomed(s, r)
    ensures Doomed(SubmitResult(s, q, now).0, r) && Frozen(s, SubmitResult(s, q, now).0, r)
  {
  }

  lemma {:induction false} DoomedExec(c: Config, y: System, actions: seq<Action>, r: RunId)
    requires Inv(c, y) && Doomed(y.server, r)
    ensures var z := Exec(c, y, actions); Doomed(z.server, r) && Frozen(y.server, z.server, r)
    decreases |actions|
  {
    hide Kept, LimitsOK, TimesOK, SentOK, Evolves, Handle, Replies, Doomed, Frozen;
    if actions == [] {
      FrozenSelf(y.server, r);
    } else {
      var z := Step(c, y, actions[0]);
      DoomedStep(c, y, actions[0], r);
      HandleEvolves(c, y, actions[0]);
      StepInv(c, y, actions[0]);
      DoomedExec(c, z, actions[1..], r);
      ExecEvolves(c, z, actions[1..]);
      FrozenTransitive(y.server, z.server, Exec(c, z, actions[1..]).server, r);
    }
  }

  lemma {:induction false} FrozenSelf(s: State, r: RunId)
    ensures Frozen(s, s, r)
  {
  }

  // THEOREM (cancellation). After CancelRun has returned true, whatever happens next: the run
  // gains no delivery, no task of it completes, every unfinished task of it is leased with
  // cancel requested, and the run is cancelling until it ends cancelled or failed.
  lemma {:induction false} CancellationIsFinal(c: Config, before: seq<Action>, r: RunId, after: seq<Action>)
    requires CancelRun(Exec(c, START, before).server, r).1
    ensures var y := Step(c, Exec(c, START, before), Cancel(r)); var z := Exec(c, y, after);
      && Frozen(y.server, z.server, r)
      && r in z.server.runs
      && (z.server.runs[r].state == RunCancelling || z.server.runs[r].state == RunCancelled || z.server.runs[r].state == RunFailed)
      && (forall t :: t in z.server.tasks && z.server.tasks[t].run == r && !Final(z.server.tasks[t].state) ==>
            Active(z.server.tasks[t].state) && z.server.tasks[t].cancelRequested)
  {
    hide LimitsOK, TimesOK, SentOK, Exec, TasksOK, ResultsOK, DeliveriesOK, ConservationOK, AttemptsOK,
         Unique, SomeTask, Frozen;
    hide Kept, Handle;
    StartInv(c);
    ExecInv(c, START, before);
    var x := Exec(c, START, before);
    var y := Step(c, x, Cancel(r));
    StepInv(c, x, Cancel(r));
    CancelDooms(c, x, r);
    DoomedExec(c, y, after, r);
    ExecInv(c, y, after);
    var z := Exec(c, y, after);
    KeptRuns(z.server);
    UnfinishedCancelling(z.server, r);
  }

  lemma {:induction false} CancelDooms(c: Config, x: System, r: RunId)
    requires CancelRun(x.server, r).1
    ensures Doomed(Step(c, x, Cancel(r)).server, r)
  {
    hide SomeTask;
  }

  lemma {:induction false} KeptRuns(s: State)
    requires Kept(s)
    ensures Shape(s) && RunsOK(s)
  {
    hide Shape, RunsOK;
  }

  lemma {:induction false} UnfinishedCancelling(s: State, r: RunId)
    requires Shape(s) && RunsOK(s) && r in s.runs
    requires s.runs[r].state == RunCancelling || s.runs[r].state == RunCancelled || s.runs[r].state == RunFailed
    ensures forall t :: t in s.tasks && s.tasks[t].run == r && !Final(s.tasks[t].state) ==>
      Active(s.tasks[t].state) && s.tasks[t].cancelRequested
  {
    forall t | t in s.tasks && s.tasks[t].run == r && !Final(s.tasks[t].state)
      ensures Active(s.tasks[t].state) && s.tasks[t].cancelRequested
    {
      RunKnown(s, t);
      assert RunOK(s.runs[r], s.tasks);
    }
  }

  // THEOREM. At most one worker, boot, attempt and token is accepted for a task at a time, and
  // a success is never refused for want of its stored result.
  lemma {:induction false} OneAcceptedLease(c: Config, actions: seq<Action>, p: LeaseRef, q: LeaseRef, complete: CompleteRequest)
    requires var y := Exec(c, START, actions);
      ValidLease(y.server, p, y.now) && ValidLease(y.server, q, y.now) && p.task == q.task
    ensures p == q && p.attempt == AttemptId(p.task, Exec(c, START, actions).server.tasks[p.task].attempt)
    ensures var y := Exec(c, START, actions); CompleteTask(y.server, complete, y.now).1 != MissingResult
  {
    hide Shape, Unique, RunsOK, ResultsOK, DeliveriesOK, ConservationOK, AttemptsOK, LimitsOK, TimesOK,
         SentOK, Exec, CompleteTask;
    StartInv(c);
    ExecInv(c, START, actions);
    var y := Exec(c, START, actions);
    assert TaskOK(p.task, y.server.tasks[p.task]);
    ResultNeverMissing(y.server, complete, y.now);
  }
}
