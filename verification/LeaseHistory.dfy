// How the control plane's state may change: what is never undone, how many leases are out,
// when they end, and what becomes of a cancelled run.
module LeaseHistory {
  import opened Wrappers
  import opened ControlPlane
  import opened LeaseInvariant

  // ----- every handler only moves tasks forward

  lemma {:induction false} OneTaskEvolves(s: State, s': State, t: TaskId, b: Task)
    requires OneTask(s, s', t, b) && TaskEvolves(s.tasks[t], b) && s.deliveries <= s'.deliveries
    ensures Evolves(s, s')
  {
  }

  lemma {:induction false} CreateEvolves(s: State, pool: string, operation: Operation, partitions: nat, now: Time)
    requires Unique(s)
    ensures Evolves(s, CreateRun(s, pool, operation, partitions, now).0)
  {
    if 1 <= partitions <= MAX_PARTITIONS {
      CreateRunCreates(s, pool, operation, partitions, now);
    }
  }

  lemma {:induction false} ReapEvolves(s: State, now: Time)
    ensures Evolves(s, ReapAll(s, now))
  {
    hide RefreshedState, RunLapsed;
  }

  lemma {:induction false} GrantEvolves(c: Config, s: State, w: WorkerId, t: TaskId, token: Token, now: Time)
    requires w in s.workers && t in s.tasks && s.tasks[t].state == Ready
    ensures Evolves(s, Grant(c, s, w, t, token, now).0)
  {
  }

  lemma {:induction false} ClaimEvolves(c: Config, s: State, q: ClaimRequest, token: Token, now: Time)
    ensures Evolves(s, Claim(c, s, q, token, now).0)
  {
    hide Grant, Full, ReapAll, Evolves, WorkerLeases;
    EvolvesWorkers(s, s);
    if ClaimAllowed(s, q) {
      var reaped, ready := ReapAll(s, now), BeforeClaim(s, q.worker, now);
      ReapEvolves(s, now);
      EvolvesWorkers(reaped, ready);
      EvolvesTransitive(s, reaped, ready);
      var ids := Claimable(ready, ready.workers[q.worker]);
      if !Full(c, ready, q.worker) && ids != {} {
        GrantEvolves(c, ready, q.worker, LeastOf(ids), token, now);
        EvolvesTransitive(s, ready, Grant(c, ready, q.worker, LeastOf(ids), token, now).0);
      }
    }
  }

  lemma {:induction false} EvolvesWorkers(s: State, s': State)
    requires s'.tasks == s.tasks && s'.runs == s.runs && s'.deliveries == s.deliveries
    ensures Evolves(s, s')
  {
  }

  lemma {:induction false} RenewEvolves(c: Config, s: State, ref: LeaseRef, now: Time, later: Time)
    requires TimesOK(c, s, now) && now <= later
    ensures Evolves(s, Renew(c, s, ref, now, later).0)
  {
    hide Evolves;
    var (s', reply) := Renew(c, s, ref, now, later);
    EvolvesWorkers(s, s);
    if reply.Renewed? {
      OneTaskEvolves(s, s', ref.task, s'.tasks[ref.task]);
    }
  }

  lemma {:induction false} SubmitEvolves(s: State, q: ResultRequest, now: Time)
    ensures Evolves(s, SubmitResult(s, q, now).0)
  {
    hide Evolves;
    var (s', reply) := SubmitResult(s, q, now);
    EvolvesWorkers(s, s);
    if reply.Accepted? {
      OneTaskEvolves(s, s', q.ref.task, s'.tasks[q.ref.task]);
    }
  }

  lemma {:induction false} CancelEvolves(s: State, r: RunId)
    ensures Evolves(s, CancelRun(s, r).0)
  {
    hide SomeTask;
  }

  lemma {:induction false} CompleteEvolves(s: State, q: CompleteRequest, now: Time)
    requires Shape(s)
    ensures Evolves(s, CompleteTask(s, q, now).0)
  {
    hide Shape, Deliver, CompleteFailure, Evolves;
    var (s', reply) := CompleteTask(s, q, now);
    EvolvesWorkers(s, s);
    if ValidLease(s, q.ref, now) && s' != s {
      if !q.success {
        FailureEvolves(s, q);
      } else {
        DeliverEvolves(s, q.ref, s.results[ResultKey(q.ref.task, q.ref.attempt)].observation.value, now);
      }
    }
  }

  lemma {:induction false} FailureEvolves(s: State, q: CompleteRequest)
    requires q.ref.task in s.tasks && Active(s.tasks[q.ref.task].state)
    ensures Evolves(s, CompleteFailure(s, q).0)
  {
    hide RefreshedState;
  }

  lemma {:induction false} DeliverEvolves(s: State, ref: LeaseRef, o: Observation, now: Time)
    requires Shape(s) && ref.task in s.tasks && ResultKey(ref.task, ref.attempt) in s.results
    requires Active(s.tasks[ref.task].state)
    ensures Evolves(s, Deliver(s, ref, o, now).0)
  {
    hide Shape, Deliver, RefreshedState, Evolves;
    DeliverFinishes(s, ref, o, now);
    var s' := Deliver(s, ref, o, now).0;
    var outcome, d :| Finishes(s, s', ref, outcome, d, now);
    OneTaskEvolves(s, s', ref.task, s'.tasks[ref.task]);
  }

  // ----- lease times

  lemma {:induction false} TimesLater(c: Config, s: State, now: Time, later: Time)
    requires TimesOK(c, s, now) && now <= later
    ensures TimesOK(c, s, later)
  {
  }

  lemma {:induction false} OneTaskTimes(c: Config, s: State, s': State, t: TaskId, b: Task, now: Time)
    requires TimesOK(c, s, now) && OneTask(s, s', t, b)
    requires b.state == Ready ==> b.expires <= now
    requires Active(b.state) ==> b.expires <= Min(now + c.leaseDuration, b.deadline)
    ensures TimesOK(c, s', now)
  {
  }

  lemma {:induction false} CreateTimes(c: Config, s: State, pool: string, operation: Operation, partitions: nat, now: Time)
    requires TimesOK(c, s, now) && Unique(s)
    ensures TimesOK(c, CreateRun(s, pool, operation, partitions, now).0, now)
  {
    if 1 <= partitions <= MAX_PARTITIONS {
      CreateRunCreates(s, pool, operation, partitions, now);
    }
  }

  lemma {:induction false} ReapTimes(c: Config, s: State, now: Time)
    requires TimesOK(c, s, now)
    ensures TimesOK(c, ReapAll(s, now), now)
  {
    hide RefreshedState, RunLapsed;
  }

  lemma {:induction false} ClaimTimes(c: Config, s: State, q: ClaimRequest, token: Token, now: Time)
    requires TimesOK(c, s, now)
    ensures TimesOK(c, Claim(c, s, q, token, now).0, now)
  {
    hide ReapAll, Full, WorkerLeases;
    if ClaimAllowed(s, q) {
      ReapTimes(c, s, now);
    }
  }

  lemma {:induction false} RenewTimes(c: Config, s: State, ref: LeaseRef, now: Time, later: Time)
    requires TimesOK(c, s, now) && now <= later
    ensures TimesOK(c, Renew(c, s, ref, now, later).0, later)
  {
    hide TimesOK;
    var (s', reply) := Renew(c, s, ref, now, later);
    TimesLater(c, s, now, later);
    if reply.Renewed? {
      OneTaskTimes(c, s, s', ref.task, s'.tasks[ref.task], later);
    }
  }

  lemma {:induction false} SubmitTimes(c: Config, s: State, q: ResultRequest, now: Time)
    requires TimesOK(c, s, now)
    ensures TimesOK(c, SubmitResult(s, q, now).0, now)
  {
  }

  lemma {:induction false} CancelTimes(c: Config, s: State, r: RunId, now: Time)
    requires TimesOK(c, s, now)
    ensures TimesOK(c, CancelRun(s, r).0, now)
  {
    hide SomeTask;
  }

  lemma {:induction false} CompleteTimes(c: Config, s: State, q: CompleteRequest, now: Time)
    requires TimesOK(c, s, now) && Shape(s)
    ensures TimesOK(c, CompleteTask(s, q, now).0, now)
  {
    hide Shape, TimesOK, Deliver, RefreshedState;
    var (s', reply) := CompleteTask(s, q, now);
    if ValidLease(s, q.ref, now) && s' != s {
      var t := q.ref.task;
      if !q.success {
        FailureOneTask(s, q);
      } else {
        DeliverFinishes(s, q.ref, s.results[ResultKey(t, q.ref.attempt)].observation.value, now);
        var outcome, d :| Finishes(s, s', q.ref, outcome, d, now);
      }
      OneTaskTimes(c, s, s', t, s'.tasks[t], now);
    }
  }

  // ----- how many leases are out

  // No task becomes leased, or changes hands.
  ghost predicate LeasesShrink(tasks: map<TaskId, Task>, tasks': map<TaskId, Task>) {
    forall t :: t in tasks' && Active(tasks'[t].state) ==>
      t in tasks && Active(tasks[t].state) && tasks'[t].holder == tasks[t].holder && tasks'[t].pool == tasks[t].pool
  }

  lemma {:induction false} SubsetCard<T>(a: set<T>, b: set<T>)
    requires a <= b
    ensures |a| <= |b|
  {
    if a != b {
      assert b == a + (b - a);
    }
  }

  lemma {:induction false} ShrinkLimits(c: Config, s: State, s': State)
    requires LimitsOK(c, s) && LeasesShrink(s.tasks, s'.tasks) && s'.workers == s.workers && s.nextID <= s'.nextID
    ensures LimitsOK(c, s')
  {
    forall w | w in s.workers
      ensures |WorkerLeases(s'.tasks, w)| <= s.workers[w].maxConcurrency
      ensures |PoolLeases(s'.tasks, s.workers[w].pool)| <= c.poolMaxLeases
    {
      SubsetCard(WorkerLeases(s'.tasks, w), WorkerLeases(s.tasks, w));
      SubsetCard(PoolLeases(s'.tasks, s.workers[w].pool), PoolLeases(s.tasks, s.workers[w].pool));
    }
  }

  // Leasing a waiting task adds it to its worker's leases and its pool's, and to no others.
  lemma {:induction false} GrantLeases(tasks: map<TaskId, Task>, t: TaskId, b: Task, w: WorkerId, v: WorkerId, pool: string)
    requires t in tasks && tasks[t].state == Ready && b.state == Leased && b.pool == tasks[t].pool
    requires b.holder.Some? && b.holder.value.worker == w
    ensures WorkerLeases(tasks[t := b], v) == WorkerLeases(tasks, v) + (if v == w then {t} else {})
    ensures PoolLeases(tasks[t := b], pool) == PoolLeases(tasks, pool) + (if pool == b.pool then {t} else {})
  {
  }

  lemma {:induction false} GrantLimits(c: Config, s: State, w: WorkerId, t: TaskId, token: Token, now: Time)
    requires LimitsOK(c, s) && w in s.workers && t in s.tasks && s.tasks[t].state == Ready && s.tasks[t].pool == s.workers[w].pool
    requires |WorkerLeases(s.tasks, w)| < s.workers[w].maxConcurrency && |PoolLeases(s.tasks, s.workers[w].pool)| < c.poolMaxLeases
    ensures LimitsOK(c, Grant(c, s, w, t, token, now).0)
  {
    hide WorkerLeases, PoolLeases;
    var s' := Grant(c, s, w, t, token, now).0;
    forall v | v in s'.workers
      ensures |WorkerLeases(s'.tasks, v)| <= s'.workers[v].maxConcurrency
      ensures |PoolLeases(s'.tasks, s'.workers[v].pool)| <= c.poolMaxLeases
    {
      GrantLeases(s.tasks, t, s'.tasks[t], w, v, s.workers[v].pool);
    }
  }

  lemma {:induction false} ClaimLimits(c: Config, s: State, q: ClaimRequest, token: Token, now: Time)
    requires LimitsOK(c, s)
    ensures LimitsOK(c, Claim(c, s, q, token, now).0)
  {
    if ClaimAllowed(s, q) {
      hide LimitsOK, Grant, LeasesShrink;
      var reaped, ready := ReapAll(s, now), BeforeClaim(s, q.worker, now);
      ReapShrinks(s, now);
      ShrinkLimits(c, s, reaped);
      CountLimits(c, reaped, ready, q.worker);
      var ids := Claimable(ready, ready.workers[q.worker]);
      if !Full(c, ready, q.worker) && ids != {} {
        GrantLimits(c, ready, q.worker, LeastOf(ids), token, now);
      }
    }
  }

  lemma {:induction false} ReapShrinks(s: State, now: Time)
    ensures LeasesShrink(s.tasks, ReapAll(s, now).tasks)
  {
    hide RefreshedState, RunLapsed;
  }

  // Refreshing a worker's count leaves its limits alone.
  lemma {:induction false} CountLimits(c: Config, s: State, s': State, w: WorkerId)
    requires LimitsOK(c, s) && w in s.workers && s'.tasks == s.tasks && s'.nextID == s.nextID
    requires exists n :: s'.workers == s.workers[w := s.workers[w].(currentLeases := n)]
    ensures LimitsOK(c, s')
  {
  }

  // A new worker's pool has no leases unless another worker of the pool holds them.
  lemma {:induction false} RegisterLimits(c: Config, s: State, boot: string, pool: string, site: string, capabilities: seq<Operation>, limit: int)
    requires LimitsOK(c, s)
    ensures LimitsOK(c, Register(s, boot, pool, site, capabilities, limit).0)
  {
    var (s', id) := Register(s, boot, pool, site, capabilities, limit);
    if id.Some? {
      var w := id.value;
      assert w !in s.workers;
      NoLeasesYet(c, s, w, pool);
    }
  }

  lemma {:induction false} NoLeasesYet(c: Config, s: State, w: WorkerId, pool: string)
    requires LimitsOK(c, s) && w !in s.workers
    ensures WorkerLeases(s.tasks, w) == {}
    ensures |PoolLeases(s.tasks, pool)| <= c.poolMaxLeases
  {
    if PoolLeases(s.tasks, pool) != {} {
      var t :| t in PoolLeases(s.tasks, pool);
      assert s.workers[s.tasks[t].holder.value.worker].pool == pool;
    }
  }

  // ----- what a cancellation settles

  // A run that is being cancelled, or has ended cancelled or failed.
  predicate Doomed(s: State, r: RunId) {
    r in s.runs && (s.runs[r].state == RunCancelling || s.runs[r].state == RunCancelled || s.runs[r].state == RunFailed)
  }

  // Nothing more of the run completes and nothing more of it is delivered.
  ghost predicate Frozen(s: State, s': State, r: RunId) {
    && s.deliveries <= s'.deliveries
    && (forall i :: |s.deliveries| <= i < |s'.deliveries| ==> s'.deliveries[i].run != r)
    && (forall t :: t in s.tasks && t in s'.tasks && s.tasks[t].run == r ==> (s'.tasks[t].state == Complete <==> s.tasks[t].state == Complete))
  }

  lemma {:induction false} FrozenTransitive(a: State, b: State, c: State, r: RunId)
    requires Evolves(a, b) && Evolves(b, c) && Frozen(a, b, r) && Frozen(b, c, r)
    ensures Frozen(a, c, r)
  {
    forall t | t in a.tasks && t in c.tasks && a.tasks[t].run == r
      ensures c.tasks[t].state == Complete <==> a.tasks[t].state == Complete
    {
      assert TaskEvolves(a.tasks[t], b.tasks[t]);
    }
  }

  lemma {:induction false} DoomedRefresh(s: State, tasks: map<TaskId, Task>, r: RunId, t: TaskId)
    requires Shape(s) && RunsOK(s) && Doomed(s, r) && t in s.tasks && s.tasks[t].run == r && !Final(s.tasks[t].state)
    requires t in tasks && (tasks[t].state == Cancelled || !Final(tasks[t].state))
    ensures s.runs[r].state == RunCancelling && s.tasks[t].cancelRequested
    ensures var after := RefreshedState(s.runs[r], tasks); after == RunCancelling || after == RunCancelled || after == RunFailed
  {
    assert RunOK(s.runs[r], s.tasks);
    assert t in s.runs[r].taskIDs;
    if Final(tasks[t].state) {
      assert IsCancelled(tasks[t].state);
    } else {
      assert Unfinished(tasks[t].state);
    }
  }

  lemma {:induction false} DoomedReap(s: State, r: RunId, now: Time)
    requires Shape(s) && RunsOK(s) && Doomed(s, r)
    ensures Doomed(ReapAll(s, now), r) && Frozen(s, ReapAll(s, now), r)
  {
    hide RefreshedState, Shape, RunsOK;
    if RunLapsed(s.tasks, r, now) {
      var t :| t in s.tasks && s.tasks[t].run == r && Lapsed(s.tasks[t], now);
      var tasks := ReapTasks(s.tasks, now);
      assert s.tasks[t].cancelRequested by {
        DoomedRefresh(s, s.tasks, r, t);
      }
      DoomedRefresh(s, tasks, r, t);
    }
  }

  lemma {:induction false} DoomedGrant(c: Config, s: State, r: RunId, w: WorkerId, t: TaskId, token: Token, now: Time)
    requires Shape(s) && RunsOK(s) && Doomed(s, r) && w in s.workers && t in s.tasks && s.tasks[t].state == Ready
    ensures Doomed(Grant(c, s, w, t, token, now).0, r) && Frozen(s, Grant(c, s, w, t, token, now).0, r)
  {
    hide RunOK;
    RunKnown(s, t);
    var run := s.runs[s.tasks[t].run];
    assert RunOK(run, s.tasks);
    GrantRunOK(run, s.tasks, t, s.tasks[t].(state := Leased), run.(state := RunRunning));
    assert s.tasks[t].run != r;
  }

  lemma {:induction false} DoomedClaim(c: Config, s: State, r: RunId, q: ClaimRequest, token: Token, now: Time)
    requires Kept(s) && Doomed(s, r)
    ensures Doomed(Claim(c, s, q, token, now).0, r) && Frozen(s, Claim(c, s, q, token, now).0, r)
  {
    hide Grant, Full, ReapAll, Evolves, Shape, Unique, TasksOK, RunsOK, ResultsOK, DeliveriesOK,
         ConservationOK, AttemptsOK, WorkerLeases;
    if ClaimAllowed(s, q) {
      var reaped, ready := ReapAll(s, now), BeforeClaim(s, q.worker, now);
      DoomedReap(s, r, now);
      ReapEvolves(s, now);
      ReapKept(s, now);
      WorkersKept(reaped, ready);
      EvolvesWorkers(reaped, ready);
      EvolvesTransitive(s, reaped, ready);
      var ids := Claimable(ready, ready.workers[q.worker]);
      if !Full(c, ready, q.worker) && ids != {} {
        var t := LeastOf(ids);
        DoomedGrant(c, ready, r, q.worker, t, token, now);
        GrantEvolves(c, ready, q.worker, t, token, now);
        FrozenTransitive(s, ready, Grant(c, ready, q.worker, t, token, now).0, r);
      }
    }
  }

  lemma {:induction false} DoomedFailure(s: State, r: RunId, q: CompleteRequest)
    requires Shape(s) && RunsOK(s) && Doomed(s, r) && q.ref.task in s.tasks && Active(s.tasks[q.ref.task].state)
    ensures Doomed(CompleteFailure(s, q).0, r) && Frozen(s, CompleteFailure(s, q).0, r)
  {
    hide RefreshedState, Shape, RunsOK;
    var (s', reply) := CompleteFailure(s, q);
    var t := q.ref.task;
    if reply.Completed? && s.tasks[t].run == r {
      DoomedRefresh(s, s.tasks, r, t);
      DoomedRefresh(s, s'.tasks, r, t);
    }
  }

  lemma {:induction false} DoomedDeliver(s: State, r: RunId, ref: LeaseRef, o: Observation, now: Time)
    requires Shape(s) && RunsOK(s) && Doomed(s, r) && ref.task in s.tasks && ResultKey(ref.task, ref.attempt) in s.results
    requires Active(s.tasks[ref.task].state) && !s.tasks[ref.task].cancelRequested
    ensures Doomed(Deliver(s, ref, o, now).0, r) && Frozen(s, Deliver(s, ref, o, now).0, r)
  {
    hide RefreshedState, Shape, RunsOK, Deliver;
    var s' := Deliver(s, ref, o, now).0;
    DeliverFinishes(s, ref, o, now);
    var outcome, d :| Finishes(s, s', ref, outcome, d, now);
    if s.tasks[ref.task].run == r {
      DoomedRefresh(s, s.tasks, r, ref.task);
    }
  }

  lemma {:induction false} DoomedComplete(s: State, r: RunId, q: CompleteRequest, now: Time)
    requires Shape(s) && RunsOK(s) && Doomed(s, r)
    ensures Doomed(CompleteTask(s, q, now).0, r) && Frozen(s, CompleteTask(s, q, now).0, r)
  {
    hide Shape, RunsOK, Deliver, CompleteFailure;
    if ValidLease(s, q.ref, now) {
      if !q.success {
        DoomedFailure(s, r, q);
      } else if CompleteTask(s, q, now).0 != s {
        DoomedDeliver(s, r, q.ref, s.results[ResultKey(q.ref.task, q.ref.attempt)].observation.value, now);
      }
    }
  }

  lemma {:induction false} DoomedCancel(s: State, r: RunId, q: RunId)
    requires Doomed(s, r)
    ensures Doomed(CancelRun(s, q).0, r) && Frozen(s, CancelRun(s, q).0, r)
  {
    hide SomeTask;
  }

  lemma {:induction false} DoomedCreate(s: State, r: RunId, pool: string, operation: Operation, partitions: nat, now: Time)
    requires Unique(s) && Doomed(s, r)
    ensures Doomed(CreateRun(s, pool, operation, partitions, now).0, r)
    ensures Frozen(s, CreateRun(s, pool, operation, partitions, now).0, r)
  {
    if 1 <= partitions <= MAX_PARTITIONS {
      CreateRunCreates(s, pool, operation, partitions, now);
    }
  }
}
