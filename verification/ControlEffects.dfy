// What each handler of the control plane answers, and what it changes, told by the fields of its
// records and the literal limits of the source (internal/worker/controlsim/server.go).
module ControlEffects {
  import opened Wrappers
  import opened ControlPlane

  // A worker's request names the lease that the task is under.
  predicate Held(s: State, ref: LeaseRef, now: Time) {
    && ref.task in s.tasks
    && var task := s.tasks[ref.task];
       && (task.state == Leased || task.state == Running || task.state == ResultsReceived)
       && task.holder == Some(Holder(ref.worker, ref.boot, ref.attempt, ref.token)) && now < task.expires
  }

  // ----- claims

  predicate Admitted(s: State, q: ClaimRequest) {
    && q.worker in s.workers && s.workers[q.worker].boot == q.boot && s.workers[q.worker].capabilities == q.capabilities
    && 0 <= q.currentLeases && q.currentLeases <= s.workers[q.worker].maxConcurrency
  }

  predicate Leasing(task: Task, now: Time) {
    (task.state == Leased || task.state == Running || task.state == ResultsReceived) && now < task.expires
  }

  predicate LapsedLease(task: Task, now: Time) {
    (task.state == Leased || task.state == Running || task.state == ResultsReceived) && task.expires <= now
  }

  // A task that a worker may be given: ready, or left by a lapsed lease, of its pool, and of an
  // operation that it can do.
  predicate Grantable(s: State, q: ClaimRequest, t: TaskId, now: Time)
    requires q.worker in s.workers
  {
    && t in s.tasks
    && (s.tasks[t].state == Ready || (LapsedLease(s.tasks[t], now) && !s.tasks[t].cancelRequested))
    && s.tasks[t].pool == s.workers[q.worker].pool && s.tasks[t].operation in s.workers[q.worker].capabilities
  }

  function LeasesOf(s: State, w: WorkerId, now: Time): set<TaskId> {
    set t | t in s.tasks && Leasing(s.tasks[t], now) && s.tasks[t].holder.Some? && s.tasks[t].holder.value.worker == w
  }

  function LeasesIn(s: State, pool: string, now: Time): set<TaskId> {
    set t | t in s.tasks && Leasing(s.tasks[t], now) && s.tasks[t].pool == pool
  }

  predicate AtLimit(c: Config, s: State, w: WorkerId, now: Time)
    requires w in s.workers
  {
    |LeasesOf(s, w, now)| >= s.workers[w].maxConcurrency || |LeasesIn(s, s.workers[w].pool, now)| >= c.poolMaxLeases
  }

  // A lapsed lease is taken back; a cancelled task ends with it.
  predicate TakenBack(before: Task, after: Task) {
    after == before.(state := if before.cancelRequested then Cancelled else Ready, holder := None, cancelRequested := false)
  }

  lemma {:induction false} BeforeClaimLeases(s: State, q: ClaimRequest, now: Time)
    requires q.worker in s.workers
    ensures var ready := BeforeClaim(s, q.worker, now);
      && ready.tasks.Keys == s.tasks.Keys
      && (forall t :: t in s.tasks ==>
            if LapsedLease(s.tasks[t], now) then TakenBack(s.tasks[t], ready.tasks[t]) else ready.tasks[t] == s.tasks[t])
      && WorkerLeases(ready.tasks, q.worker) == LeasesOf(s, q.worker, now)
      && PoolLeases(ready.tasks, s.workers[q.worker].pool) == LeasesIn(s, s.workers[q.worker].pool, now)
      && ready.workers[q.worker].currentLeases == |LeasesOf(s, q.worker, now)|
      && (forall t :: t in Claimable(ready, ready.workers[q.worker]) <==> Grantable(s, q, t, now))
  {
    hide Refresh, RunLapsed;
    var ready := BeforeClaim(s, q.worker, now);
    assert forall t :: t in s.tasks ==> ready.tasks[t] == Reap(s.tasks[t], now);
    assert WorkerLeases(ready.tasks, q.worker) == LeasesOf(s, q.worker, now);
    assert PoolLeases(ready.tasks, s.workers[q.worker].pool) == LeasesIn(s, s.workers[q.worker].pool, now);
  }

  // THEOREM (claims, exactly). An admitted worker gets nothing exactly if it or its pool is at its
  // limit of leases that have not lapsed, or nothing is grantable; otherwise it gets the grantable
  // task with the least number, as a new attempt, until the lease duration or the deadline.
  lemma {:induction false} ClaimExactly(c: Config, s: State, q: ClaimRequest, token: Token, now: Time)
    ensures var (s', reply) := Claim(c, s, q, token, now);
      && (reply == Forbidden <==> !Admitted(s, q)) && (reply == Forbidden ==> s' == s)
      && (Admitted(s, q) ==>
            && (reply == NoTask <==> AtLimit(c, s, q.worker, now) || forall t :: !Grantable(s, q, t, now))
            && s'.tasks.Keys == s.tasks.Keys
            && (forall t :: t in s.tasks && !(reply.Claimed? && t == reply.ref.task) ==>
                  if LapsedLease(s.tasks[t], now) then TakenBack(s.tasks[t], s'.tasks[t]) else s'.tasks[t] == s.tasks[t]))
      && (reply.Claimed? ==>
            var t := reply.ref.task;
            && Grantable(s, q, t, now) && (forall u :: Grantable(s, q, u, now) ==> t <= u)
            && reply.ref == LeaseRef(t, q.worker, q.boot, AttemptId(t, s.tasks[t].attempt + 1), token)
            && reply.deadline == s.tasks[t].deadline
            && reply.expires == (if now + c.leaseDuration <= reply.deadline then now + c.leaseDuration else reply.deadline)
            && s'.tasks[t].state == Leased && s'.tasks[t].attempt == s.tasks[t].attempt + 1
            && s'.tasks[t].holder == Some(Holder(q.worker, q.boot, reply.ref.attempt, token))
            && s'.tasks[t].expires == reply.expires
            && s'.workers[q.worker].currentLeases == |LeasesOf(s, q.worker, now)| + 1)
  {
    hide Claimable, WorkerLeases, PoolLeases, LeasesOf, LeasesIn, BeforeClaim;
    if ClaimAllowed(s, q) {
      BeforeClaimLeases(s, q, now);
      BeforeClaimWorkers(s, q, now);
    }
  }

  lemma {:induction false} BeforeClaimWorkers(s: State, q: ClaimRequest, now: Time)
    requires q.worker in s.workers
    ensures var ready := BeforeClaim(s, q.worker, now);
      ready.workers == s.workers[q.worker := s.workers[q.worker].(currentLeases := ready.workers[q.worker].currentLeases)]
  {
  }

  // ----- renewals

  // THEOREM (renewals, exactly). A lease that is held is extended to the lease duration from the
  // second clock reading, or to the deadline, unless the task is to be cancelled.
  lemma {:induction false} RenewExactly(c: Config, s: State, ref: LeaseRef, now: Time, later: Time)
    ensures var (s', reply) := Renew(c, s, ref, now, later);
      && (reply == Unavailable <==> !s.renewAvailable)
      && (reply == LeaseConflict <==> s.renewAvailable && !Held(s, ref, now))
      && (reply.RenewedCancelled? <==> s.renewAvailable && Held(s, ref, now) && s.tasks[ref.task].cancelRequested)
      && (reply.RenewedCancelled? ==> reply.expires == s.tasks[ref.task].expires)
      && (!reply.Renewed? ==> s' == s)
      && (reply.Renewed? ==>
            var task := s.tasks[ref.task];
            && reply.expires == (if later + c.leaseDuration <= task.deadline then later + c.leaseDuration else task.deadline)
            && s' == s.(tasks := s.tasks[ref.task := task.(expires := reply.expires, state := Running)]))
  {
  }

  // ----- results

  // THEOREM (results, exactly). One well-formed chunk is stored for the current attempt, once; the
  // same again is a duplicate, and another in its place a conflict.
  lemma {:induction false} SubmitExactly(s: State, q: ResultRequest, now: Time)
    ensures var (s', reply) := SubmitResult(s, q, now); var key := ResultKey(q.ref.task, q.ref.attempt);
      && (reply == BadResult <==>
            q.chunkNumber != 0 || q.chunkCount != 1 || q.length < 1 || q.length > 1048576 || !q.checksumMatches)
      && (reply == ResultLeaseConflict <==> reply != BadResult && !Held(s, q.ref, now))
      && (reply == TaskCancelled <==> reply != BadResult && Held(s, q.ref, now) && s.tasks[q.ref.task].cancelRequested)
      && (reply == Duplicate ==> key in s.results && s.results[key].observation == Some(q.observation))
      && (reply == IdempotencyConflict ==> key in s.results && s.results[key].observation != Some(q.observation))
      && (reply == Accepted <==>
            reply != BadResult && Held(s, q.ref, now) && !s.tasks[q.ref.task].cancelRequested && key !in s.results)
      && (reply != Accepted ==> s' == s)
      && (reply == Accepted ==>
            && s'.results == s.results[key := Stored(Some(q.observation), None, Ready, false)]
            && s'.tasks == s.tasks[q.ref.task := s.tasks[q.ref.task].(state := ResultsReceived, chunkCount := 1)]
            && s' == s.(results := s'.results, tasks := s'.tasks))
  {
  }

  // ----- run states

  // The state of a run after its tasks were counted.
  predicate Counted(before: RunState, after: RunState, ids: seq<TaskId>, tasks: map<TaskId, Task>) {
    if exists t :: t in ids && t in tasks && tasks[t].state != Complete && tasks[t].state != Failed && tasks[t].state != Cancelled then
      after == if before == RunCancelling then RunCancelling else RunRunning
    else if exists t :: t in ids && t in tasks && tasks[t].state == Failed then after == RunFailed
    else if exists t :: t in ids && t in tasks && tasks[t].state == Cancelled then after == RunCancelled
    else after == RunComplete
  }

  lemma {:induction false} RefreshCounts(run: Run, tasks: map<TaskId, Task>)
    ensures Counted(run.state, Refresh(run, tasks).state, run.taskIDs, tasks)
    ensures Refresh(run, tasks) == run.(state := Refresh(run, tasks).state)
  {
  }

  // ----- completion

  // An operation inserts exactly the keys that are new, each once.
  lemma {:induction false} OpsExactly(keys: seq<string>, known: set<string>)
    ensures var (ops, after) := ApplyKeys(keys, known);
      && |ops| == |keys| && (forall k :: k in after <==> k in known || k in keys)
      && forall i :: 0 <= i < |keys| ==> (ops[i] == INSERT <==> keys[i] !in known && keys[i] !in keys[..i])
  {
    if keys != [] {
      OpsExactly(keys[1..], known + {keys[0]});
      var (ops, after) := ApplyKeys(keys, known);
      forall i | 1 <= i < |keys| ensures ops[i] == INSERT <==> keys[i] !in known && keys[i] !in keys[..i] {
        assert keys[..i] == [keys[0]] + keys[1..][..i - 1];
      }
    }
  }

  // THEOREM (failures, exactly). A worker's failure ends the task it holds: cancelled if that was
  // requested or is what it reports, else failed with its code.
  lemma {:induction false} FailureExactly(s: State, q: CompleteRequest, now: Time)
    requires !q.success
    ensures var (s', reply) := CompleteTask(s, q, now);
      && (reply == CompleteLeaseConflict <==> !Held(s, q.ref, now))
      && (reply == BadFailure <==>
            Held(s, q.ref, now) && (q.failure.None? || q.failure.value.code == "" || q.failure.value.messageLength > 4096))
      && (reply == CompleteLeaseConflict || reply == BadFailure ==> s' == s)
      && (reply != CompleteLeaseConflict && reply != BadFailure ==>
            var task, code := s.tasks[q.ref.task], q.failure.value.code;
            && reply == Completed(if task.cancelRequested || code == "cancelled" then Cancelled else Failed)
            && s'.tasks == s.tasks[q.ref.task := task.(
                 state := reply.task, error := if reply.task == Cancelled then "cancelled" else code, cancelRequested := false)]
            && s'.deliveries == s.deliveries && s'.results == s.results && s'.items == s.items && s'.relations == s.relations
            && RunsCounted(s, s', task.run))
  {
    hide Refresh, Counted;
    if q.ref.task in s.tasks && s.tasks[q.ref.task].run in s.runs {
      RefreshCounts(s.runs[s.tasks[q.ref.task].run], CompleteTask(s, q, now).0.tasks);
    }
  }

  // Only that run changed, and its state is counted from its tasks.
  predicate RunsCounted(s: State, s': State, r: RunId) {
    && s'.runs.Keys == s.runs.Keys && (forall u :: u in s.runs && u != r ==> s'.runs[u] == s.runs[u])
    && (r in s.runs ==> Counted(s.runs[r].state, s'.runs[r].state, s.runs[r].taskIDs, s'.tasks))
  }

  // Whether a remote task's observation only reports that there was nothing to collect.
  predicate Excused(task: Task, id: TaskId, o: Observation) {
    && (task.operation == SSHLinuxV1 || task.operation == WinRMWindowsV1) && o.noData.Some?
    && o.noData.value.plugin == task.operation && o.noData.value.job == id && o.noData.value.errors >= 1
  }

  // What delivering an observation does: it ends the task, marks the result as processed now, and
  // records one delivery; a mapped observation inserts what is new and adds to the run's counts,
  // an excused one adds its errors, and any other fails the task and names that in the run.
  predicate Delivers(s: State, s': State, ref: LeaseRef, o: Observation, now: Time)
    requires ref.task in s.tasks
  {
    var task := s.tasks[ref.task];
    if Excused(task, ref.task, o) then
      && Ends(s, s', ref, now, Complete, task.error) && s'.items == s.items && s'.relations == s.relations
      && Adds(s, s', task.run, 0, 0, o.noData.value.errors, None)
      && s'.deliveries == s.deliveries + [Delivery(task.run, ref.task, ref.attempt, false, false, true, [], [])]
    else if o.mapped.None? then
      && Ends(s, s', ref, now, Failed, "ire_preflight_failed") && s'.items == s.items && s'.relations == s.relations
      && Adds(s, s', task.run, 0, 0, 0, Some("ire_preflight_failed"))
      && s'.deliveries == s.deliveries + [Delivery(task.run, ref.task, ref.attempt, true, false, false, [], [])]
    else
      var items, relations := o.mapped.value.items, o.mapped.value.relations;
      && Ends(s, s', ref, now, Complete, task.error)
      && s'.items == ApplyKeys(items, s.items).1 && s'.relations == ApplyKeys(relations, s.relations).1
      && Adds(s, s', task.run, |items|, |relations|, 0, None)
      && s'.deliveries == s.deliveries + [Delivery(
           task.run, ref.task, ref.attempt, true, true, false, ApplyKeys(items, s.items).0, ApplyKeys(relations, s.relations).0)]
  }

  // Finishing after the run's counters and the stored keys were changed.
  lemma {:induction false} FinishEnds(s: State, s1: State, ref: LeaseRef, outcome: TaskState, error: string, delivery: Delivery, now: Time,
      assets: nat, relationships: nat, errors: nat, runError: Option<string>)
    requires ref.task in s.tasks && ResultKey(ref.task, ref.attempt) in s.results
    requires s1 == s.(runs := s1.runs, items := s1.items, relations := s1.relations)
    requires var r := s.tasks[ref.task].run; s1.runs == if r !in s.runs then s.runs else
      var run := s.runs[r];
      s.runs[r := run.(assets := run.assets + assets, relationships := run.relationships + relationships,
        collectionErrors := run.collectionErrors + errors, error := if runError.Some? then runError.value else run.error)]
    ensures var s' := Finish(s1, ref, outcome, error, delivery, now);
      && Ends(s, s', ref, now, outcome, error) && Adds(s, s', s.tasks[ref.task].run, assets, relationships, errors, runError)
      && s'.items == s1.items && s'.relations == s1.relations && s'.deliveries == s.deliveries + [delivery]
  {
    hide Refresh, Counted;
    var s' := Finish(s1, ref, outcome, error, delivery, now);
    var r := s.tasks[ref.task].run;
    if r in s.runs { RefreshCounts(s1.runs[r], s'.tasks); }
  }

  lemma {:induction false} DeliverExactly(s: State, ref: LeaseRef, o: Observation, now: Time)
    requires ref.task in s.tasks && ResultKey(ref.task, ref.attempt) in s.results
    ensures var (s', reply) := Deliver(s, ref, o, now);
      && Delivers(s, s', ref, o, now)
      && reply == if Excused(s.tasks[ref.task], ref.task, o) || o.mapped.Some? then Completed(Complete) else Rejected
  {
    hide Finish, Ends, Adds, ApplyKeys;
    var task := s.tasks[ref.task];
    ExcusedExactly(task, ref.task, o);
    if Excused(task, ref.task, o) {
      var d := Delivery(task.run, ref.task, ref.attempt, false, false, true, [], []);
      FinishEnds(s, AddToRun(s, task.run, 0, 0, o.noData.value.errors), ref, Complete, task.error, d, now, 0, 0, o.noData.value.errors, None);
    } else if o.mapped.None? {
      var d := Delivery(task.run, ref.task, ref.attempt, true, false, false, [], []);
      FinishEnds(s, SetRunError(s, task.run, "ire_preflight_failed"), ref, Failed, "ire_preflight_failed", d, now,
                 0, 0, 0, Some("ire_preflight_failed"));
    } else {
      var items, relations := o.mapped.value.items, o.mapped.value.relations;
      var (itemOps, newItems) := ApplyKeys(items, s.items);
      var (relationOps, newRelations) := ApplyKeys(relations, s.relations);
      var d := Delivery(task.run, ref.task, ref.attempt, true, true, false, itemOps, relationOps);
      FinishEnds(s, AddToRun(s.(items := newItems, relations := newRelations), task.run, |items|, |relations|, 0),
                 ref, Complete, task.error, d, now, |items|, |relations|, 0, None);
    }
  }

  lemma {:induction false} ExcusedExactly(task: Task, id: TaskId, o: Observation)
    ensures ReportsNoData(task, id, o) <==> Excused(task, id, o)
  {
  }

  // THEOREM (successes, exactly). A completion with success is taken up exactly if the task waits
  // for it and is not to be cancelled; then the stored observation is delivered.
  lemma {:induction false} SuccessExactly(s: State, q: CompleteRequest, now: Time)
    requires q.success
    ensures var (s', reply) := CompleteTask(s, q, now); var key := ResultKey(q.ref.task, q.ref.attempt);
      && (reply == CompleteLeaseConflict <==> !Held(s, q.ref, now))
      && (reply == ChunksIncomplete <==> Held(s, q.ref, now) && (q.chunkCount != 1 || s.tasks[q.ref.task].state != ResultsReceived))
      && (reply == CompleteCancelled <==>
            Held(s, q.ref, now) && reply != ChunksIncomplete && s.tasks[q.ref.task].cancelRequested)
      && (reply == MissingResult <==>
            && Held(s, q.ref, now) && reply != ChunksIncomplete && reply != CompleteCancelled
            && (key !in s.results || s.results[key].observation.None?))
      && (reply != Completed(Complete) && reply != Rejected ==> s' == s)
      && (reply == Completed(Complete) || reply == Rejected ==>
            var o := s.results[key].observation.value;
            && Delivers(s, s', q.ref, o, now)
            && (reply == Rejected <==> !Excused(s.tasks[q.ref.task], q.ref.task, o) && o.mapped.None?))
  {
    hide Deliver, Delivers, Excused;
    var key := ResultKey(q.ref.task, q.ref.attempt);
    if q.ref.task in s.tasks && key in s.results && s.results[key].observation.Some? {
      DeliverExactly(s, q.ref, s.results[key].observation.value, now);
    }
  }

  // The task ends, its result is processed now with that outcome, and nothing else changes but runs,
  // stored keys and deliveries.
  predicate Ends(s: State, s': State, ref: LeaseRef, now: Time, outcome: TaskState, error: string) {
    var key := ResultKey(ref.task, ref.attempt);
    && ref.task in s.tasks && key in s.results
    && s'.tasks == s.tasks[ref.task := s.tasks[ref.task].(state := outcome, error := error)]
    && s'.results == s.results[key := s.results[key].(processedAt := Some(now), terminal := outcome)]
    && s'.workers == s.workers && s'.nextID == s.nextID && RunsCounted(s, s', s.tasks[ref.task].run)
  }

  // What the run's counters gain, and its error.
  predicate Adds(s: State, s': State, r: RunId, assets: nat, relationships: nat, errors: nat, error: Option<string>) {
    r in s.runs ==>
      && r in s'.runs
      && var run := s.runs[r];
         s'.runs[r] == run.(
           state := s'.runs[r].state, assets := run.assets + assets, relationships := run.relationships + relationships,
           collectionErrors := run.collectionErrors + errors, error := if error.Some? then error.value else run.error)
  }

  // ----- cancellation

  // What cancelling a run does to one of its tasks.
  function CancelledTask(task: Task): Task {
    match task.state
    case Ready => task.(state := Cancelled)
    case Leased => task.(cancelRequested := true)
    case Running => task.(cancelRequested := true)
    case ResultsReceived => task.(cancelRequested := true)
    case _ => task
  }

  // THEOREM (cancellation, exactly). A run that is not over is cancelled: its ready tasks at once,
  // its leased ones by request; it waits for the latter.
  lemma {:induction false} CancelExactly(s: State, r: RunId)
    ensures var (s', done) := CancelRun(s, r);
      && (done <==> r in s.runs && s.runs[r].state != RunComplete && s.runs[r].state != RunFailed && s.runs[r].state != RunCancelled)
      && (!done ==> s' == s)
      && (done ==>
            && s'.tasks.Keys == s.tasks.Keys && s' == s.(tasks := s'.tasks, runs := s'.runs)
            && (forall t :: t in s.tasks ==>
                  s'.tasks[t] == if t in s.runs[r].taskIDs then CancelledTask(s.tasks[t]) else s.tasks[t])
            && ((exists t :: LeasedOf(s, r, t)) ==> s'.runs == s.runs[r := s.runs[r].(state := RunCancelling)])
            && ((forall t :: !LeasedOf(s, r, t)) ==> s'.runs == s.runs[r := s.runs[r].(state := RunCancelled)]))
  {
    forall task ensures CancelTask(task) == CancelledTask(task) {}
    hide CancelTask, CancelledTask;
    if r in s.runs {
      var ids := s.runs[r].taskIDs;
      if SomeTask(ids, s.tasks, Active) {
        var t :| t in ids && t in s.tasks && Active(s.tasks[t].state);
        assert LeasedOf(s, r, t);
      }
    }
  }

  predicate LeasedOf(s: State, r: RunId, t: TaskId)
    requires r in s.runs
  {
    && t in s.runs[r].taskIDs && t in s.tasks
    && (s.tasks[t].state == Leased || s.tasks[t].state == Running || s.tasks[t].state == ResultsReceived)
  }

  // ----- registration and creation

  // THEOREM (registration, exactly). A worker with a boot, a pool and a site, one to three operations
  // in their order, and room for 1 to 32 leases, by default 1, gets the next number.
  lemma {:induction false} RegisterExactly(s: State, boot: string, pool: string, site: string, capabilities: seq<Operation>, room: int)
    ensures var (s', id) := Register(s, boot, pool, site, capabilities, room);
      && (id.Some? <==>
            && boot != "" && pool != "" && site != "" && 0 <= room <= 32
            && (capabilities == [LocalV1] || capabilities == [SSHLinuxV1] || capabilities == [WinRMWindowsV1]
                || capabilities == [LocalV1, SSHLinuxV1] || capabilities == [LocalV1, WinRMWindowsV1]
                || capabilities == [SSHLinuxV1, WinRMWindowsV1] || capabilities == [LocalV1, SSHLinuxV1, WinRMWindowsV1]))
      && (id.None? ==> s' == s)
      && (id.Some? ==>
            && id.value == s.nextID + 1
            && s' == s.(nextID := id.value,
                        workers := s.workers[id.value := Worker(boot, pool, capabilities, if room == 0 then 1 else room, 0)]))
  {
    CapabilitiesExactly(capabilities);
  }

  lemma {:induction false} AnyOperation(o: Operation)
    ensures o == LocalV1 || o == SSHLinuxV1 || o == WinRMWindowsV1
  {
  }

  lemma {:induction false} CapabilitiesExactly(values: seq<Operation>)
    ensures ValidCapabilities(values) <==>
      || values == [LocalV1] || values == [SSHLinuxV1] || values == [WinRMWindowsV1]
      || values == [LocalV1, SSHLinuxV1] || values == [LocalV1, WinRMWindowsV1]
      || values == [SSHLinuxV1, WinRMWindowsV1] || values == [LocalV1, SSHLinuxV1, WinRMWindowsV1]
  {
    if ValidCapabilities(values) {
      if |values| == 1 {
        assert values == [values[0]];
        AnyOperation(values[0]);
      } else if |values| == 2 {
        assert values == [values[0], values[1]] && Rank(values[0]) < Rank(values[1]);
        AnyOperation(values[0]);
        AnyOperation(values[1]);
      } else {
        assert values == [values[0], values[1], values[2]] && Rank(values[0]) < Rank(values[1]) < Rank(values[2]);
        AnyOperation(values[0]);
        AnyOperation(values[1]);
        AnyOperation(values[2]);
      }
    }
  }

  // THEOREM (creation, exactly). A run of 1 to 100000 partitions gets the next number and its tasks
  // the following ones; each is ready, without attempt, and due ten minutes later.
  lemma {:induction false} CreateExactly(s: State, pool: string, operation: Operation, partitions: nat, now: Time)
    requires forall t :: t in s.tasks ==> t <= s.nextID
    ensures var (s', id) := CreateRun(s, pool, operation, partitions, now);
      && (id.Some? <==> 1 <= partitions <= 100000) && (id.None? ==> s' == s)
      && (id.Some? ==>
            && id.value == s.nextID + 1 && s' == s.(runs := s'.runs, tasks := s'.tasks, nextID := id.value + partitions)
            && id.value in s'.runs && |s'.runs[id.value].taskIDs| == partitions
            && s'.runs == s.runs[id.value := Run(RunReady, s'.runs[id.value].taskIDs, 0, 0, 0, 0, "")]
            && (forall i :: 0 <= i < partitions ==> s'.runs[id.value].taskIDs[i] == id.value + 1 + i)
            && (forall t :: t in s'.tasks <==> t in s.tasks || id.value < t <= id.value + partitions)
            && (forall t :: t in s.tasks ==> s'.tasks[t] == s.tasks[t])
            && (forall t :: id.value < t <= id.value + partitions ==>
                  s'.tasks[t] == Task(id.value, pool, operation, Ready, 0, None, 0, now + 600000000000, 0, false, "")))
  {
    if 1 <= partitions <= 100000 {
      var r := s.nextID + 1;
      var ids := seq(partitions, i requires 0 <= i < partitions => r + 1 + i);
      forall t | r < t <= r + partitions ensures t in ids {
        assert ids[t - r - 1] == t;
      }
    }
  }

  // ----- retention

  // A processed result that is not yet deleted and has outlived its kind.
  predicate Outlived(c: Config, r: Stored, now: Time) {
    && !r.deleted && r.processedAt.Some?
    && (r.terminal == Complete ==> r.processedAt.value + c.successTTL <= now)
    && (r.terminal != Complete ==> r.processedAt.value + c.failureTTL <= now)
  }

  // THEOREM (retention, exactly). A cleanup deletes the payload of the chosen results that have
  // outlived their kind, and touches nothing else.
  lemma {:induction false} CleanupExactly(c: Config, s: State, chosen: set<ResultKey>, now: Time)
    ensures var s' := Cleanup(c, s, chosen, now);
      && s' == s.(results := s'.results) && s'.results.Keys == s.results.Keys
      && forall k :: k in s.results ==>
           s'.results[k] == if k in chosen && Outlived(c, s.results[k], now) then s.results[k].(observation := None, deleted := true)
                            else s.results[k]
    ensures forall r: Stored :: Expired(c, r, now) <==> Outlived(c, r, now)
  {
  }
}
