// What every handler of the control plane keeps true.
module LeaseInvariant {
  import opened Wrappers
  import opened Sorting
  import opened ControlPlane

  // ----- the invariant

  ghost predicate Shape(s: State) {
    && (forall r, t :: r in s.runs && t in s.runs[r].taskIDs ==> t in s.tasks && s.tasks[t].run == r)
    && (forall t :: t in s.tasks ==> s.tasks[t].run in s.runs && t in s.runs[s.tasks[t].run].taskIDs)
    && (forall r :: r in s.runs ==> s.runs[r].taskIDs != [])
  }

  ghost predicate Unique(s: State) {
    && (forall r :: r in s.runs ==> NoDuplicates(s.runs[r].taskIDs))
    && (forall r :: r in s.runs ==> r <= s.nextID)
    && (forall t :: t in s.tasks ==> t <= s.nextID)
  }

  ghost predicate TaskOK(t: TaskId, task: Task) {
    && (Active(task.state) ==> task.attempt >= 1 && task.holder.Some? && task.holder.value.attempt == AttemptId(t, task.attempt))
    && (task.state == Ready ==> task.holder.None?)
    && (task.cancelRequested ==> Active(task.state))
  }

  ghost predicate TasksOK(s: State) {
    forall t :: t in s.tasks ==> TaskOK(t, s.tasks[t])
  }

  // A run is final exactly when its tasks are; while it is cancelling, and only then, its
  // unfinished tasks are leased with cancel requested.
  ghost predicate RunOK(run: Run, tasks: map<TaskId, Task>) {
    && (RunFinal(run.state) <==> forall t :: t in run.taskIDs && t in tasks ==> Final(tasks[t].state))
    && (run.state == RunCancelling ==>
          forall t :: t in run.taskIDs && t in tasks && !Final(tasks[t].state) ==> Active(tasks[t].state) && tasks[t].cancelRequested)
    && (run.state != RunCancelling ==> forall t :: t in run.taskIDs && t in tasks ==> !tasks[t].cancelRequested)
    && (run.state == RunComplete ==> forall t :: t in run.taskIDs && t in tasks ==> tasks[t].state == Complete)
  }

  ghost predicate RunsOK(s: State) {
    forall r :: r in s.runs ==> RunOK(s.runs[r], s.tasks)
  }

  // Accepted results wait unprocessed for the current attempt; processed ones belong to final tasks.
  ghost predicate ResultsOK(s: State) {
    && (forall t :: t in s.tasks && s.tasks[t].state == ResultsReceived ==>
          && var key := ResultKey(t, AttemptId(t, s.tasks[t].attempt));
             key in s.results && s.results[key].processedAt.None?)
    && (forall k :: k in s.results ==> k.task in s.tasks && k.attempt.task == k.task && k.attempt.number <= s.tasks[k.task].attempt)
    && (forall k :: k in s.results && s.results[k].processedAt.Some? ==> Final(s.tasks[k.task].state))
    && (forall k :: k in s.results && s.results[k].processedAt.None? ==> s.results[k].observation.Some? && !s.results[k].deleted)
  }

  ghost predicate Delivered(s: State, t: TaskId) {
    exists i :: 0 <= i < |s.deliveries| && s.deliveries[i].task == t
  }

  ghost predicate DeliveryOK(d: Delivery, tasks: map<TaskId, Task>) {
    && d.task in tasks && tasks[d.task].run == d.run
    && tasks[d.task].state == (if d.applied || d.noData then Complete else Failed)
  }

  ghost predicate DeliveriesOK(s: State) {
    && (forall i :: 0 <= i < |s.deliveries| ==> DeliveryOK(s.deliveries[i], s.tasks))
    && (forall i, j :: 0 <= i < j < |s.deliveries| ==> s.deliveries[i].task != s.deliveries[j].task)
    && (forall t :: t in s.tasks && s.tasks[t].state == Complete ==> Delivered(s, t))
  }

  function Inserts(ops: seq<Op>): nat {
    if ops == [] then 0 else (if ops[0] == INSERT then 1 else 0) + Inserts(ops[1..])
  }

  function ItemInserts(ds: seq<Delivery>): nat {
    if ds == [] then 0 else ItemInserts(ds[..|ds| - 1]) + Inserts(ds[|ds| - 1].itemOps)
  }

  function RelationInserts(ds: seq<Delivery>): nat {
    if ds == [] then 0 else RelationInserts(ds[..|ds| - 1]) + Inserts(ds[|ds| - 1].relationOps)
  }

  ghost predicate ConservationOK(s: State) {
    ItemInserts(s.deliveries) == |s.items| && RelationInserts(s.deliveries) == |s.relations|
  }

  function SumAttempts(ids: seq<TaskId>, tasks: map<TaskId, Task>): nat {
    if ids == [] then 0
    else (if ids[0] in tasks then tasks[ids[0]].attempt else 0) + SumAttempts(ids[1..], tasks)
  }

  ghost predicate AttemptsOK(s: State) {
    forall r :: r in s.runs ==> s.runs[r].attempts == SumAttempts(s.runs[r].taskIDs, s.tasks)
  }

  ghost predicate LimitsOK(c: Config, s: State) {
    && (forall w :: w in s.workers ==> |WorkerLeases(s.tasks, w)| <= s.workers[w].maxConcurrency)
    && (forall w :: w in s.workers ==> |PoolLeases(s.tasks, s.workers[w].pool)| <= c.poolMaxLeases)
    && (forall t :: t in s.tasks && Active(s.tasks[t].state) ==>
          && s.tasks[t].holder.Some? && s.tasks[t].holder.value.worker in s.workers
          && s.workers[s.tasks[t].holder.value.worker].pool == s.tasks[t].pool)
    && (forall w :: w in s.workers ==> w <= s.nextID)
  }

  ghost predicate Kept(s: State) {
    && Shape(s) && Unique(s) && TasksOK(s) && RunsOK(s) && ResultsOK(s) && DeliveriesOK(s) && ConservationOK(s) && AttemptsOK(s)
  }

  // A waiting task's last lease has ended; a live lease ends by the deadline and within one
  // lease duration of now.
  ghost predicate TimesOK(c: Config, s: State, now: Time) {
    forall t :: t in s.tasks ==>
      && (s.tasks[t].state == Ready ==> s.tasks[t].expires <= now)
      && (Active(s.tasks[t].state) ==> s.tasks[t].expires <= Min(now + c.leaseDuration, s.tasks[t].deadline))
  }

  // ----- how a task may change

  // Finished tasks never change; attempts only grow; within an attempt a lease only lengthens.
  ghost predicate TaskEvolves(a: Task, b: Task) {
    && b.run == a.run && b.pool == a.pool && b.deadline == a.deadline && b.operation == a.operation
    && (Final(a.state) ==> b == a)
    && a.attempt <= b.attempt
    && (a.attempt == b.attempt ==> a.expires <= b.expires && (b.holder.Some? ==> b.holder == a.holder))
  }

  ghost predicate Evolves(s: State, s': State) {
    && (forall t :: t in s.tasks ==> t in s'.tasks && TaskEvolves(s.tasks[t], s'.tasks[t]))
    && s.deliveries <= s'.deliveries
    && (forall r :: r in s.runs ==> r in s'.runs && s'.runs[r].taskIDs == s.runs[r].taskIDs)
  }

  lemma {:induction false} EvolvesTransitive(a: State, b: State, c: State)
    requires Evolves(a, b) && Evolves(b, c)
    ensures Evolves(a, c)
  {
    forall t | t in a.tasks ensures t in c.tasks && TaskEvolves(a.tasks[t], c.tasks[t]) {
      assert TaskEvolves(a.tasks[t], b.tasks[t]) && TaskEvolves(b.tasks[t], c.tasks[t]);
    }
  }

  // ----- frames

  // What a run sees of a task.
  ghost predicate SamePhase(a: Task, b: Task) {
    && (Final(a.state) <==> Final(b.state)) && (Active(a.state) <==> Active(b.state))
    && (a.state == Complete <==> b.state == Complete) && a.cancelRequested == b.cancelRequested
  }

  lemma {:induction false} RunOKFrame(run: Run, tasks: map<TaskId, Task>, tasks': map<TaskId, Task>)
    requires RunOK(run, tasks)
    requires forall t :: t in run.taskIDs ==> (t in tasks <==> t in tasks')
    requires forall t :: t in run.taskIDs && t in tasks ==> SamePhase(tasks[t], tasks'[t])
    ensures RunOK(run, tasks')
  {
  }

  lemma {:induction false} SumFrame(ids: seq<TaskId>, tasks: map<TaskId, Task>, tasks': map<TaskId, Task>)
    requires forall t :: t in ids ==> (t in tasks <==> t in tasks') && (t in tasks ==> tasks'[t].attempt == tasks[t].attempt)
    ensures SumAttempts(ids, tasks') == SumAttempts(ids, tasks)
  {
    if ids != [] { SumFrame(ids[1..], tasks, tasks'); }
  }

  lemma {:induction false} SumBump(ids: seq<TaskId>, tasks: map<TaskId, Task>, t: TaskId, task: Task)
    requires NoDuplicates(ids) && t in ids && t in tasks && task.attempt == tasks[t].attempt + 1
    ensures SumAttempts(ids, tasks[t := task]) == SumAttempts(ids, tasks) + 1
  {
    if ids[0] == t {
      assert t !in ids[1..];
      SumFrame(ids[1..], tasks, tasks[t := task]);
    } else {
      assert ids == [ids[0]] + ids[1..];
      SumBump(ids[1..], tasks, t, task);
    }
  }

  // Refreshing a run whose tasks are settled makes it agree with them.
  lemma {:induction false} RefreshOK(run: Run, tasks: map<TaskId, Task>)
    requires forall t :: t in run.taskIDs && t in tasks ==> TaskOK(t, tasks[t])
    requires run.state == RunCancelling ==>
      forall t :: t in run.taskIDs && t in tasks && !Final(tasks[t].state) ==> Active(tasks[t].state) && tasks[t].cancelRequested
    requires run.state != RunCancelling ==> forall t :: t in run.taskIDs && t in tasks ==> !tasks[t].cancelRequested
    ensures RunOK(Refresh(run, tasks), tasks)
  {
    var ids := run.taskIDs;
    assert SomeTask(ids, tasks, Unfinished) <==> exists t :: t in ids && t in tasks && !Final(tasks[t].state);
    if !SomeTask(ids, tasks, Unfinished) && !SomeTask(ids, tasks, IsFailed) && !SomeTask(ids, tasks, IsCancelled) {
      forall t | t in ids && t in tasks ensures tasks[t].state == Complete {
        assert !Unfinished(tasks[t].state) && !IsFailed(tasks[t].state) && !IsCancelled(tasks[t].state);
      }
    }
  }

  // ----- creating and registering

  lemma {:induction false} EmptyKept(c: Config, now: Time)
    ensures Kept(EMPTY) && LimitsOK(c, EMPTY) && TimesOK(c, EMPTY, now)
  {
  }

  lemma {:induction false} CreatedIDs(r: RunId, partitions: nat)
    ensures var ids := seq(partitions, i requires 0 <= i < partitions => r + 1 + i);
      NoDuplicates(ids) && (forall t :: t in ids <==> r < t <= r + partitions)
  {
    var ids := seq(partitions, i requires 0 <= i < partitions => r + 1 + i);
    forall t | r < t <= r + partitions ensures t in ids {
      assert ids[t - r - 1] == t;
    }
  }

  lemma {:induction false} SumZero(ids: seq<TaskId>, tasks: map<TaskId, Task>)
    requires forall t :: t in ids && t in tasks ==> tasks[t].attempt == 0
    ensures SumAttempts(ids, tasks) == 0
  {
    if ids != [] { SumZero(ids[1..], tasks); }
  }

  // What creating a run adds: run r with new waiting tasks.
  ghost predicate Created(s: State, s': State, r: RunId, run: Run) {
    && r !in s.runs && s'.runs == s.runs[r := run] && RunReady == run.state && run.attempts == 0
    && run.taskIDs != [] && NoDuplicates(run.taskIDs) && r <= s'.nextID
    && (forall t :: t in run.taskIDs ==> t !in s.tasks && t in s'.tasks && t <= s'.nextID)
    && (forall t :: t in s.tasks ==> t in s'.tasks && s'.tasks[t] == s.tasks[t])
    && (forall t :: t in s'.tasks && t !in s.tasks ==>
          && t in run.taskIDs && s'.tasks[t].run == r && s'.tasks[t].state == Ready && s'.tasks[t].attempt == 0
          && s'.tasks[t].holder == None && !s'.tasks[t].cancelRequested && s'.tasks[t].expires == 0)
    && s' == s.(runs := s'.runs, tasks := s'.tasks, nextID := s'.nextID) && s.nextID <= s'.nextID
  }

  lemma {:induction false} CreateRunCreates(s: State, pool: string, operation: Operation, partitions: nat, now: Time)
    requires Unique(s) && 1 <= partitions <= MAX_PARTITIONS
    ensures var s' := CreateRun(s, pool, operation, partitions, now).0;
      s.nextID + 1 in s'.runs && Created(s, s', s.nextID + 1, s'.runs[s.nextID + 1])
  {
    var r := s.nextID + 1;
    var ids := seq(partitions, i requires 0 <= i < partitions => r + 1 + i);
    CreatedIDs(r, partitions);
    assert |ids| == partitions;
  }

  lemma {:induction false} CreatedShape(s: State, s': State, r: RunId, run: Run)
    requires Shape(s) && Created(s, s', r, run)
    ensures Shape(s')
  {
    forall q, t | q in s'.runs && t in s'.runs[q].taskIDs ensures t in s'.tasks && s'.tasks[t].run == q {
      if q != r { assert t in s.tasks; }
    }
  }

  lemma {:induction false} CreatedUnique(s: State, s': State, r: RunId, run: Run)
    requires Unique(s) && Created(s, s', r, run)
    ensures Unique(s')
  {
  }

  lemma {:induction false} CreatedRunOK(s: State, s': State, r: RunId, run: Run)
    requires Created(s, s', r, run)
    ensures RunOK(run, s'.tasks)
  {
    assert run.taskIDs[0] in run.taskIDs;
    assert s'.tasks[run.taskIDs[0]].state == Ready;
  }

  lemma {:induction false} CreatedRuns(s: State, s': State, r: RunId, run: Run)
    requires Shape(s) && RunsOK(s) && Created(s, s', r, run)
    ensures RunsOK(s')
  {
    hide RunOK;
    forall q | q in s'.runs ensures RunOK(s'.runs[q], s'.tasks) {
      if q == r {
        CreatedRunOK(s, s', r, run);
      } else {
        assert forall t :: t in s.runs[q].taskIDs ==> t in s.tasks && s'.tasks[t] == s.tasks[t];
        RunOKFrame(s.runs[q], s.tasks, s'.tasks);
      }
    }
  }

  lemma {:induction false} CreatedAttempts(s: State, s': State, r: RunId, run: Run)
    requires Shape(s) && AttemptsOK(s) && Created(s, s', r, run)
    ensures AttemptsOK(s')
  {
    hide SumAttempts;
    forall q | q in s'.runs ensures s'.runs[q].attempts == SumAttempts(s'.runs[q].taskIDs, s'.tasks) {
      if q == r {
        SumZero(run.taskIDs, s'.tasks);
      } else {
        SumFrame(s.runs[q].taskIDs, s.tasks, s'.tasks);
      }
    }
  }

  lemma {:induction false} CreatedResults(s: State, s': State, r: RunId, run: Run)
    requires ResultsOK(s) && TasksOK(s) && Created(s, s', r, run)
    ensures ResultsOK(s') && TasksOK(s')
  {
  }

  lemma {:induction false} CreatedDeliveries(s: State, s': State, r: RunId, run: Run)
    requires DeliveriesOK(s) && Created(s, s', r, run)
    ensures DeliveriesOK(s')
  {
    forall t | t in s'.tasks && s'.tasks[t].state == Complete ensures Delivered(s', t) {
      assert Delivered(s, t);
    }
  }

  lemma {:induction false} CreateRunKept(s: State, pool: string, operation: Operation, partitions: nat, now: Time)
    requires Kept(s)
    ensures Kept(CreateRun(s, pool, operation, partitions, now).0)
  {
    if 1 <= partitions <= MAX_PARTITIONS {
      var s' := CreateRun(s, pool, operation, partitions, now).0;
      var r := s.nextID + 1;
      CreateRunCreates(s, pool, operation, partitions, now);
      CreatedKept(s, s', r, s'.runs[r]);
    }
  }

  lemma {:induction false} CreatedKept(s: State, s': State, r: RunId, run: Run)
    requires Kept(s) && Created(s, s', r, run)
    ensures Kept(s')
  {
    CreatedShape(s, s', r, run);
    CreatedUnique(s, s', r, run);
    CreatedRuns(s, s', r, run);
    CreatedAttempts(s, s', r, run);
    CreatedResults(s, s', r, run);
    CreatedDeliveries(s, s', r, run);
  }

  // ----- changing tasks and runs without moving them

  ghost predicate SameStructure(s: State, s': State) {
    && s'.tasks.Keys == s.tasks.Keys && s'.runs.Keys == s.runs.Keys && s'.nextID == s.nextID
    && (forall t :: t in s.tasks ==> s'.tasks[t].run == s.tasks[t].run)
    && (forall r :: r in s.runs ==> s'.runs[r].taskIDs == s.runs[r].taskIDs)
  }

  lemma {:induction false} SameShape(s: State, s': State)
    requires Shape(s) && Unique(s) && SameStructure(s, s')
    ensures Shape(s') && Unique(s')
  {
    hide NoDuplicates;
  }

  // ----- changing one task and its run

  ghost predicate OneTask(s: State, s': State, t: TaskId, b: Task) {
    && t in s.tasks && s'.tasks == s.tasks[t := b] && b.run == s.tasks[t].run
    && s'.runs.Keys == s.runs.Keys
    && (forall r :: r in s.runs ==> s'.runs[r].taskIDs == s.runs[r].taskIDs)
    && (forall r :: r in s.runs && r != b.run ==> s'.runs[r] == s.runs[r])
    && s'.nextID == s.nextID
  }

  lemma {:induction false} OneTaskShape(s: State, s': State, t: TaskId, b: Task)
    requires Shape(s) && Unique(s) && OneTask(s, s', t, b)
    ensures Shape(s') && Unique(s')
  {
    hide Shape, Unique;
    SameShape(s, s');
  }

  lemma {:induction false} OneTaskRuns(s: State, s': State, t: TaskId, b: Task)
    requires Shape(s) && RunsOK(s) && OneTask(s, s', t, b) && RunOK(s'.runs[b.run], s'.tasks)
    ensures RunsOK(s')
  {
    hide RunOK, Final, Active;
    forall q | q in s'.runs ensures RunOK(s'.runs[q], s'.tasks) {
      if q != b.run {
        assert t !in s.runs[q].taskIDs;
        RunOKFrame(s.runs[q], s.tasks, s'.tasks);
      }
    }
  }

  // A change that the run does not see.
  lemma {:induction false} OneTaskUnseen(s: State, s': State, t: TaskId, b: Task)
    requires Shape(s) && RunsOK(s) && OneTask(s, s', t, b) && s'.runs == s.runs && SamePhase(s.tasks[t], b)
    ensures RunsOK(s')
  {
    RunOKFrame(s.runs[b.run], s.tasks, s'.tasks);
    OneTaskRuns(s, s', t, b);
  }

  lemma {:induction false} OneTaskAttempts(s: State, s': State, t: TaskId, b: Task)
    requires Shape(s) && Unique(s) && AttemptsOK(s) && OneTask(s, s', t, b)
    requires s.tasks[t].attempt <= b.attempt <= s.tasks[t].attempt + 1
    requires s'.runs[b.run].attempts == s.runs[b.run].attempts + b.attempt - s.tasks[t].attempt
    ensures AttemptsOK(s')
  {
    forall q | q in s'.runs ensures s'.runs[q].attempts == SumAttempts(s'.runs[q].taskIDs, s'.tasks) {
      if q != b.run || b.attempt == s.tasks[t].attempt {
        SumFrame(s.runs[q].taskIDs, s.tasks, s'.tasks);
      } else {
        SumBump(s.runs[q].taskIDs, s.tasks, t, b);
      }
    }
  }

  // Tasks that were not final lose no delivery, and nothing completes.
  lemma {:induction false} OneTaskDeliveries(s: State, s': State, t: TaskId, b: Task)
    requires DeliveriesOK(s) && OneTask(s, s', t, b) && s'.deliveries == s.deliveries
    requires !Final(s.tasks[t].state) && b.state != Complete
    ensures DeliveriesOK(s')
  {
    forall u | u in s'.tasks && s'.tasks[u].state == Complete ensures Delivered(s', u) {
      assert Delivered(s, u);
    }
  }

  lemma {:induction false} OneTaskResults(s: State, s': State, t: TaskId, b: Task)
    requires ResultsOK(s) && OneTask(s, s', t, b) && s'.results == s.results
    requires !Final(s.tasks[t].state) && b.state != ResultsReceived && b.attempt >= s.tasks[t].attempt
    ensures ResultsOK(s')
  {
  }

  // ----- leasing

  lemma {:induction false} RunKnown(s: State, t: TaskId)
    requires Shape(s) && t in s.tasks
    ensures s.tasks[t].run in s.runs && t in s.runs[s.tasks[t].run].taskIDs
  {
  }

  lemma {:induction false} GrantKept(c: Config, s: State, w: WorkerId, t: TaskId, token: Token, now: Time)
    requires Kept(s) && w in s.workers && t in s.tasks && s.tasks[t].state == Ready
    ensures Kept(Grant(c, s, w, t, token, now).0)
  {
    hide Shape, Unique, RunsOK, RunOK, ResultsOK, DeliveriesOK, AttemptsOK;
    var s' := Grant(c, s, w, t, token, now).0;
    var b := s'.tasks[t];
    assert b.run in s.runs by { RunKnown(s, t); }
    assert OneTask(s, s', t, b);
    OneTaskShape(s, s', t, b);
    OneTaskAttempts(s, s', t, b);
    OneTaskDeliveries(s, s', t, b);
    OneTaskResults(s, s', t, b);
    GrantRun(s, s', t, b);
    OneTaskRuns(s, s', t, b);
  }

  // A run with a waiting task is neither final nor cancelling.
  lemma {:induction false} GrantRunOK(run: Run, tasks: map<TaskId, Task>, t: TaskId, b: Task, run': Run)
    requires RunOK(run, tasks) && t in run.taskIDs && t in tasks && tasks[t].state == Ready
    requires run'.state == RunRunning && run'.taskIDs == run.taskIDs
    requires b.state == Leased && b.cancelRequested == tasks[t].cancelRequested
    ensures run.state == RunReady || run.state == RunRunning
    ensures RunOK(run', tasks[t := b])
  {
  }

  lemma {:induction false} GrantRun(s: State, s': State, t: TaskId, b: Task)
    requires Shape(s) && RunsOK(s) && OneTask(s, s', t, b) && s.tasks[t].state == Ready
    requires s'.runs[b.run].state == RunRunning && b.state == Leased && b.cancelRequested == s.tasks[t].cancelRequested
    ensures s.runs[b.run].state == RunReady || s.runs[b.run].state == RunRunning
    ensures RunOK(s'.runs[b.run], s'.tasks)
  {
    hide RunOK;
    assert RunOK(s.runs[b.run], s.tasks);
    GrantRunOK(s.runs[b.run], s.tasks, t, b, s'.runs[b.run]);
  }

  lemma {:induction false} RenewKept(c: Config, s: State, ref: LeaseRef, now: Time, later: Time)
    requires Kept(s)
    ensures Kept(Renew(c, s, ref, now, later).0)
  {
    hide Shape, Unique, RunsOK, RunOK, ResultsOK, DeliveriesOK, AttemptsOK;
    var (s', reply) := Renew(c, s, ref, now, later);
    if reply.Renewed? {
      var b := s'.tasks[ref.task];
      assert OneTask(s, s', ref.task, b);
      OneTaskShape(s, s', ref.task, b);
      OneTaskAttempts(s, s', ref.task, b);
      OneTaskDeliveries(s, s', ref.task, b);
      OneTaskResults(s, s', ref.task, b);
      OneTaskUnseen(s, s', ref.task, b);
    }
  }

  lemma {:induction false} SubmitKept(s: State, q: ResultRequest, now: Time)
    requires Kept(s)
    ensures Kept(SubmitResult(s, q, now).0)
  {
    hide Shape, Unique, RunsOK, RunOK, ResultsOK, DeliveriesOK, AttemptsOK;
    var (s', reply) := SubmitResult(s, q, now);
    if reply.Accepted? {
      var t, b := q.ref.task, s'.tasks[q.ref.task];
      assert OneTask(s, s', t, b);
      OneTaskShape(s, s', t, b);
      OneTaskAttempts(s, s', t, b);
      OneTaskDeliveries(s, s', t, b);
      OneTaskUnseen(s, s', t, b);
      SubmitResults(s, q, now);
    }
  }

  lemma {:induction false} SubmitResults(s: State, q: ResultRequest, now: Time)
    requires ResultsOK(s) && TasksOK(s) && SubmitResult(s, q, now).1.Accepted?
    ensures ResultsOK(SubmitResult(s, q, now).0)
  {
    assert TaskOK(q.ref.task, s.tasks[q.ref.task]);
    NewResult(s, q.ref.task, s.tasks[q.ref.task].(state := ResultsReceived, chunkCount := 1), Some(q.observation));
  }

  lemma {:induction false} NewResult(s: State, t: TaskId, b: Task, o: Option<Observation>)
    requires ResultsOK(s) && t in s.tasks && b.attempt == s.tasks[t].attempt && !Final(s.tasks[t].state) && o.Some?
    ensures ResultsOK(s.(tasks := s.tasks[t := b],
                         results := s.results[ResultKey(t, AttemptId(t, b.attempt)) := Stored(o, None, Ready, false)]))
  {
  }

  // ----- finishing

  // Refreshing the run of a task that has just finished.
  lemma {:induction false} FinishRefresh(run: Run, tasks: map<TaskId, Task>, t: TaskId, b: Task)
    requires RunOK(run, tasks) && t in tasks && t in run.taskIDs && TaskOK(t, b) && Final(b.state)
    requires forall u :: u in run.taskIDs && u in tasks ==> TaskOK(u, tasks[u])
    ensures RunOK(Refresh(run, tasks[t := b]), tasks[t := b])
  {
    RefreshOK(run, tasks[t := b]);
  }

  lemma {:induction false} FinishRun(s: State, s': State, t: TaskId, b: Task)
    requires Shape(s) && TasksOK(s) && RunsOK(s) && OneTask(s, s', t, b)
    requires Final(b.state) && !b.cancelRequested
    requires s'.runs[b.run].state == RefreshedState(s.runs[b.run], s'.tasks)
    ensures RunsOK(s')
  {
    hide RunOK, RefreshedState;
    FinishRefresh(s.runs[b.run], s.tasks, t, b);
    SameRunOK(Refresh(s.runs[b.run], s'.tasks), s'.runs[b.run], s'.tasks);
    OneTaskRuns(s, s', t, b);
  }

  lemma {:induction false} SameRunOK(run: Run, run': Run, tasks: map<TaskId, Task>)
    requires RunOK(run, tasks) && run'.state == run.state && run'.taskIDs == run.taskIDs
    ensures RunOK(run', tasks)
  {
  }

  lemma {:induction false} CompleteFailureKept(s: State, q: CompleteRequest)
    requires Kept(s) && q.ref.task in s.tasks && Active(s.tasks[q.ref.task].state)
    ensures Kept(CompleteFailure(s, q).0)
  {
    hide Shape, Unique, RunsOK, RunOK, ResultsOK, DeliveriesOK, AttemptsOK, TasksOK, RefreshedState;
    var (s', reply) := CompleteFailure(s, q);
    if reply.Completed? {
      var t := q.ref.task;
      FailureOneTask(s, q);
      var b := s'.tasks[t];
      OneTaskTasks(s, s', t, b);
      OneTaskShape(s, s', t, b);
      OneTaskAttempts(s, s', t, b);
      OneTaskDeliveries(s, s', t, b);
      OneTaskResults(s, s', t, b);
      FinishRun(s, s', t, b);
    }
  }

  lemma {:induction false} OneTaskTasks(s: State, s': State, t: TaskId, b: Task)
    requires TasksOK(s) && OneTask(s, s', t, b) && TaskOK(t, b)
    ensures TasksOK(s')
  {
  }

  lemma {:induction false} FailureOneTask(s: State, q: CompleteRequest)
    requires Shape(s) && q.ref.task in s.tasks && CompleteFailure(s, q).1.Completed?
    ensures var s' := CompleteFailure(s, q).0;
      && q.ref.task in s'.tasks && OneTask(s, s', q.ref.task, s'.tasks[q.ref.task])
      && s.tasks[q.ref.task].run in s'.runs
      && s'.runs[s.tasks[q.ref.task].run].state == RefreshedState(s.runs[s.tasks[q.ref.task].run], s'.tasks)
  {
    hide RefreshedState;
  }

  // ----- delivering

  // Applying a payload inserts each key once, and counts what it inserted.
  lemma {:induction false} ApplyKeysCounts(keys: seq<string>, known: set<string>)
    ensures var (ops, after) := ApplyKeys(keys, known);
      && |ops| == |keys|
      && after == known + (set k | k in keys)
      && |after| == |known| + Inserts(ops)
  {
    if keys != [] {
      ApplyKeysCounts(keys[1..], known + {keys[0]});
      assert keys == [keys[0]] + keys[1..];
      var (ops, after) := ApplyKeys(keys[1..], known + {keys[0]});
      var first := if keys[0] in known then NO_CHANGE else INSERT;
      assert ([first] + ops)[1..] == ops;
      if keys[0] in known { assert known + {keys[0]} == known; }
    }
  }

  // The effect of an accepted completion: the task is final, its run is refreshed, its result
  // is processed, and one delivery records it.
  ghost predicate Finishes(s: State, s': State, ref: LeaseRef, outcome: TaskState, d: Delivery, now: Time) {
    && TaskFinished(s, s', ref.task, outcome)
    && ResultProcessed(s, s', ResultKey(ref.task, ref.attempt), now)
    && s'.deliveries == s.deliveries + [d]
    && d.task == ref.task && d.run == s.tasks[ref.task].run && d.attempt == ref.attempt
    && outcome == (if d.applied || d.noData then Complete else Failed)
    && |s'.items| == |s.items| + Inserts(d.itemOps) && |s'.relations| == |s.relations| + Inserts(d.relationOps)
    && s.items <= s'.items && s.relations <= s'.relations && s'.workers == s.workers
  }

  ghost predicate TaskFinished(s: State, s': State, t: TaskId, outcome: TaskState) {
    && t in s.tasks && t in s'.tasks && OneTask(s, s', t, s'.tasks[t])
    && s'.tasks[t].state == outcome && s'.tasks[t].attempt == s.tasks[t].attempt
    && s'.tasks[t].cancelRequested == s.tasks[t].cancelRequested && s'.tasks[t].holder == s.tasks[t].holder
    && s'.tasks[t] == s.tasks[t].(state := outcome, error := s'.tasks[t].error)
    && s.tasks[t].run in s'.runs
    && s'.runs[s.tasks[t].run].state == RefreshedState(s.runs[s.tasks[t].run], s'.tasks)
    && s'.runs[s.tasks[t].run].attempts == s.runs[s.tasks[t].run].attempts
  }

  ghost predicate ResultProcessed(s: State, s': State, key: ResultKey, now: Time) {
    && key in s.results && s'.results.Keys == s.results.Keys && s'.results[key].processedAt == Some(now)
    && (forall k :: k in s.results && k != key ==> s'.results[k] == s.results[k])
  }

  // Charging a run does not disturb it.
  lemma {:induction false} RefreshCharged(s: State, t: State, r: RunId, tasks: map<TaskId, Task>)
    requires r in s.runs && r in t.runs && t.runs[r].state == s.runs[r].state && t.runs[r].taskIDs == s.runs[r].taskIDs
    ensures RefreshedState(t.runs[r], tasks) == RefreshedState(s.runs[r], tasks)
  {
  }

  ghost predicate SameProgress(a: Run, b: Run) {
    b.state == a.state && b.taskIDs == a.taskIDs && b.attempts == a.attempts
  }

  lemma {:induction false} FinishFinishes(s: State, charged: State, ref: LeaseRef, outcome: TaskState, error: string, d: Delivery, now: Time)
    requires ref.task in s.tasks && s.tasks[ref.task].run in s.runs && ResultKey(ref.task, ref.attempt) in s.results
    requires charged.tasks == s.tasks && charged.results == s.results && charged.deliveries == s.deliveries
    requires charged.nextID == s.nextID && charged.workers == s.workers && charged.runs.Keys == s.runs.Keys
    requires forall r :: r in s.runs && r != s.tasks[ref.task].run ==> charged.runs[r] == s.runs[r]
    requires forall r :: r in s.runs ==> SameProgress(s.runs[r], charged.runs[r])
    requires |charged.items| == |s.items| + Inserts(d.itemOps) && |charged.relations| == |s.relations| + Inserts(d.relationOps)
    requires s.items <= charged.items && s.relations <= charged.relations
    requires d.task == ref.task && d.run == s.tasks[ref.task].run && d.attempt == ref.attempt
    requires outcome == (if d.applied || d.noData then Complete else Failed)
    ensures Finishes(s, Finish(charged, ref, outcome, error, d, now), ref, outcome, d, now)
  {
    hide RefreshedState;
    var s' := Finish(charged, ref, outcome, error, d, now);
    RefreshCharged(s, charged, d.run, s'.tasks);
    assert OneTask(s, s', ref.task, s'.tasks[ref.task]);
  }

  lemma {:induction false} DeliverNoData(s: State, ref: LeaseRef, o: Observation, now: Time)
    requires Shape(s) && ref.task in s.tasks && ResultKey(ref.task, ref.attempt) in s.results
    requires ReportsNoData(s.tasks[ref.task], ref.task, o)
    ensures FinishedBy(s, Deliver(s, ref, o, now).0, ref, now)
  {
    hide RefreshedState, Finishes;
    var task := s.tasks[ref.task];
    var d := Delivery(task.run, ref.task, ref.attempt, false, false, true, [], []);
    FinishFinishes(s, AddToRun(s, task.run, 0, 0, o.noData.value.errors), ref, Complete, task.error, d, now);
  }

  lemma {:induction false} DeliverRejected(s: State, ref: LeaseRef, o: Observation, now: Time)
    requires Shape(s) && ref.task in s.tasks && ResultKey(ref.task, ref.attempt) in s.results
    requires !ReportsNoData(s.tasks[ref.task], ref.task, o) && o.mapped.None?
    ensures FinishedBy(s, Deliver(s, ref, o, now).0, ref, now)
  {
    hide RefreshedState, Finishes;
    var task := s.tasks[ref.task];
    var d := Delivery(task.run, ref.task, ref.attempt, true, false, false, [], []);
    FinishFinishes(s, SetRunError(s, task.run, "ire_preflight_failed"), ref, Failed, "ire_preflight_failed", d, now);
  }

  lemma {:induction false} DeliverApplied(s: State, ref: LeaseRef, o: Observation, now: Time)
    requires Shape(s) && ref.task in s.tasks && ResultKey(ref.task, ref.attempt) in s.results
    requires !ReportsNoData(s.tasks[ref.task], ref.task, o) && o.mapped.Some?
    ensures FinishedBy(s, Deliver(s, ref, o, now).0, ref, now)
  {
    hide RefreshedState, Finishes;
    var task := s.tasks[ref.task];
    var payload := o.mapped.value;
    var (itemOps, items) := ApplyKeys(payload.items, s.items);
    var (relationOps, relations) := ApplyKeys(payload.relations, s.relations);
    ApplyKeysCounts(payload.items, s.items);
    ApplyKeysCounts(payload.relations, s.relations);
    var d := Delivery(task.run, ref.task, ref.attempt, true, true, false, itemOps, relationOps);
    FinishFinishes(s, AddToRun(s.(items := items, relations := relations), task.run, |payload.items|, |payload.relations|, 0),
                   ref, Complete, task.error, d, now);
  }

  ghost predicate FinishedBy(s: State, s': State, ref: LeaseRef, now: Time) {
    exists outcome, d :: Finishes(s, s', ref, outcome, d, now)
  }

  lemma {:induction false} DeliverFinishes(s: State, ref: LeaseRef, o: Observation, now: Time)
    requires Shape(s) && ref.task in s.tasks && ResultKey(ref.task, ref.attempt) in s.results
    ensures FinishedBy(s, Deliver(s, ref, o, now).0, ref, now)
  {
    hide Finishes, Shape, Deliver;
    if ReportsNoData(s.tasks[ref.task], ref.task, o) {
      DeliverNoData(s, ref, o, now);
    } else if o.mapped.None? {
      DeliverRejected(s, ref, o, now);
    } else {
      DeliverApplied(s, ref, o, now);
    }
  }

  lemma {:induction false} FinishesResults(s: State, s': State, ref: LeaseRef, outcome: TaskState, now: Time)
    requires ResultsOK(s) && TaskFinished(s, s', ref.task, outcome) && !Final(s.tasks[ref.task].state) && Final(outcome)
    requires ResultProcessed(s, s', ResultKey(ref.task, ref.attempt), now)
    ensures ResultsOK(s')
  {
    hide RefreshedState, ResultsOK;
    var middle := s.(tasks := s'.tasks);
    AlikeResults(s, middle);
    ProcessedResults(middle, s', ResultKey(ref.task, ref.attempt), now);
  }

  lemma {:induction false} ProcessedResults(s: State, s': State, key: ResultKey, now: Time)
    requires ResultsOK(s) && ResultProcessed(s, s', key, now) && s'.tasks == s.tasks
    requires key.task in s.tasks && Final(s.tasks[key.task].state)
    ensures ResultsOK(s')
  {
  }

  lemma {:induction false} FinishesDeliveries(s: State, s': State, ref: LeaseRef, outcome: TaskState, d: Delivery, now: Time)
    requires DeliveriesOK(s) && Finishes(s, s', ref, outcome, d, now) && !Final(s.tasks[ref.task].state)
    ensures DeliveriesOK(s')
  {
    hide RefreshedState;
    var n := |s.deliveries|;
    forall i | 0 <= i < n ensures s'.deliveries[i] == s.deliveries[i] && s'.deliveries[i].task != ref.task {
      assert DeliveryOK(s.deliveries[i], s.tasks);
    }
    assert s'.deliveries[n] == d;
    forall t | t in s'.tasks && s'.tasks[t].state == Complete ensures Delivered(s', t) {
      if t != ref.task { assert Delivered(s, t); }
    }
  }

  lemma {:induction false} FinishesConservation(s: State, s': State, ref: LeaseRef, outcome: TaskState, d: Delivery, now: Time)
    requires ConservationOK(s) && Finishes(s, s', ref, outcome, d, now)
    ensures ConservationOK(s')
  {
    hide RefreshedState, OneTask;
    assert (s.deliveries + [d])[..|s.deliveries|] == s.deliveries;
  }

  lemma {:induction false} FinishesKept(s: State, s': State, ref: LeaseRef, outcome: TaskState, d: Delivery, now: Time)
    requires Kept(s) && Finishes(s, s', ref, outcome, d, now) && !Final(s.tasks[ref.task].state)
    requires !s.tasks[ref.task].cancelRequested
    ensures Kept(s')
  {
    hide Shape, Unique, RunsOK, RunOK, ResultsOK, DeliveriesOK, ConservationOK, AttemptsOK, RefreshedState;
    var t, b := ref.task, s'.tasks[ref.task];
    OneTaskShape(s, s', t, b);
    OneTaskAttempts(s, s', t, b);
    FinishesResults(s, s', ref, outcome, now);
    FinishesDeliveries(s, s', ref, outcome, d, now);
    FinishesConservation(s, s', ref, outcome, d, now);
    FinishRun(s, s', t, b);
  }

  lemma {:induction false} CompleteKept(s: State, q: CompleteRequest, now: Time)
    requires Kept(s)
    ensures Kept(CompleteTask(s, q, now).0)
  {
    hide Shape, Unique, RunsOK, ResultsOK, DeliveriesOK, ConservationOK, AttemptsOK, CompleteFailure, Deliver,
         Finishes;
    var (s', reply) := CompleteTask(s, q, now);
    if ValidLease(s, q.ref, now) {
      if !q.success {
        CompleteFailureKept(s, q);
      } else if s' != s {
        var o := s.results[ResultKey(q.ref.task, q.ref.attempt)].observation.value;
        DeliverFinishes(s, q.ref, o, now);
        var outcome, d :| Finishes(s, s', q.ref, outcome, d, now);
        FinishesKept(s, s', q.ref, outcome, d, now);
      }
    }
  }

  // An accepted lease on a task with results always finds them.
  lemma {:induction false} ResultNeverMissing(s: State, q: CompleteRequest, now: Time)
    requires Kept(s)
    ensures CompleteTask(s, q, now).1 != MissingResult
  {
    hide Shape, Unique, RunsOK, DeliveriesOK, ConservationOK, AttemptsOK, Finish, RefreshRun, ApplyKeys,
         AddToRun, SetRunError;
    if ValidLease(s, q.ref, now) {
      assert TaskOK(q.ref.task, s.tasks[q.ref.task]);
    }
  }

  // ----- cancelling

  lemma {:induction false} CancelShape(s: State, r: RunId)
    requires Shape(s) && Unique(s) && CancelRun(s, r).1
    ensures Shape(CancelRun(s, r).0) && Unique(CancelRun(s, r).0)
  {
    hide SomeTask, Shape, Unique;
    SameShape(s, CancelRun(s, r).0);
  }

  lemma {:induction false} CancelTasks(s: State, r: RunId)
    requires TasksOK(s) && CancelRun(s, r).1
    ensures TasksOK(CancelRun(s, r).0)
  {
    hide SomeTask;
  }

  lemma {:induction false} CancelResults(s: State, r: RunId)
    requires ResultsOK(s) && CancelRun(s, r).1
    ensures ResultsOK(CancelRun(s, r).0)
  {
    hide SomeTask;
    var s' := CancelRun(s, r).0;
    forall t | t in s.tasks ensures SettledAlike(s.tasks[t], s'.tasks[t]) {}
    AlikeResults(s, s');
  }

  // Tasks that keep their attempt, gain no new results and stay final once final.
  ghost predicate SettledAlike(a: Task, b: Task) {
    b.attempt == a.attempt && (b.state == ResultsReceived ==> a.state == ResultsReceived) && (Final(a.state) ==> Final(b.state))
  }

  lemma {:induction false} AlikeResults(s: State, s': State)
    requires ResultsOK(s) && s'.results == s.results && s'.tasks.Keys == s.tasks.Keys
    requires forall t :: t in s.tasks ==> SettledAlike(s.tasks[t], s'.tasks[t])
    ensures ResultsOK(s')
  {
  }

  lemma {:induction false} CancelRuns(s: State, r: RunId)
    requires Shape(s) && TasksOK(s) && RunsOK(s) && CancelRun(s, r).1
    ensures RunsOK(CancelRun(s, r).0)
  {
    hide RunOK;
    var s' := CancelRun(s, r).0;
    forall q | q in s'.runs ensures RunOK(s'.runs[q], s'.tasks) {
      if q == r {
        CancelledRunOK(s, r);
      } else {
        assert forall t :: t in s.runs[q].taskIDs ==> t in s.tasks && s'.tasks[t] == s.tasks[t];
        RunOKFrame(s.runs[q], s.tasks, s'.tasks);
      }
    }
  }

  lemma {:induction false} CancelledRunOK(s: State, r: RunId)
    requires Shape(s) && TasksOK(s) && RunsOK(s) && CancelRun(s, r).1
    ensures var s' := CancelRun(s, r).0; RunOK(s'.runs[r], s'.tasks)
  {
    hide SomeTask, TaskOK, CancelTask;
    var s' := CancelRun(s, r).0;
    var ids := s.runs[r].taskIDs;
    forall t | t in ids ensures t in s.tasks && TaskOK(t, s.tasks[t]) && s'.tasks[t] == CancelTask(s.tasks[t]) {}
    CancelPhases(ids, s.tasks, s'.tasks);
    CancelledState(s'.runs[r], ids, s.tasks, s'.tasks);
  }

  // After a cancellation every task of the run is final, or leased with cancel requested.
  lemma {:induction false} CancelledState(run: Run, ids: seq<TaskId>, tasks: map<TaskId, Task>, tasks': map<TaskId, Task>)
    requires run.taskIDs == ids && run.state == if SomeTask(ids, tasks, Active) then RunCancelling else RunCancelled
    requires SomeTask(ids, tasks, Active) <==> exists t :: t in ids && t in tasks' && !Final(tasks'[t].state)
    requires forall t :: t in ids ==> t in tasks'
    requires forall t :: t in ids && !Final(tasks'[t].state) ==> Active(tasks'[t].state) && tasks'[t].cancelRequested
    requires forall t :: t in ids && Final(tasks'[t].state) ==> !tasks'[t].cancelRequested
    ensures RunOK(run, tasks')
  {
    hide SomeTask;
  }

  lemma {:induction false} CancelPhases(ids: seq<TaskId>, tasks: map<TaskId, Task>, tasks': map<TaskId, Task>)
    requires forall t :: t in ids ==> t in tasks && t in tasks' && TaskOK(t, tasks[t]) && tasks'[t] == CancelTask(tasks[t])
    ensures SomeTask(ids, tasks, Active) <==> exists t :: t in ids && t in tasks' && !Final(tasks'[t].state)
    ensures forall t :: t in ids && !Final(tasks'[t].state) ==> Active(tasks'[t].state) && tasks'[t].cancelRequested
    ensures forall t :: t in ids && Final(tasks'[t].state) ==> !tasks'[t].cancelRequested
  {
    if SomeTask(ids, tasks, Active) {
      var t :| t in ids && t in tasks && Active(tasks[t].state);
      assert !Final(tasks'[t].state);
    }
  }

  lemma {:induction false} CancelDeliveries(s: State, r: RunId)
    requires DeliveriesOK(s) && CancelRun(s, r).1
    ensures DeliveriesOK(CancelRun(s, r).0)
  {
    hide SomeTask;
    var s' := CancelRun(s, r).0;
    forall i | 0 <= i < |s.deliveries| ensures DeliveryOK(s.deliveries[i], s'.tasks) {
      assert DeliveryOK(s.deliveries[i], s.tasks);
    }
    forall t | t in s'.tasks && s'.tasks[t].state == Complete ensures Delivered(s', t) {
      assert Delivered(s, t);
    }
  }

  lemma {:induction false} CancelAttempts(s: State, r: RunId)
    requires AttemptsOK(s) && CancelRun(s, r).1
    ensures AttemptsOK(CancelRun(s, r).0)
  {
    hide SomeTask;
    var s' := CancelRun(s, r).0;
    forall q | q in s'.runs ensures s'.runs[q].attempts == SumAttempts(s'.runs[q].taskIDs, s'.tasks) {
      SumFrame(s.runs[q].taskIDs, s.tasks, s'.tasks);
    }
  }

  lemma {:induction false} CancelKept(s: State, r: RunId)
    requires Kept(s)
    ensures Kept(CancelRun(s, r).0)
  {
    if CancelRun(s, r).1 {
      hide Shape, Unique, TasksOK, RunsOK, ResultsOK, DeliveriesOK, AttemptsOK, SomeTask;
      CancelShape(s, r);
      CancelTasks(s, r);
      CancelResults(s, r);
      CancelRuns(s, r);
      CancelDeliveries(s, r);
      CancelAttempts(s, r);
    }
  }

  // ----- reaping

  lemma {:induction false} ReapShape(s: State, now: Time)
    requires Shape(s) && Unique(s)
    ensures Shape(ReapAll(s, now)) && Unique(ReapAll(s, now))
  {
    hide RefreshedState, RunLapsed, Shape, Unique;
    SameShape(s, ReapAll(s, now));
  }

  lemma {:induction false} ReapTasksOK(s: State, now: Time)
    requires TasksOK(s)
    ensures TasksOK(ReapAll(s, now))
  {
    hide RefreshedState, RunLapsed;
  }

  lemma {:induction false} ReapResults(s: State, now: Time)
    requires ResultsOK(s)
    ensures ResultsOK(ReapAll(s, now))
  {
    hide RefreshedState, RunLapsed;
    AlikeResults(s, ReapAll(s, now));
  }

  lemma {:induction false} ReapedRunOK(run: Run, tasks: map<TaskId, Task>, now: Time)
    requires RunOK(run, tasks) && forall t :: t in run.taskIDs && t in tasks ==> TaskOK(t, tasks[t])
    ensures RunOK(Refresh(run, ReapTasks(tasks, now)), ReapTasks(tasks, now))
  {
    hide RefreshedState;
    RefreshOK(run, ReapTasks(tasks, now));
  }

  lemma {:induction false} ReapRuns(s: State, now: Time)
    requires Shape(s) && TasksOK(s) && RunsOK(s)
    ensures RunsOK(ReapAll(s, now))
  {
    hide RunOK, Refresh, TaskOK;
    var s' := ReapAll(s, now);
    forall q | q in s'.runs ensures RunOK(s'.runs[q], s'.tasks) {
      if RunLapsed(s.tasks, q, now) {
        ReapedRunOK(s.runs[q], s.tasks, now);
      } else {
        forall t | t in s.runs[q].taskIDs ensures t in s.tasks && s'.tasks[t] == s.tasks[t] {
          assert !Lapsed(s.tasks[t], now);
        }
        RunOKFrame(s.runs[q], s.tasks, s'.tasks);
      }
    }
  }

  lemma {:induction false} ReapDeliveries(s: State, now: Time)
    requires DeliveriesOK(s)
    ensures DeliveriesOK(ReapAll(s, now))
  {
    hide RefreshedState, RunLapsed;
    var s' := ReapAll(s, now);
    forall i | 0 <= i < |s.deliveries| ensures DeliveryOK(s.deliveries[i], s'.tasks) {
      assert DeliveryOK(s.deliveries[i], s.tasks);
    }
    forall t | t in s'.tasks && s'.tasks[t].state == Complete ensures Delivered(s', t) {
      assert Delivered(s, t);
    }
  }

  lemma {:induction false} ReapAttempts(s: State, now: Time)
    requires AttemptsOK(s)
    ensures AttemptsOK(ReapAll(s, now))
  {
    hide RefreshedState, RunLapsed;
    var s' := ReapAll(s, now);
    forall q | q in s'.runs ensures s'.runs[q].attempts == SumAttempts(s'.runs[q].taskIDs, s'.tasks) {
      SumFrame(s.runs[q].taskIDs, s.tasks, s'.tasks);
    }
  }

  lemma {:induction false} ReapKept(s: State, now: Time)
    requires Kept(s)
    ensures Kept(ReapAll(s, now))
  {
    hide Shape, Unique, TasksOK, RunsOK, ResultsOK, DeliveriesOK, AttemptsOK, Refresh, RunLapsed;
    ReapShape(s, now);
    ReapTasksOK(s, now);
    ReapResults(s, now);
    ReapRuns(s, now);
    ReapDeliveries(s, now);
    ReapAttempts(s, now);
  }

  lemma {:induction false} SameTasksKept(s: State, s': State)
    requires TasksOK(s) && RunsOK(s) && AttemptsOK(s) && s'.tasks == s.tasks && s'.runs == s.runs
    ensures TasksOK(s') && RunsOK(s') && AttemptsOK(s')
  {
    hide TaskOK, RunOK;
  }

  // Worker records and the renewal switch are outside Kept.
  lemma {:induction false} WorkersKept(s: State, s': State)
    requires Kept(s) && s' == s.(workers := s'.workers, nextID := s'.nextID) && s'.nextID >= s.nextID
    ensures Kept(s')
  {
    hide TasksOK, RunsOK, AttemptsOK, DeliveryOK;
    SameTasksKept(s, s');
    forall t | t in s'.tasks && s'.tasks[t].state == Complete ensures Delivered(s', t) {
      assert Delivered(s, t);
    }
  }

  lemma {:induction false} ClaimKept(c: Config, s: State, q: ClaimRequest, token: Token, now: Time)
    requires Kept(s)
    ensures Kept(Claim(c, s, q, token, now).0)
  {
    hide Kept, ReapAll, Grant, Full;
    if ClaimAllowed(s, q) {
      var ready := BeforeClaim(s, q.worker, now);
      ReapKept(s, now);
      WorkersKept(ReapAll(s, now), ready);
      if !Full(c, ready, q.worker) {
        var ids := Claimable(ready, ready.workers[q.worker]);
        if ids != {} {
          GrantKept(c, ready, q.worker, LeastOf(ids), token, now);
        }
      }
    }
  }

  lemma {:induction false} CleanupKept(c: Config, s: State, chosen: set<ResultKey>, now: Time)
    requires Kept(s)
    ensures Kept(Cleanup(c, s, chosen, now))
  {
    hide Shape, Unique, TasksOK, RunsOK, ConservationOK, AttemptsOK;
    CleanupResults(c, s, chosen, now);
    CleanupOther(s, Cleanup(c, s, chosen, now));
  }

  lemma {:induction false} CleanupResults(c: Config, s: State, chosen: set<ResultKey>, now: Time)
    requires ResultsOK(s)
    ensures ResultsOK(Cleanup(c, s, chosen, now))
  {
  }

  lemma {:induction false} CleanupOther(s: State, s': State)
    requires Kept(s) && s' == s.(results := s'.results) && ResultsOK(s')
    ensures Kept(s')
  {
    hide TasksOK, RunsOK, AttemptsOK, DeliveryOK, ResultsOK;
    SameTasksKept(s, s');
    forall t | t in s'.tasks && s'.tasks[t].state == Complete ensures Delivered(s', t) {
      assert Delivered(s, t);
    }
  }
}
