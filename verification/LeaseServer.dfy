// The control plane as the source keeps it: one object whose handlers update its maps in
// place. Each method does to the object what the function of the same name says.
module LeaseServer {
  import opened Wrappers
  import opened ControlPlane
  import opened LeaseInvariant

  class Server {
    const config: Config
    var tasks: map<TaskId, Task>
    var runs: map<RunId, Run>
    var workers: map<WorkerId, Worker>
    var results: map<ResultKey, Stored>
    var items: set<ItemKey>
    var relations: set<RelationKey>
    var deliveries: seq<Delivery>
    var nextID: nat
    var renewAvailable: bool

    ghost function View(): State
      reads this
    {
      State(tasks, runs, workers, results, items, relations, deliveries, nextID, renewAvailable)
    }

    constructor (config: Config)
      ensures View() == EMPTY && this.config == config && Kept(View())
    {
      this.config := config;
      tasks, runs, workers, results := map[], map[], map[], map[];
      items, relations, deliveries, nextID, renewAvailable := {}, {}, [], 0, true;
      new;
      EmptyKept(config, 0);
    }

    method Register(boot: string, pool: string, site: string, capabilities: seq<Operation>, maxConcurrency: int)
      returns (id: Option<WorkerId>)
      modifies this`workers, this`nextID
      ensures (View(), id) == ControlPlane.Register(old(View()), boot, pool, site, capabilities, maxConcurrency)
    {
      var limit := maxConcurrency;
      if limit == 0 {
        limit := 1;
      }
      if boot == "" || pool == "" || site == "" || !ValidCapabilities(capabilities) || limit < 1 || limit > MAX_WORKER_CONCURRENCY {
        return None;
      }
      nextID := nextID + 1;
      workers := workers[nextID := Worker(boot, pool, capabilities, limit, 0)];
      id := Some(nextID);
    }

    method CreateRun(pool: string, operation: Operation, partitions: nat, now: Time) returns (id: Option<RunId>)
      modifies this
      ensures (View(), id) == ControlPlane.CreateRun(old(View()), pool, operation, partitions, now)
    {
      if partitions < 1 || partitions > MAX_PARTITIONS {
        return None;
      }
      nextID := nextID + 1;
      var run := nextID;
      var ids := CreateTasks(run, pool, operation, partitions, now);
      runs := runs[run := Run(RunReady, ids, 0, 0, 0, 0, "")];
      id := Some(run);
    }

    method CreateTasks(run: RunId, pool: string, operation: Operation, partitions: nat, now: Time) returns (ids: seq<TaskId>)
      modifies this`tasks, this`nextID
      ensures nextID == old(nextID) + partitions
      ensures ids == seq(partitions, i requires 0 <= i < partitions => old(nextID) + 1 + i)
      ensures tasks == old(tasks) + (map t | t in ids :: NewTask(run, pool, operation, now))
    {
      hide NewTask;
      ids := [];
      for ordinal := 0 to partitions
        invariant nextID == old(nextID) + ordinal
        invariant ids == seq(ordinal, i requires 0 <= i < ordinal => old(nextID) + 1 + i)
        invariant tasks == old(tasks) + (map t | t in ids :: NewTask(run, pool, operation, now))
      {
        nextID := nextID + 1;
        ids := ids + [nextID];
        tasks := tasks[nextID := NewTask(run, pool, operation, now)];
      }
    }

    method RefreshRun(r: RunId)
      modifies this`runs
      ensures View() == ControlPlane.RefreshRun(old(View()), r)
      ensures runs == if r in old(runs) then old(runs)[r := Refresh(old(runs)[r], tasks)] else old(runs)
    {
      if r in runs {
        var run := Refreshed(runs[r], tasks);
        runs := runs[r := run];
      }
    }

    // Counts the run's tasks by outcome, as the source does.
    static method Refreshed(run: Run, tasks: map<TaskId, Task>) returns (refreshed: Run)
      ensures refreshed == Refresh(run, tasks)
    {
      var active, failed, cancelled := 0, 0, 0;
      for i := 0 to |run.taskIDs|
        invariant active >= 0 && failed >= 0 && cancelled >= 0
        invariant active > 0 <==> SomeTask(run.taskIDs[..i], tasks, Unfinished)
        invariant failed > 0 <==> SomeTask(run.taskIDs[..i], tasks, IsFailed)
        invariant cancelled > 0 <==> SomeTask(run.taskIDs[..i], tasks, IsCancelled)
      {
        hide SomeTask;
        SomeTaskNext(run.taskIDs, i, tasks);
        if run.taskIDs[i] in tasks {
          var state := tasks[run.taskIDs[i]].state;
          if state == Failed {
            failed := failed + 1;
          } else if state == Cancelled {
            cancelled := cancelled + 1;
          } else if state != TaskState.Complete {
            active := active + 1;
          }
        }
      }
      assert run.taskIDs[..|run.taskIDs|] == run.taskIDs;
      refreshed := run;
      if active > 0 {
        if run.state != RunCancelling {
          refreshed := run.(state := RunRunning);
        }
      } else if failed > 0 {
        refreshed := run.(state := RunFailed);
      } else if cancelled > 0 {
        refreshed := run.(state := RunCancelled);
      } else {
        refreshed := run.(state := RunComplete);
      }
    }

    method CancelRun(r: RunId) returns (ok: bool)
      requires Shape(View())
      modifies this`tasks, this`runs
      ensures (View(), ok) == ControlPlane.CancelRun(old(View()), r)
    {
      if r !in runs || RunFinal(runs[r].state) {
        return false;
      }
      hide SomeTask, CancelTask;
      var active := CancelTasks(runs[r].taskIDs);
      assert tasks == ControlPlane.CancelRun(old(View()), r).0.tasks;
      runs := runs[r := runs[r].(state := if active then RunCancelling else RunCancelled)];
      ok := true;
    }

    method CancelTasks(ids: seq<TaskId>) returns (active: bool)
      requires forall t :: t in ids ==> t in tasks
      modifies this`tasks
      ensures CancelledUpTo(old(tasks), tasks, ids)
      ensures active <==> SomeTask(ids, old(tasks), Active)
    {
      active := false;
      for i := 0 to |ids|
        invariant CancelledUpTo(old(tasks), tasks, ids[..i])
        invariant active <==> SomeTask(ids[..i], old(tasks), Active)
      {
        hide SomeTask, CancelledUpTo;
        CancelNext(old(tasks), tasks, ids, i);
        var task := tasks[ids[i]];
        if task.state == Ready {
          tasks := tasks[ids[i] := task.(state := Cancelled)];
        } else if Active(task.state) {
          tasks := tasks[ids[i] := task.(cancelRequested := true)];
          active := true;
        }
      }
      assert ids[..|ids|] == ids;
    }

    // The source visits tasks in map order; the outcome is the same in every order.
    method ReapLapsed(now: Time)
      requires Shape(View())
      modifies this`tasks, this`runs
      ensures View() == ReapAll(old(View()), now)
    {
      hide PartlyReaped, ControlPlane.RefreshRun, Shape, Refresh, ReapAll, Lapsed, Reap;
      ghost var before := View();
      var todo := tasks.Keys;
      NoneReaped(before, now);
      while todo != {}
        invariant todo <= before.tasks.Keys
        invariant PartlyReaped(before, tasks, runs, todo, now)
      {
        var t :| t in todo;
        ReapNext(before, tasks, runs, todo, t, now);
        todo := todo - {t};
        var task := tasks[t];
        if Lapsed(task, now) {
          tasks := tasks[t := Reap(task, now)];
          RefreshRun(task.run);
        }
      }
      ReapedAll(before, tasks, runs, now);
    }

    method Claim(q: ClaimRequest, token: Token, now: Time) returns (reply: ClaimReply)
      requires Shape(View())
      modifies this
      ensures (View(), reply) == ControlPlane.Claim(config, old(View()), q, token, now)
    {
      if q.worker !in workers || workers[q.worker].boot != q.boot || q.capabilities != workers[q.worker].capabilities
         || q.currentLeases < 0 || q.currentLeases > workers[q.worker].maxConcurrency {
        return Forbidden;
      }
      hide ReapAll, WorkerLeases, PoolLeases, ControlPlane.Grant;
      ReapLapsed(now);
      var w := q.worker;
      workers := workers[w := workers[w].(currentLeases := |WorkerLeases(tasks, w)|)];
      assert View() == BeforeClaim(old(View()), w, now);
      if workers[w].currentLeases >= workers[w].maxConcurrency || |PoolLeases(tasks, workers[w].pool)| >= config.poolMaxLeases {
        return NoTask;
      }
      var ids := set t | t in tasks && tasks[t].state == Ready && tasks[t].pool == workers[w].pool
                         && tasks[t].operation in q.capabilities;
      assert ids == Claimable(View(), workers[w]);
      if ids == {} {
        return NoTask;
      }
      reply := Grant(w, LeastOf(ids), token, now);
    }

    method Grant(w: WorkerId, t: TaskId, token: Token, now: Time) returns (reply: ClaimReply)
      requires w in workers && t in tasks
      modifies this`tasks, this`runs, this`workers
      ensures (View(), reply) == ControlPlane.Grant(config, old(View()), w, t, token, now)
    {
      var task := tasks[t];
      var attempt := AttemptId(t, task.attempt + 1);
      var expires := now + config.leaseDuration;
      if expires > task.deadline {
        expires := task.deadline;
      }
      tasks := tasks[t := task.(attempt := task.attempt + 1, holder := Some(Holder(w, workers[w].boot, attempt, token)),
                                expires := expires, state := Leased)];
      workers := workers[w := workers[w].(currentLeases := workers[w].currentLeases + 1)];
      if task.run in runs {
        runs := runs[task.run := runs[task.run].(state := RunRunning, attempts := runs[task.run].attempts + 1)];
      }
      reply := Claimed(LeaseRef(t, w, workers[w].boot, attempt, token), expires, task.deadline);
    }

    predicate HoldsLease(ref: LeaseRef, now: Time)
      reads this
      ensures HoldsLease(ref, now) <==> ValidLease(View(), ref, now)
    {
      && ref.task in tasks
      && var task := tasks[ref.task];
         && Active(task.state) && task.expires > now
         && task.holder.Some? && task.holder.value.worker == ref.worker && task.holder.value.boot == ref.boot
         && task.holder.value.attempt == ref.attempt && task.holder.value.token == ref.token
    }

    method Renew(ref: LeaseRef, now: Time, later: Time) returns (reply: RenewReply)
      modifies this`tasks
      ensures (View(), reply) == ControlPlane.Renew(config, old(View()), ref, now, later)
    {
      if !renewAvailable {
        return Unavailable;
      }
      if !HoldsLease(ref, now) {
        return LeaseConflict;
      }
      var task := tasks[ref.task];
      if task.cancelRequested {
        return RenewedCancelled(task.expires);
      }
      var expires := later + config.leaseDuration;
      if expires > task.deadline {
        expires := task.deadline;
      }
      tasks := tasks[ref.task := task.(expires := expires, state := Running)];
      reply := Renewed(expires);
    }

    method SubmitResult(q: ResultRequest, now: Time) returns (reply: ResultReply)
      modifies this`tasks, this`results
      ensures (View(), reply) == ControlPlane.SubmitResult(old(View()), q, now)
    {
      if q.chunkNumber != 0 || q.chunkCount != 1 || q.length == 0 || q.length > MAX_OBSERVATION_BYTES || !q.checksumMatches {
        return BadResult;
      }
      if !HoldsLease(q.ref, now) {
        return ResultLeaseConflict;
      }
      var task := tasks[q.ref.task];
      if task.cancelRequested {
        return TaskCancelled;
      }
      var key := ResultKey(q.ref.task, q.ref.attempt);
      if key in results {
        if results[key].observation != Some(q.observation) {
          return IdempotencyConflict;
        }
        return Duplicate;
      }
      results := results[key := Stored(Some(q.observation), None, Ready, false)];
      tasks := tasks[q.ref.task := task.(state := ResultsReceived, chunkCount := 1)];
      reply := Accepted;
    }

    method CompleteFailure(q: CompleteRequest) returns (reply: CompleteReply)
      requires q.ref.task in tasks
      modifies this`tasks, this`runs
      ensures (View(), reply) == ControlPlane.CompleteFailure(old(View()), q)
    {
      if q.failure.None? || q.failure.value.code == "" || q.failure.value.messageLength > MAX_FAILURE_BYTES {
        return BadFailure;
      }
      var task := tasks[q.ref.task];
      if task.cancelRequested || q.failure.value.code == "cancelled" {
        task := task.(state := Cancelled, error := "cancelled");
      } else {
        task := task.(state := Failed, error := q.failure.value.code);
      }
      tasks := tasks[q.ref.task := task.(cancelRequested := false)];
      RefreshRun(task.run);
      reply := Completed(task.state);
    }

    method InsertItems(keys: seq<ItemKey>) returns (ops: seq<Op>)
      modifies this`items
      ensures (ops, items) == ApplyKeys(keys, old(items))
    {
      hide ApplyKeys;
      ops := [];
      ApplyNone(items);
      assert keys[..0] == [];
      for i := 0 to |keys|
        invariant (ops, items) == ApplyKeys(keys[..i], old(items))
      {
        ApplyNext(keys[..i], keys[i], old(items));
        assert keys[..i + 1] == keys[..i] + [keys[i]];
        ops := ops + [if keys[i] in items then NO_CHANGE else INSERT];
        items := items + {keys[i]};
      }
      assert keys[..|keys|] == keys;
    }

    method InsertRelations(keys: seq<RelationKey>) returns (ops: seq<Op>)
      modifies this`relations
      ensures (ops, relations) == ApplyKeys(keys, old(relations))
    {
      hide ApplyKeys;
      ops := [];
      ApplyNone(relations);
      assert keys[..0] == [];
      for i := 0 to |keys|
        invariant (ops, relations) == ApplyKeys(keys[..i], old(relations))
      {
        ApplyNext(keys[..i], keys[i], old(relations));
        assert keys[..i + 1] == keys[..i] + [keys[i]];
        ops := ops + [if keys[i] in relations then NO_CHANGE else INSERT];
        relations := relations + {keys[i]};
      }
      assert keys[..|keys|] == keys;
    }

    method Finish(ref: LeaseRef, outcome: TaskState, error: string, delivery: Delivery, now: Time)
      requires ref.task in tasks && ResultKey(ref.task, ref.attempt) in results
      modifies this
      ensures View() == ControlPlane.Finish(old(View()), ref, outcome, error, delivery, now)
    {
      var task := tasks[ref.task].(state := outcome, error := error);
      var key := ResultKey(ref.task, ref.attempt);
      tasks := tasks[ref.task := task];
      RefreshRun(task.run);
      results := results[key := results[key].(processedAt := Some(now), terminal := outcome)];
      deliveries := deliveries + [delivery];
    }

    method Deliver(ref: LeaseRef, o: Observation, now: Time) returns (reply: CompleteReply)
      requires ref.task in tasks && ResultKey(ref.task, ref.attempt) in results
      modifies this
      ensures (View(), reply) == ControlPlane.Deliver(old(View()), ref, o, now)
    {
      hide ControlPlane.Finish, ApplyKeys;
      var task := tasks[ref.task];
      if ReportsNoData(task, ref.task, o) {
        if task.run in runs {
          runs := runs[task.run := runs[task.run].(collectionErrors := runs[task.run].collectionErrors + o.noData.value.errors)];
        }
        Finish(ref, Complete, task.error, Delivery(task.run, ref.task, ref.attempt, false, false, true, [], []), now);
        return Completed(Complete);
      }
      if o.mapped.None? {
        if task.run in runs {
          runs := runs[task.run := runs[task.run].(error := "ire_preflight_failed")];
        }
        Finish(ref, Failed, "ire_preflight_failed", Delivery(task.run, ref.task, ref.attempt, true, false, false, [], []), now);
        return Rejected;
      }
      var payload := o.mapped.value;
      var itemOps := InsertItems(payload.items);
      var relationOps := InsertRelations(payload.relations);
      if task.run in runs {
        var run := runs[task.run];
        runs := runs[task.run := run.(assets := run.assets + |payload.items|, relationships := run.relationships + |payload.relations|)];
      }
      Finish(ref, Complete, task.error, Delivery(task.run, ref.task, ref.attempt, true, true, false, itemOps, relationOps), now);
      reply := Completed(Complete);
    }

    method CompleteTask(q: CompleteRequest, now: Time) returns (reply: CompleteReply)
      requires Kept(View())
      modifies this
      ensures (View(), reply) == ControlPlane.CompleteTask(old(View()), q, now)
      ensures reply != MissingResult
    {
      ResultNeverMissing(View(), q, now);
      if !HoldsLease(q.ref, now) {
        return CompleteLeaseConflict;
      }
      if !q.success {
        reply := CompleteFailure(q);
        return;
      }
      var task := tasks[q.ref.task];
      var key := ResultKey(q.ref.task, q.ref.attempt);
      if q.chunkCount != 1 || task.state != ResultsReceived {
        return ChunksIncomplete;
      }
      if task.cancelRequested {
        return CompleteCancelled;
      }
      reply := Deliver(q.ref, results[key].observation.value, now);
    }

    // Deletes up to limit expired results, whichever the map order meets first.
    method CleanupBatch(limit: int, now: Time) returns (deleted: nat, ghost chosen: set<ResultKey>)
      modifies this`results
      ensures View() == Cleanup(config, old(View()), chosen, now)
      ensures deleted == |chosen| && (limit >= 0 ==> deleted <= limit) && (limit < 1 ==> deleted == 0)
      ensures results.Keys == old(results).Keys && chosen <= results.Keys
      ensures forall k :: k in results ==>
        results[k] == if k in chosen then old(results)[k].(observation := None, deleted := true) else old(results)[k]
      ensures forall k :: k in chosen ==>
        && !old(results)[k].deleted && old(results)[k].processedAt.Some?
        && (old(results)[k].terminal == TaskState.Complete ==> old(results)[k].processedAt.value + config.successTTL <= now)
        && (old(results)[k].terminal != TaskState.Complete ==> old(results)[k].processedAt.value + config.failureTTL <= now)
      ensures deleted < limit ==> forall k :: k in results && k !in chosen && !old(results)[k].deleted && old(results)[k].processedAt.Some? ==>
        && (old(results)[k].terminal == TaskState.Complete ==> now < old(results)[k].processedAt.value + config.successTTL)
        && (old(results)[k].terminal != TaskState.Complete ==> now < old(results)[k].processedAt.value + config.failureTTL)
    {
      deleted, chosen := 0, {};
      var todo := results.Keys;
      while todo != {} && deleted < limit
        invariant todo <= old(results).Keys && chosen <= old(results).Keys - todo
        invariant deleted == |chosen| && (deleted <= limit || deleted == 0)
        invariant results == Cleanup(config, old(View()), chosen, now).results
        invariant forall k :: k in chosen ==> Expired(config, old(results)[k], now)
        invariant forall k :: k in old(results) && Expired(config, old(results)[k], now) ==> k in chosen || k in todo
      {
        var k :| k in todo;
        todo := todo - {k};
        if Expired(config, results[k], now) {
          results := results[k := results[k].(observation := None, deleted := true)];
          chosen := chosen + {k};
          deleted := deleted + 1;
        }
      }
    }
  }

  lemma {:induction false} ApplyNone(known: set<string>)
    ensures ApplyKeys([], known) == ([], known)
  {
  }

  lemma {:induction false} ApplyNext(keys: seq<string>, key: string, known: set<string>)
    ensures var (ops, after) := ApplyKeys(keys, known);
      ApplyKeys(keys + [key], known) == (ops + [if key in after then NO_CHANGE else INSERT], after + {key})
  {
    if keys == [] {
      var ops: seq<Op> := [if key in known then NO_CHANGE else INSERT];
      assert keys + [key] == [key] && [key][1..] == [];
      assert ops + [] == [] + ops == ops;
      assert ApplyKeys([key], known) == (ops, known + {key});
    } else {
      assert (keys + [key])[1..] == keys[1..] + [key];
      ApplyNext(keys[1..], key, known + {keys[0]});
      var (ops, after) := ApplyKeys(keys[1..], known + {keys[0]});
      var first := [if keys[0] in known then NO_CHANGE else INSERT];
      var last := [if key in after then NO_CHANGE else INSERT];
      assert first + (ops + last) == (first + ops) + last;
    }
  }

  lemma {:induction false} SomeTaskNext(ids: seq<TaskId>, i: nat, tasks: map<TaskId, Task>)
    requires i < |ids|
    ensures forall p: TaskState -> bool ::
      SomeTask(ids[..i + 1], tasks, p) <==> SomeTask(ids[..i], tasks, p) || (ids[i] in tasks && p(tasks[ids[i]].state))
  {
    assert ids[..i + 1] == ids[..i] + [ids[i]];
  }

  // The tasks of ids cancelled, the others as before.
  ghost predicate CancelledUpTo(before: map<TaskId, Task>, tasks: map<TaskId, Task>, ids: seq<TaskId>) {
    && tasks.Keys == before.Keys
    && forall t :: t in before ==> tasks[t] == if t in ids then CancelTask(before[t]) else before[t]
  }

  lemma {:induction false} CancelNext(before: map<TaskId, Task>, tasks: map<TaskId, Task>, ids: seq<TaskId>, i: nat)
    requires i < |ids| && ids[i] in before && CancelledUpTo(before, tasks, ids[..i])
    ensures ids[i] in tasks && CancelledUpTo(before, tasks[ids[i] := CancelTask(tasks[ids[i]])], ids[..i + 1])
    ensures SomeTask(ids[..i + 1], before, Active) <==> SomeTask(ids[..i], before, Active) || Active(tasks[ids[i]].state)
    ensures !Active(tasks[ids[i]].state) && tasks[ids[i]].state != Ready ==> tasks == tasks[ids[i] := CancelTask(tasks[ids[i]])]
  {
    assert ids[..i + 1] == ids[..i] + [ids[i]];
    if ids[i] in ids[..i] && Active(tasks[ids[i]].state) {
      assert SomeTask(ids[..i], before, Active);
    }
  }

  ghost predicate LapsedOutside(tasks: map<TaskId, Task>, r: RunId, todo: set<TaskId>, now: Time) {
    exists t :: t in tasks && t !in todo && tasks[t].run == r && Lapsed(tasks[t], now)
  }

  // Partway through the reaping loop: visited tasks are reaped, and a run is refreshed if one
  // of its lapsed tasks has been visited.
  ghost predicate PartlyReaped(before: State, tasks: map<TaskId, Task>, runs: map<RunId, Run>, todo: set<TaskId>, now: Time) {
    && tasks.Keys == before.tasks.Keys && runs.Keys == before.runs.Keys
    && (forall t :: t in tasks ==> tasks[t] == if t in todo then before.tasks[t] else Reap(before.tasks[t], now))
    && (forall r :: r in runs ==>
          runs[r] == if LapsedOutside(before.tasks, r, todo, now) then Refresh(before.runs[r], tasks) else before.runs[r])
  }

  lemma {:induction false} NoneReaped(before: State, now: Time)
    ensures PartlyReaped(before, before.tasks, before.runs, before.tasks.Keys, now)
  {
  }

  lemma {:induction false} ReapNext(before: State, tasks: map<TaskId, Task>, runs: map<RunId, Run>, todo: set<TaskId>, t: TaskId, now: Time)
    requires Shape(before) && PartlyReaped(before, tasks, runs, todo, now) && t in todo && todo <= before.tasks.Keys
    ensures t in tasks && tasks[t] == before.tasks[t] && tasks[t].run in runs
    ensures !Lapsed(tasks[t], now) ==> PartlyReaped(before, tasks, runs, todo - {t}, now)
    ensures Lapsed(tasks[t], now) ==>
      var tasks' := tasks[t := Reap(tasks[t], now)]; var q := tasks[t].run;
      PartlyReaped(before, tasks', runs[q := Refresh(runs[q], tasks')], todo - {t}, now)
  {
    hide Refresh, Shape, Lapsed;
    RunKnown(before, t);
    if Lapsed(tasks[t], now) {
      var tasks' := tasks[t := Reap(tasks[t], now)];
      var runs' := runs[tasks[t].run := Refresh(runs[tasks[t].run], tasks')];
      forall r | r in runs'
        ensures runs'[r] == if LapsedOutside(before.tasks, r, todo - {t}, now) then Refresh(before.runs[r], tasks') else before.runs[r]
      {
        ReapNextRun(before, tasks, runs, todo, t, now, r);
      }
    } else {
      forall r ensures LapsedOutside(before.tasks, r, todo - {t}, now) <==> LapsedOutside(before.tasks, r, todo, now) {}
    }
  }

  lemma {:induction false} ReapNextRun(before: State, tasks: map<TaskId, Task>, runs: map<RunId, Run>, todo: set<TaskId>, t: TaskId, now: Time, r: RunId)
    requires Shape(before) && t in todo && t in tasks && t in before.tasks && tasks[t] == before.tasks[t] && Lapsed(tasks[t], now)
    requires r in before.runs && r in runs
    requires runs[r] == if LapsedOutside(before.tasks, r, todo, now) then Refresh(before.runs[r], tasks) else before.runs[r]
    ensures var tasks' := tasks[t := Reap(tasks[t], now)];
      (if LapsedOutside(before.tasks, r, todo - {t}, now) then Refresh(before.runs[r], tasks') else before.runs[r])
      == (if r == tasks[t].run then Refresh(runs[r], tasks') else runs[r])
  {
    hide Refresh, Reap;
    var tasks' := tasks[t := Reap(tasks[t], now)];
    if r == tasks[t].run {
      RunKnown(before, t);
      RefreshTwice(before.runs[r], tasks, tasks', t);
      assert LapsedOutside(before.tasks, r, todo - {t}, now);
    } else {
      assert t !in before.runs[r].taskIDs;
      RefreshElsewhere(before.runs[r], tasks, t, Reap(tasks[t], now));
      assert LapsedOutside(before.tasks, r, todo - {t}, now) <==> LapsedOutside(before.tasks, r, todo, now);
    }
  }

  lemma {:induction false} ReapedAll(before: State, tasks: map<TaskId, Task>, runs: map<RunId, Run>, now: Time)
    requires PartlyReaped(before, tasks, runs, {}, now)
    ensures before.(tasks := tasks, runs := runs) == ReapAll(before, now)
  {
    hide Refresh;
    assert tasks == ReapTasks(before.tasks, now);
    forall r ensures RunLapsed(before.tasks, r, now) <==> LapsedOutside(before.tasks, r, {}, now) {}
    assert runs == ReapAll(before, now).runs;
  }

  // While a task is unfinished, refreshing remembers only whether the run was cancelling.
  lemma {:induction false} RefreshTwice(run: Run, tasks: map<TaskId, Task>, tasks': map<TaskId, Task>, t: TaskId)
    requires t in run.taskIDs && t in tasks && !Final(tasks[t].state)
    ensures Refresh(Refresh(run, tasks), tasks') == Refresh(run, tasks')
  {
    assert Unfinished(tasks[t].state);
  }

  lemma {:induction false} RefreshElsewhere(run: Run, tasks: map<TaskId, Task>, t: TaskId, task: Task)
    requires t !in run.taskIDs
    ensures Refresh(run, tasks[t := task]) == Refresh(run, tasks)
  {
    assert forall p: TaskState -> bool :: SomeTask(run.taskIDs, tasks[t := task], p) <==> SomeTask(run.taskIDs, tasks, p);
  }
}
