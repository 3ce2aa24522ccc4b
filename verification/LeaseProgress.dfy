// What brings a leased task to its end, and what keeps it from it
// (internal/worker/controlsim/server.go).
//
// A worker whose result was accepted can complete its task for as long as its lease holds,
// unless one of its renewals was granted after the result: that moves the task back to running,
// where the stored result is a duplicate and a completion is refused, and from then on that
// attempt cannot succeed. The theorems are about every run, whatever else is sent between.
module LeaseProgress {
  import opened Wrappers
  import opened ControlPlane
  import opened LeaseInvariant
  import opened LeaseHistory
  import opened LeaseSystem

  // A worker's completion with success.
  function Done(ref: LeaseRef): CompleteRequest { CompleteRequest(ref, true, None, 1) }

  // The worker's attempt waits to be completed with o, unless it is over.
  predicate Open(s: State, ref: LeaseRef, o: Observation) {
    && ref.task in s.tasks && ref.attempt.task == ref.task && ref.attempt.number <= s.tasks[ref.task].attempt
    && var task := s.tasks[ref.task];
       var key := ResultKey(ref.task, ref.attempt);
       (task.attempt == ref.attempt.number && Active(task.state) ==>
         && task.state == ResultsReceived && task.holder == Some(HolderOf(ref))
         && key in s.results && s.results[key].observation == Some(o) && s.results[key].processedAt.None?)
  }

  // Completing an open attempt while its lease holds delivers o: the task completes unless o can
  // neither be mapped nor excused.
  lemma {:induction false} OpenCompletes(s: State, ref: LeaseRef, o: Observation, now: Time)
    requires Open(s, ref, o) && TaskOK(ref.task, s.tasks[ref.task])
    requires ValidLease(s, ref, now) && !s.tasks[ref.task].cancelRequested
    ensures var (s', reply) := CompleteTask(s, Done(ref), now);
      var excused := ReportsNoData(s.tasks[ref.task], ref.task, o);
      && (reply == Completed(Complete) <==> excused || o.mapped.Some?)
      && (reply == Rejected <==> !excused && o.mapped.None?)
      && s'.tasks[ref.task].state == (if reply == Rejected then Failed else Complete)
      && |s'.deliveries| == |s.deliveries| + 1
      && var d := s'.deliveries[|s.deliveries|];
         && d.task == ref.task && d.attempt == ref.attempt
         && (reply == Completed(Complete) && !excused ==>
               && |d.itemOps| == |o.mapped.value.items| && |d.relationOps| == |o.mapped.value.relations|
               && forall k :: k in o.mapped.value.items ==> k in s'.items)
  {
    if o.mapped.Some? {
      AppliedKeys(o.mapped.value.items, s.items);
      AppliedKeys(o.mapped.value.relations, s.relations);
    }
  }

  lemma {:induction false} AppliedKeys(keys: seq<string>, known: set<string>)
    ensures |ApplyKeys(keys, known).0| == |keys|
    ensures forall k :: k in ApplyKeys(keys, known).1 <==> k in known || k in keys
  {
    if keys != [] {
      AppliedKeys(keys[1..], known + {keys[0]});
    }
  }

  // The attempt's result is stored, but the task is not waiting to be completed.
  predicate Stalled(s: State, t: TaskId, attempt: nat) {
    && t in s.tasks && attempt <= s.tasks[t].attempt && ResultKey(t, AttemptId(t, attempt)) in s.results
    && (s.tasks[t].attempt == attempt ==> s.tasks[t].state != ResultsReceived && s.tasks[t].state != Complete)
  }

  lemma {:induction false} StalledClaim(c: Config, s: State, t: TaskId, n: nat, q: ClaimRequest, token: Token, now: Time)
    requires Stalled(s, t, n)
    ensures Stalled(Claim(c, s, q, token, now).0, t, n)
  {
    hide WorkerLeases, PoolLeases, Refresh, RunLapsed;
    if ClaimAllowed(s, q) {
      var ready := BeforeClaim(s, q.worker, now);
      assert ready.tasks[t] == Reap(s.tasks[t], now);
    }
  }

  lemma {:induction false} StalledSubmit(s: State, t: TaskId, n: nat, q: ResultRequest, now: Time)
    requires Stalled(s, t, n) && Shape(s) && TasksOK(s)
    ensures Stalled(SubmitResult(s, q, now).0, t, n)
  {
    assert TaskOK(t, s.tasks[t]);
  }

  lemma {:induction false} StalledComplete(s: State, t: TaskId, n: nat, q: CompleteRequest, now: Time)
    requires Stalled(s, t, n)
    ensures Stalled(CompleteTask(s, q, now).0, t, n)
  {
    hide RefreshRun, ApplyKeys, ReportsNoData, Finish, AddToRun, SetRunError;
    if ValidLease(s, q.ref, now) && q.success {
      if CompleteTask(s, q, now).0 != s { StalledDeliver(s, t, n, q, now); }
    } else {
      RefreshKeeps();
    }
  }

  lemma {:induction false} StalledDeliver(s: State, t: TaskId, n: nat, q: CompleteRequest, now: Time)
    requires Stalled(s, t, n) && ValidLease(s, q.ref, now) && q.success && CompleteTask(s, q, now).0 != s
    ensures Stalled(CompleteTask(s, q, now).0, t, n)
  {
    hide Deliver;
    var stored := s.results[ResultKey(q.ref.task, q.ref.attempt)];
    DeliverKeeps(s, q.ref, stored.observation.value, now);
  }

  lemma {:induction false} RefreshKeeps()
    ensures forall s, r :: RefreshRun(s, r).tasks == s.tasks && RefreshRun(s, r).results == s.results
  {
  }

  // A delivery ends one task, keeps its attempt, and touches no other task's results.
  ghost predicate EndsTask(s: State, s': State, t: TaskId) {
    && s'.tasks.Keys == s.tasks.Keys && (forall u :: u in s.tasks && u != t ==> s'.tasks[u] == s.tasks[u])
    && (t in s.tasks ==> s'.tasks[t].attempt == s.tasks[t].attempt && Final(s'.tasks[t].state))
    && s'.results.Keys == s.results.Keys && (forall k :: k in s.results && k.task != t ==> s'.results[k] == s.results[k])
  }

  lemma {:induction false} FinishKeeps(s: State, ref: LeaseRef, outcome: TaskState, error: string, delivery: Delivery, now: Time)
    requires ref.task in s.tasks && ResultKey(ref.task, ref.attempt) in s.results && Final(outcome)
    ensures EndsTask(s, Finish(s, ref, outcome, error, delivery, now), ref.task)
  {
    hide RefreshRun;
    RefreshKeeps();
  }

  lemma {:induction false} DeliverKeeps(s: State, ref: LeaseRef, o: Observation, now: Time)
    requires ref.task in s.tasks && ResultKey(ref.task, ref.attempt) in s.results
    ensures EndsTask(s, Deliver(s, ref, o, now).0, ref.task)
  {
    hide ApplyKeys, Finish;
    var task := s.tasks[ref.task];
    if ReportsNoData(task, ref.task, o) {
      var delivery := Delivery(task.run, ref.task, ref.attempt, false, false, true, [], []);
      FinishKeeps(AddToRun(s, task.run, 0, 0, o.noData.value.errors), ref, Complete, task.error, delivery, now);
    } else if o.mapped.None? {
      var delivery := Delivery(task.run, ref.task, ref.attempt, true, false, false, [], []);
      FinishKeeps(SetRunError(s, task.run, "ire_preflight_failed"), ref, Failed, "ire_preflight_failed", delivery, now);
    } else {
      var (itemOps, items) := ApplyKeys(o.mapped.value.items, s.items);
      var (relationOps, relations) := ApplyKeys(o.mapped.value.relations, s.relations);
      var delivery := Delivery(task.run, ref.task, ref.attempt, true, true, false, itemOps, relationOps);
      var applied := AddToRun(s.(items := items, relations := relations), task.run,
                              |o.mapped.value.items|, |o.mapped.value.relations|, 0);
      FinishKeeps(applied, ref, Complete, task.error, delivery, now);
    }
  }

  lemma {:induction false} StalledRest(c: Config, y: System, t: TaskId, n: nat, a: Action)
    requires Stalled(y.server, t, n) && Unique(y.server)
    requires !a.SendClaim? && !a.SendResult? && !a.SendComplete?
    ensures Stalled(Handle(c, y, a), t, n)
  {
    hide SomeTask;
    if a.StartRun? { CreateKeeps(y.server, a.pool, a.operation, a.partitions, y.now, t); }
  }

  lemma {:induction false} CreateKeeps(s: State, pool: string, operation: Operation, partitions: nat, now: Time, t: TaskId)
    requires Unique(s) && t in s.tasks
    ensures var s' := CreateRun(s, pool, operation, partitions, now).0;
      t in s'.tasks && s'.tasks[t] == s.tasks[t] && s'.results == s.results
  {
    assert t <= s.nextID;
  }

  lemma {:induction false} StalledStep(c: Config, y: System, t: TaskId, n: nat, a: Action)
    requires Inv(c, y) && Stalled(y.server, t, n)
    ensures Stalled(Step(c, y, a).server, t, n)
  {
    hide Stalled, Claim, SubmitResult, CompleteTask, Replies, LimitsOK, TimesOK, SentOK, Shape, TasksOK, RunsOK, ResultsOK,
         DeliveriesOK, ConservationOK, AttemptsOK, Unique;
    match a
    case SendClaim(claim, token) => StalledClaim(c, y.server, t, n, claim, token, y.now);
    case SendResult(result) => StalledSubmit(y.server, t, n, result, y.now);
    case SendComplete(complete) => StalledComplete(y.server, t, n, complete, y.now);
    case _ => StalledRest(c, y, t, n, a);
  }

  // A stalled attempt stays so, whatever is sent afterwards.
  lemma {:induction false} StalledForever(c: Config, y: System, t: TaskId, n: nat, actions: seq<Action>)
    requires Inv(c, y) && Stalled(y.server, t, n)
    ensures Stalled(Exec(c, y, actions).server, t, n)
    decreases |actions|
  {
    hide Inv, Stalled, Step;
    if actions != [] {
      StalledStep(c, y, t, n, actions[0]);
      StepInv(c, y, actions[0]);
      StalledForever(c, Step(c, y, actions[0]), t, n, actions[1..]);
    }
  }

  // ----- open attempts

  lemma {:induction false} OpenClaim(c: Config, s: State, ref: LeaseRef, o: Observation, q: ClaimRequest, token: Token, now: Time)
    requires Open(s, ref, o)
    ensures Open(Claim(c, s, q, token, now).0, ref, o)
  {
    hide WorkerLeases, PoolLeases, Refresh, RunLapsed;
    if ClaimAllowed(s, q) {
      var ready := BeforeClaim(s, q.worker, now);
      assert ready.tasks[ref.task] == Reap(s.tasks[ref.task], now);
    }
  }

  lemma {:induction false} OpenSubmit(s: State, ref: LeaseRef, o: Observation, q: ResultRequest, now: Time)
    requires Open(s, ref, o) && TasksOK(s)
    ensures Open(SubmitResult(s, q, now).0, ref, o)
  {
    assert TaskOK(ref.task, s.tasks[ref.task]);
  }

  lemma {:induction false} OpenComplete(s: State, ref: LeaseRef, o: Observation, q: CompleteRequest, now: Time)
    requires Open(s, ref, o)
    ensures Open(CompleteTask(s, q, now).0, ref, o)
  {
    hide RefreshRun, Deliver;
    RefreshKeeps();
    if ValidLease(s, q.ref, now) && q.success && CompleteTask(s, q, now).0 != s {
      DeliverKeeps(s, q.ref, s.results[ResultKey(q.ref.task, q.ref.attempt)].observation.value, now);
    }
  }

  // Only the attempt's own renewal ends its being open.
  lemma {:induction false} OpenRenew(c: Config, s: State, ref: LeaseRef, o: Observation, r: LeaseRef, now: Time, later: Time)
    requires Open(s, ref, o) && TasksOK(s)
    ensures var (s', reply) := Renew(c, s, r, now, later);
      if r == ref && reply.Renewed? then Stalled(s', ref.task, ref.attempt.number) else Open(s', ref, o)
  {
    assert TaskOK(ref.task, s.tasks[ref.task]);
  }

  lemma {:induction false} OpenRest(c: Config, y: System, ref: LeaseRef, o: Observation, a: Action)
    requires Open(y.server, ref, o) && Unique(y.server)
    requires !a.SendClaim? && !a.SendResult? && !a.SendComplete? && !a.SendRenew?
    ensures Open(Handle(c, y, a), ref, o)
  {
    hide SomeTask;
    if a.StartRun? { CreateKeeps(y.server, a.pool, a.operation, a.partitions, y.now, ref.task); }
  }

  // The action is a renewal of the attempt, and is granted.
  predicate Renewal(c: Config, y: System, ref: LeaseRef, a: Action) {
    a.SendRenew? && a.ref == ref && Renew(c, y.server, ref, y.now, y.now + a.lag).1.Renewed?
  }

  predicate RenewedIn(c: Config, y: System, ref: LeaseRef, actions: seq<Action>)
    decreases |actions|
  {
    actions != [] && (Renewal(c, y, ref, actions[0]) || RenewedIn(c, Step(c, y, actions[0]), ref, actions[1..]))
  }

  lemma {:induction false} OpenStep(c: Config, y: System, ref: LeaseRef, o: Observation, a: Action)
    requires Inv(c, y) && Open(y.server, ref, o)
    ensures if Renewal(c, y, ref, a) then Stalled(Step(c, y, a).server, ref.task, ref.attempt.number)
            else Open(Step(c, y, a).server, ref, o)
  {
    hide Open, Stalled, Claim, SubmitResult, CompleteTask, Renew, Replies, LimitsOK, TimesOK, SentOK, Shape, TasksOK, RunsOK,
         ResultsOK, DeliveriesOK, ConservationOK, AttemptsOK, Unique;
    match a
    case SendClaim(claim, token) => OpenClaim(c, y.server, ref, o, claim, token, y.now);
    case SendResult(result) => OpenSubmit(y.server, ref, o, result, y.now);
    case SendComplete(complete) => OpenComplete(y.server, ref, o, complete, y.now);
    case SendRenew(r, lag) => OpenRenew(c, y.server, ref, o, r, y.now, y.now + lag);
    case _ => OpenRest(c, y, ref, o, a);
  }

  lemma {:induction false} OpenRun(c: Config, y: System, ref: LeaseRef, o: Observation, actions: seq<Action>)
    requires Inv(c, y) && Open(y.server, ref, o)
    ensures var z := Exec(c, y, actions).server;
      if RenewedIn(c, y, ref, actions) then Stalled(z, ref.task, ref.attempt.number) else Open(z, ref, o)
    decreases |actions|
  {
    hide Inv, Open, Stalled, Step, Renewal;
    if actions != [] {
      OpenStep(c, y, ref, o, actions[0]);
      StepInv(c, y, actions[0]);
      var y' := Step(c, y, actions[0]);
      if Renewal(c, y, ref, actions[0]) {
        StalledForever(c, y', ref.task, ref.attempt.number, actions[1..]);
      } else {
        OpenRun(c, y', ref, o, actions[1..]);
      }
    }
  }

  lemma {:induction false} AcceptedOpens(c: Config, x: System, q: ResultRequest)
    requires Inv(c, x) && SubmitResult(x.server, q, x.now).1 == Accepted
    ensures Open(Step(c, x, SendResult(q)).server, q.ref, q.observation)
  {
    hide Shape, Unique, RunsOK, ResultsOK, DeliveriesOK, ConservationOK, AttemptsOK, LimitsOK, TimesOK, SentOK;
    assert TaskOK(q.ref.task, x.server.tasks[q.ref.task]);
  }

  lemma {:induction false} AfterAccepted(c: Config, before: seq<Action>, q: ResultRequest, between: seq<Action>)
    requires var x := Exec(c, START, before); SubmitResult(x.server, q, x.now).1 == Accepted
    ensures var y := Step(c, Exec(c, START, before), SendResult(q));
      var z := Exec(c, y, between);
      && Inv(c, z)
      && if RenewedIn(c, y, q.ref, between) then Stalled(z.server, q.ref.task, q.ref.attempt.number)
         else Open(z.server, q.ref, q.observation)
  {
    hide Inv, Open, Stalled, Step, RenewedIn, SubmitResult;
    StartInv(c);
    ExecInv(c, START, before);
    var x := Exec(c, START, before);
    var y := Step(c, x, SendResult(q));
    StepInv(c, x, SendResult(q));
    AcceptedOpens(c, x, q);
    OpenRun(c, y, q.ref, q.observation, between);
    ExecInv(c, y, between);
  }

  lemma {:induction false} ReplyExactly(c: Config, z: System, ref: LeaseRef, o: Observation)
    requires Inv(c, z) && ValidLease(z.server, ref, z.now)
    ensures Stalled(z.server, ref.task, ref.attempt.number) ==> CompleteTask(z.server, Done(ref), z.now).1 == ChunksIncomplete
    ensures Open(z.server, ref, o) ==>
      var reply := CompleteTask(z.server, Done(ref), z.now).1;
      && (reply == CompleteCancelled <==> z.server.tasks[ref.task].cancelRequested)
      && (reply == CompleteCancelled || reply == Completed(Complete) || reply == Rejected)
  {
    hide Shape, Unique, RunsOK, ResultsOK, DeliveriesOK, ConservationOK, AttemptsOK, LimitsOK, TimesOK, SentOK, ReportsNoData, Finish;
    assert TaskOK(ref.task, z.server.tasks[ref.task]);
  }

  // THEOREM (completion, exactly). Between an accepted result and a completion under the same
  // lease let anything be sent, received and lost. The completion is taken up exactly if none of
  // the worker's renewals was granted in between.
  lemma {:induction false} CompletableExactly(c: Config, before: seq<Action>, q: ResultRequest, between: seq<Action>)
    requires var x := Exec(c, START, before); SubmitResult(x.server, q, x.now).1 == Accepted
    requires var z := Exec(c, Step(c, Exec(c, START, before), SendResult(q)), between); ValidLease(z.server, q.ref, z.now)
    ensures var y := Step(c, Exec(c, START, before), SendResult(q));
      var z := Exec(c, y, between);
      var reply := CompleteTask(z.server, Done(q.ref), z.now).1;
      && (reply != ChunksIncomplete <==> !RenewedIn(c, y, q.ref, between))
      && (reply == Completed(Complete) || reply == Rejected <==>
            !RenewedIn(c, y, q.ref, between) && !z.server.tasks[q.ref.task].cancelRequested)
  {
    hide Inv, Open, Stalled, Step, RenewedIn, SubmitResult, CompleteTask, Exec;
    AfterAccepted(c, before, q, between);
    var z := Exec(c, Step(c, Exec(c, START, before), SendResult(q)), between);
    ReplyExactly(c, z, q.ref, q.observation);
  }

  // THEOREM. A completion that is taken up delivers the accepted result itself, whatever was
  // sent in between: the task completes unless the result can neither be mapped nor excused.
  lemma {:induction false} ResultThenComplete(c: Config, before: seq<Action>, q: ResultRequest, between: seq<Action>)
    requires var x := Exec(c, START, before); SubmitResult(x.server, q, x.now).1 == Accepted
    requires var y := Step(c, Exec(c, START, before), SendResult(q));
      var z := Exec(c, y, between);
      && ValidLease(z.server, q.ref, z.now) && !z.server.tasks[q.ref.task].cancelRequested
      && !RenewedIn(c, y, q.ref, between)
    ensures var z := Exec(c, Step(c, Exec(c, START, before), SendResult(q)), between);
      var (s', reply) := CompleteTask(z.server, Done(q.ref), z.now);
      var excused := ReportsNoData(z.server.tasks[q.ref.task], q.ref.task, q.observation);
      && (reply == Completed(Complete) <==> excused || q.observation.mapped.Some?)
      && (reply == Rejected <==> !excused && q.observation.mapped.None?)
      && s'.tasks[q.ref.task].state == (if reply == Rejected then Failed else Complete)
      && |s'.deliveries| == |z.server.deliveries| + 1
      && var d := s'.deliveries[|z.server.deliveries|];
         && d.task == q.ref.task && d.attempt == q.ref.attempt
         && (reply == Completed(Complete) && !excused ==>
               && |d.itemOps| == |q.observation.mapped.value.items| && |d.relationOps| == |q.observation.mapped.value.relations|
               && forall k :: k in q.observation.mapped.value.items ==> k in s'.items)
  {
    hide Inv, Open, Step, RenewedIn, SubmitResult, CompleteTask, Exec, ReportsNoData;
    AfterAccepted(c, before, q, between);
    var z := Exec(c, Step(c, Exec(c, START, before), SendResult(q)), between);
    KnownTask(c, z, q.ref);
    OpenCompletes(z.server, q.ref, q.observation, z.now);
  }

  lemma {:induction false} KnownTask(c: Config, z: System, ref: LeaseRef)
    requires Inv(c, z) && ref.task in z.server.tasks
    ensures TaskOK(ref.task, z.server.tasks[ref.task])
  {
    hide Shape, Unique, RunsOK, ResultsOK, DeliveriesOK, ConservationOK, AttemptsOK, LimitsOK, TimesOK, SentOK;
  }

  // THEOREM (stalled attempts). Once a renewal was granted after an accepted result, at any
  // moment, that attempt of the task never completes, whatever happens afterwards.
  lemma {:induction false} RenewalStallsAttempt(c: Config, before: seq<Action>, q: ResultRequest, after: seq<Action>)
    requires var x := Exec(c, START, before); SubmitResult(x.server, q, x.now).1 == Accepted
    requires RenewedIn(c, Step(c, Exec(c, START, before), SendResult(q)), q.ref, after)
    ensures var z := Exec(c, Step(c, Exec(c, START, before), SendResult(q)), after).server;
      var t := q.ref.task;
      t in z.tasks && (z.tasks[t].attempt == q.ref.attempt.number ==> z.tasks[t].state != Complete)
  {
    hide Inv, Open, Step, RenewedIn, SubmitResult, Exec;
    AfterAccepted(c, before, q, after);
  }
}
