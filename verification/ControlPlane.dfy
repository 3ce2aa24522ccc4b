// The task control plane (internal/worker/controlsim/server.go): its state, and each handler
// as a function from the state before a request to the state after it and the reply.
// Times are numbers of nanoseconds. Ids are the counter values that the source prints into
// zero-padded names.
module ControlPlane {
  import opened Wrappers

  type RunId = nat
  type TaskId = nat
  type WorkerId = nat
  type Time = nat
  type Token = nat
  type ItemKey = string
  type RelationKey = string

  const TASK_LIFETIME: Time := 600000000000
  const MAX_PARTITIONS := 100000
  const MAX_WORKER_CONCURRENCY := 32
  const MAX_OBSERVATION_BYTES := 0x100000
  const MAX_FAILURE_BYTES := 4096

  datatype Operation = LocalV1 | SSHLinuxV1 | WinRMWindowsV1

  datatype TaskState = Ready | Leased | Running | ResultsReceived | Complete | Failed | Cancelled
  datatype RunState = RunReady | RunRunning | RunCancelling | RunComplete | RunFailed | RunCancelled

  // Attempt ids are printed from the task and its attempt number.
  datatype AttemptId = AttemptId(task: TaskId, number: nat)

  // Worker, boot, attempt and token digest are always set together and cleared together.
  datatype Holder = Holder(worker: WorkerId, boot: string, attempt: AttemptId, token: Token)

  datatype Task = Task(
    run: RunId, pool: string, operation: Operation, state: TaskState, attempt: nat, holder: Option<Holder>,
    expires: Time, deadline: Time, chunkCount: nat, cancelRequested: bool, error: string)

  datatype Run = Run(
    state: RunState, taskIDs: seq<TaskId>, assets: nat, relationships: nat, collectionErrors: nat,
    attempts: nat, error: string)

  datatype Worker = Worker(boot: string, pool: string, capabilities: seq<Operation>, maxConcurrency: nat, currentLeases: nat)

  datatype ResultKey = ResultKey(task: TaskId, attempt: AttemptId)
  datatype Stored = Stored(observation: Option<Observation>, processedAt: Option<Time>, terminal: TaskState, deleted: bool)

  // What the ServiceNow library reads in an observation: a no-data report of a plugin for a
  // job, and the items and relations it maps to, if it maps.
  datatype NoData = NoData(plugin: Operation, job: TaskId, errors: nat)
  datatype Mapped = Mapped(items: seq<ItemKey>, relations: seq<RelationKey>)
  datatype Observation = Observation(noData: Option<NoData>, mapped: Option<Mapped>)

  datatype Op = INSERT | NO_CHANGE
  datatype Delivery = Delivery(
    run: RunId, task: TaskId, attempt: AttemptId, preflighted: bool, applied: bool, noData: bool,
    itemOps: seq<Op>, relationOps: seq<Op>)

  datatype Config = Config(leaseDuration: Time, successTTL: Time, failureTTL: Time, poolMaxLeases: nat)

  datatype State = State(
    tasks: map<TaskId, Task>, runs: map<RunId, Run>, workers: map<WorkerId, Worker>,
    results: map<ResultKey, Stored>, items: set<ItemKey>, relations: set<RelationKey>,
    deliveries: seq<Delivery>, nextID: nat, renewAvailable: bool)

  const EMPTY := State(map[], map[], map[], map[], {}, {}, [], 0, true)

  predicate Active(s: TaskState) { s == Leased || s == Running || s == ResultsReceived }
  predicate Final(s: TaskState) { s == Complete || s == Failed || s == Cancelled }
  predicate RunFinal(s: RunState) { s == RunComplete || s == RunFailed || s == RunCancelled }

  function Min(a: Time, b: Time): Time { if a <= b then a else b }

  // ----- runs

  predicate SomeTask(ids: seq<TaskId>, tasks: map<TaskId, Task>, p: TaskState -> bool) {
    exists t :: t in ids && t in tasks && p(tasks[t].state)
  }

  predicate Unfinished(s: TaskState) { !Final(s) }
  predicate IsFailed(s: TaskState) { s == Failed }
  predicate IsCancelled(s: TaskState) { s == Cancelled }

  function RefreshedState(run: Run, tasks: map<TaskId, Task>): RunState {
    if SomeTask(run.taskIDs, tasks, Unfinished) then
      if run.state == RunCancelling then RunCancelling else RunRunning
    else if SomeTask(run.taskIDs, tasks, IsFailed) then RunFailed
    else if SomeTask(run.taskIDs, tasks, IsCancelled) then RunCancelled
    else RunComplete
  }

  function Refresh(run: Run, tasks: map<TaskId, Task>): Run {
    run.(state := RefreshedState(run, tasks))
  }

  // refreshRunLocked ignores a missing run.
  function RefreshRun(s: State, r: RunId): State {
    if r in s.runs then s.(runs := s.runs[r := Refresh(s.runs[r], s.tasks)]) else s
  }

  function NewTask(run: RunId, pool: string, operation: Operation, now: Time): Task {
    Task(run, pool, operation, Ready, 0, None, 0, now + TASK_LIFETIME, 0, false, "")
  }

  function CreateRun(s: State, pool: string, operation: Operation, partitions: nat, now: Time): (State, Option<RunId>) {
    if partitions < 1 || partitions > MAX_PARTITIONS then (s, None)
    else
      var r := s.nextID + 1;
      var ids := seq(partitions, i requires 0 <= i < partitions => r + 1 + i);
      var created := map t | t in ids :: NewTask(r, pool, operation, now);
      (s.(runs := s.runs[r := Run(RunReady, ids, 0, 0, 0, 0, "")], tasks := s.tasks + created, nextID := r + partitions), Some(r))
  }

  function Rank(o: Operation): nat {
    match o case LocalV1 => 0 case SSHLinuxV1 => 1 case WinRMWindowsV1 => 2
  }

  // One to three operations, none repeated, in the canonical order.
  predicate ValidCapabilities(values: seq<Operation>) {
    1 <= |values| <= 3 && forall i, j :: 0 <= i < j < |values| ==> Rank(values[i]) < Rank(values[j])
  }

  function Register(s: State, boot: string, pool: string, site: string, capabilities: seq<Operation>, maxConcurrency: int)
    : (State, Option<WorkerId>)
  {
    var limit := if maxConcurrency == 0 then 1 else maxConcurrency;
    if boot == "" || pool == "" || site == "" || !ValidCapabilities(capabilities) || limit < 1 || limit > MAX_WORKER_CONCURRENCY
    then (s, None)
    else
      var w := s.nextID + 1;
      (s.(workers := s.workers[w := Worker(boot, pool, capabilities, limit, 0)], nextID := w), Some(w))
  }

  function CancelTask(task: Task): Task {
    if task.state == Ready then task.(state := Cancelled)
    else if Active(task.state) then task.(cancelRequested := true)
    else task
  }

  function CancelRun(s: State, r: RunId): (State, bool) {
    if r !in s.runs || RunFinal(s.runs[r].state) then (s, false)
    else
      var ids := s.runs[r].taskIDs;
      var tasks := map t | t in s.tasks :: if t in ids then CancelTask(s.tasks[t]) else s.tasks[t];
      var active := SomeTask(ids, s.tasks, Active);
      (s.(tasks := tasks, runs := s.runs[r := s.runs[r].(state := if active then RunCancelling else RunCancelled)]), true)
  }

  // ----- leases

  datatype LeaseRef = LeaseRef(task: TaskId, worker: WorkerId, boot: string, attempt: AttemptId, token: Token)

  predicate ValidLease(s: State, ref: LeaseRef, now: Time) {
    && ref.task in s.tasks
    && var task := s.tasks[ref.task];
       && Active(task.state)
       && task.holder == Some(Holder(ref.worker, ref.boot, ref.attempt, ref.token))
       && task.expires > now
  }

  predicate Lapsed(task: Task, now: Time) {
    Active(task.state) && task.expires <= now
  }

  function Reap(task: Task, now: Time): Task {
    if Lapsed(task, now) then
      task.(state := if task.cancelRequested then Cancelled else Ready, holder := None, cancelRequested := false)
    else task
  }

  function ReapTasks(tasks: map<TaskId, Task>, now: Time): map<TaskId, Task> {
    map t | t in tasks :: Reap(tasks[t], now)
  }

  predicate RunLapsed(tasks: map<TaskId, Task>, r: RunId, now: Time) {
    exists t :: t in tasks && tasks[t].run == r && Lapsed(tasks[t], now)
  }

  // Every lapsed lease is taken back and its run refreshed.
  function ReapAll(s: State, now: Time): State {
    var tasks := ReapTasks(s.tasks, now);
    s.(tasks := tasks,
       runs := map r | r in s.runs :: if RunLapsed(s.tasks, r, now) then Refresh(s.runs[r], tasks) else s.runs[r])
  }

  function WorkerLeases(tasks: map<TaskId, Task>, w: WorkerId): set<TaskId> {
    set t | t in tasks && Active(tasks[t].state) && tasks[t].holder.Some? && tasks[t].holder.value.worker == w
  }

  function PoolLeases(tasks: map<TaskId, Task>, pool: string): set<TaskId> {
    set t | t in tasks && Active(tasks[t].state) && tasks[t].pool == pool
  }

  function Claimable(s: State, worker: Worker): set<TaskId> {
    set t | t in s.tasks && s.tasks[t].state == Ready && s.tasks[t].pool == worker.pool
            && s.tasks[t].operation in worker.capabilities
  }

  ghost predicate Least(t: TaskId, ids: set<TaskId>) {
    t in ids && forall u :: u in ids ==> t <= u
  }

  datatype ClaimRequest = ClaimRequest(worker: WorkerId, boot: string, capabilities: seq<Operation>, currentLeases: int)
  datatype ClaimReply = Forbidden | NoTask | Claimed(ref: LeaseRef, expires: Time, deadline: Time)

  predicate ClaimAllowed(s: State, q: ClaimRequest) {
    && q.worker in s.workers
    && var w := s.workers[q.worker];
       w.boot == q.boot && q.capabilities == w.capabilities && 0 <= q.currentLeases <= w.maxConcurrency
  }

  // The state in which a claim looks for work: lapsed leases reaped, the worker's count refreshed.
  function BeforeClaim(s: State, w: WorkerId, now: Time): State
    requires w in s.workers
  {
    var reaped := ReapAll(s, now);
    reaped.(workers := s.workers[w := s.workers[w].(currentLeases := |WorkerLeases(reaped.tasks, w)|)])
  }

  predicate Full(c: Config, s: State, w: WorkerId)
    requires w in s.workers
  {
    s.workers[w].currentLeases >= s.workers[w].maxConcurrency || |PoolLeases(s.tasks, s.workers[w].pool)| >= c.poolMaxLeases
  }

  // Lease task t to worker w; the lease ends no later than the task's deadline.
  function Grant(c: Config, s: State, w: WorkerId, t: TaskId, token: Token, now: Time): (State, ClaimReply)
    requires w in s.workers && t in s.tasks
  {
    var task := s.tasks[t];
    var attempt := AttemptId(t, task.attempt + 1);
    var boot := s.workers[w].boot;
    var expires := Min(now + c.leaseDuration, task.deadline);
    var leased := task.(attempt := task.attempt + 1, holder := Some(Holder(w, boot, attempt, token)), expires := expires, state := Leased);
    var runs := if task.run in s.runs
                then s.runs[task.run := s.runs[task.run].(state := RunRunning, attempts := s.runs[task.run].attempts + 1)]
                else s.runs;
    (s.(tasks := s.tasks[t := leased], runs := runs,
        workers := s.workers[w := s.workers[w].(currentLeases := s.workers[w].currentLeases + 1)]),
     Claimed(LeaseRef(t, w, boot, attempt, token), expires, task.deadline))
  }

  function LeastOf(ids: set<TaskId>): (t: TaskId)
    requires ids != {}
    ensures Least(t, ids)
  {
    LeastExists(ids);
    var t :| t in ids && forall u :: u in ids ==> t <= u;
    t
  }

  lemma {:induction false} LeastExists(ids: set<TaskId>)
    requires ids != {}
    ensures exists t :: t in ids && forall u :: u in ids ==> t <= u
  {
    var t :| t in ids;
    if ids != {t} {
      LeastExists(ids - {t});
      var m :| m in ids - {t} && forall u :: u in ids - {t} ==> m <= u;
      var least := if t <= m then t else m;
      assert forall u :: u in ids ==> u == t || u in ids - {t};
      assert least in ids && forall u :: u in ids ==> least <= u;
    }
  }

  function Claim(c: Config, s: State, q: ClaimRequest, token: Token, now: Time): (State, ClaimReply) {
    if !ClaimAllowed(s, q) then (s, Forbidden)
    else
      var ready := BeforeClaim(s, q.worker, now);
      if Full(c, ready, q.worker) then (ready, NoTask)
      else
        var ids := Claimable(ready, ready.workers[q.worker]);
        if ids == {} then (ready, NoTask)
        else Grant(c, ready, q.worker, LeastOf(ids), token, now)
  }

  datatype RenewReply = Unavailable | LeaseConflict | RenewedCancelled(expires: Time) | Renewed(expires: Time)

  // The source reads the clock twice: to check the lease and, later, to extend it.
  function Renew(c: Config, s: State, ref: LeaseRef, now: Time, later: Time): (State, RenewReply) {
    if !s.renewAvailable then (s, Unavailable)
    else if !ValidLease(s, ref, now) then (s, LeaseConflict)
    else
      var task := s.tasks[ref.task];
      if task.cancelRequested then (s, RenewedCancelled(task.expires))
      else
        var expires := Min(later + c.leaseDuration, task.deadline);
        (s.(tasks := s.tasks[ref.task := task.(expires := expires, state := Running)]), Renewed(expires))
  }

  datatype ResultRequest = ResultRequest(ref: LeaseRef, chunkNumber: int, chunkCount: int, length: nat, checksumMatches: bool, observation: Observation)
  datatype ResultReply = BadResult | ResultLeaseConflict | TaskCancelled | IdempotencyConflict | Duplicate | Accepted

  function SubmitResult(s: State, q: ResultRequest, now: Time): (State, ResultReply) {
    if q.chunkNumber != 0 || q.chunkCount != 1 || q.length == 0 || q.length > MAX_OBSERVATION_BYTES || !q.checksumMatches then (s, BadResult)
    else if !ValidLease(s, q.ref, now) then (s, ResultLeaseConflict)
    else
      var task := s.tasks[q.ref.task];
      var key := ResultKey(q.ref.task, q.ref.attempt);
      if task.cancelRequested then (s, TaskCancelled)
      else if key in s.results then
        if s.results[key].observation != Some(q.observation) then (s, IdempotencyConflict) else (s, Duplicate)
      else
        (s.(results := s.results[key := Stored(Some(q.observation), None, Ready, false)],
            tasks := s.tasks[q.ref.task := task.(state := ResultsReceived, chunkCount := 1)]), Accepted)
  }

  datatype Failure = Failure(code: string, messageLength: nat)
  datatype CompleteRequest = CompleteRequest(ref: LeaseRef, success: bool, failure: Option<Failure>, chunkCount: int)
  datatype CompleteReply = BadFailure | CompleteLeaseConflict | ChunksIncomplete | CompleteCancelled | Rejected | Completed(task: TaskState)
                         | MissingResult

  // Insert each key that is not there yet.
  function ApplyKeys(keys: seq<string>, known: set<string>): (seq<Op>, set<string>) {
    if keys == [] then ([], known)
    else
      var (ops, after) := ApplyKeys(keys[1..], known + {keys[0]});
      ([if keys[0] in known then NO_CHANGE else INSERT] + ops, after)
  }

  // Set the task's final state, refresh its run, record the delivery and the processed result.
  function Finish(s: State, ref: LeaseRef, outcome: TaskState, error: string, delivery: Delivery, now: Time): State
    requires ref.task in s.tasks && ResultKey(ref.task, ref.attempt) in s.results
  {
    var task := s.tasks[ref.task].(state := outcome, error := error);
    var key := ResultKey(ref.task, ref.attempt);
    var done := s.results[key].(processedAt := Some(now), terminal := outcome);
    RefreshRun(s.(tasks := s.tasks[ref.task := task]), task.run)
      .(results := s.results[key := done], deliveries := s.deliveries + [delivery])
  }

  function AddToRun(s: State, r: RunId, items: nat, relations: nat, errors: nat): State {
    if r in s.runs then
      var run := s.runs[r];
      s.(runs := s.runs[r := run.(assets := run.assets + items, relationships := run.relationships + relations,
                                  collectionErrors := run.collectionErrors + errors)])
    else s
  }

  function SetRunError(s: State, r: RunId, error: string): State {
    if r in s.runs then s.(runs := s.runs[r := s.runs[r].(error := error)]) else s
  }

  function FailureState(task: Task, code: string): TaskState {
    if task.cancelRequested || code == "cancelled" then Cancelled else Failed
  }

  function CompleteFailure(s: State, q: CompleteRequest): (State, CompleteReply)
    requires q.ref.task in s.tasks
  {
    if q.failure.None? || q.failure.value.code == "" || q.failure.value.messageLength > MAX_FAILURE_BYTES then (s, BadFailure)
    else
      var task := s.tasks[q.ref.task];
      var outcome := FailureState(task, q.failure.value.code);
      var error := if outcome == Cancelled then "cancelled" else q.failure.value.code;
      var ended := task.(state := outcome, error := error, cancelRequested := false);
      (RefreshRun(s.(tasks := s.tasks[q.ref.task := ended]), task.run), Completed(outcome))
  }

  predicate ReportsNoData(task: Task, id: TaskId, o: Observation) {
    task.operation != LocalV1 && o.noData.Some? && o.noData.value.plugin == task.operation
    && o.noData.value.job == id && o.noData.value.errors > 0
  }

  function Deliver(s: State, ref: LeaseRef, o: Observation, now: Time): (State, CompleteReply)
    requires ref.task in s.tasks && ResultKey(ref.task, ref.attempt) in s.results
  {
    var task := s.tasks[ref.task];
    if ReportsNoData(task, ref.task, o) then
      var delivery := Delivery(task.run, ref.task, ref.attempt, false, false, true, [], []);
      (Finish(AddToRun(s, task.run, 0, 0, o.noData.value.errors), ref, Complete, task.error, delivery, now), Completed(Complete))
    else if o.mapped.None? then
      var delivery := Delivery(task.run, ref.task, ref.attempt, true, false, false, [], []);
      (Finish(SetRunError(s, task.run, "ire_preflight_failed"), ref, Failed, "ire_preflight_failed", delivery, now), Rejected)
    else
      var payload := o.mapped.value;
      var (itemOps, items) := ApplyKeys(payload.items, s.items);
      var (relationOps, relations) := ApplyKeys(payload.relations, s.relations);
      var delivery := Delivery(task.run, ref.task, ref.attempt, true, true, false, itemOps, relationOps);
      var applied := AddToRun(s.(items := items, relations := relations), task.run, |payload.items|, |payload.relations|, 0);
      (Finish(applied, ref, Complete, task.error, delivery, now), Completed(Complete))
  }

  function CompleteTask(s: State, q: CompleteRequest, now: Time): (State, CompleteReply) {
    if !ValidLease(s, q.ref, now) then (s, CompleteLeaseConflict)
    else if !q.success then CompleteFailure(s, q)
    else
      var task := s.tasks[q.ref.task];
      var key := ResultKey(q.ref.task, q.ref.attempt);
      if q.chunkCount != 1 || task.state != ResultsReceived then (s, ChunksIncomplete)
      else if task.cancelRequested then (s, CompleteCancelled)
      else if key !in s.results || s.results[key].observation.None? then (s, MissingResult)
      else Deliver(s, q.ref, s.results[key].observation.value, now)
  }

  // ----- retention

  predicate Expired(c: Config, r: Stored, now: Time) {
    !r.deleted && r.processedAt.Some? && now >= r.processedAt.value + (if r.terminal == Complete then c.successTTL else c.failureTTL)
  }

  // A cleanup deletes some of the expired results; the map order chooses which.
  function Cleanup(c: Config, s: State, chosen: set<ResultKey>, now: Time): State {
    s.(results := map k | k in s.results ::
        if k in chosen && Expired(c, s.results[k], now) then s.results[k].(observation := None, deleted := true) else s.results[k])
  }
}
