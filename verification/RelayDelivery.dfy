// Delivering discovery results through the relay's spool (internal/relay/run.go, spool.go).
//
// One process works through a drain, a poll and the polled job, one call at a time. A call may
// fail, and the process may crash between any two; a spool write or removal happens whole or
// not at all.
module RelayDelivery {
  import opened Wrappers
  import opened Sorting

  const MAX_JOBS_PER_POLL := 1
  const MAX_PUBLISH_ATTEMPTS := 3
  const MAX_RESULT_ERROR_BYTES := 4096

  datatype Job = Job(id: string, profile: string)
  datatype Observation = Observation(id: string, assets: nat, relationships: nat, errors: nat)

  // run numbers the executions, so that two of one job are told apart.
  datatype Delivery = Delivery(
    run: nat, job: Job, relay: string, startedAt: int, completedAt: int, observation: Option<Observation>,
    discoveryError: string, published: bool, attempts: nat, publicationError: string)

  datatype JobResult = JobResult(
    jobID: string, relay: string, profile: string, startedAt: int, completedAt: int,
    observation: Option<Observation>, success: bool, error: string)

  function Truncate(s: string): string {
    if |s| <= MAX_RESULT_ERROR_BYTES then s else s[..MAX_RESULT_ERROR_BYTES] + "..."
  }

  function ResultFor(d: Delivery, override: Option<string>): JobResult {
    var error :=
      if override.Some? then Truncate(override.value)
      else if d.discoveryError != "" then d.discoveryError
      else if d.publicationError != "" then d.publicationError
      else if d.published then ""
      else "observation was not published";
    var success := override.None? && d.discoveryError == "" && d.publicationError == "" && d.published;
    JobResult(d.job.id, d.relay, d.job.profile, d.startedAt, d.completedAt, d.observation, success, error)
  }

  datatype Report = Report(run: nat, result: JobResult, acknowledged: bool)

  // What follows a drain: polling, or the rest of the polled jobs.
  datatype Then = Poll | Jobs(rest: seq<Job>)

  datatype Pc =
    | Idle
    | Listing(next: Then)
    | Draining(names: seq<string>, next: Then)
    | Publishing(name: string, delivery: Delivery, names: seq<string>, next: Then)
    | Replacing(name: string, delivery: Delivery, failed: bool, names: seq<string>, next: Then)
    | Reporting(name: string, delivery: Delivery, names: seq<string>, next: Then)
    | Removing(name: string, names: seq<string>, next: Then)
    | Polling
    | Running(jobs: seq<Job>)
    | Enqueuing(delivery: Delivery, rest: seq<Job>)
    | ReportingLost(delivery: Delivery, error: string, rest: seq<Job>)

  datatype Outcome = Discovered(observation: Observation) | Failed(error: string)

  // What the proofs remember: of each run, the job executed and its outcome; of each publish, how
  // it ended and the how-manieth of its delivery it was.
  datatype Execution = Execution(job: Job, relay: string, startedAt: int, completedAt: int, outcome: Outcome)
  datatype Attempt = Attempt(run: nat, ok: bool, retryable: bool, error: string, number: nat)

  // kept: the runs whose delivery was spooled; published: those that a publish accepted.
  datatype World = World(
    spool: map<string, Delivery>, pc: Pc, runs: nat, kept: set<nat>, published: set<nat>, reports: seq<Report>,
    executed: seq<Execution>, attempts: seq<Attempt>)

  const START := World(map[], Idle, 0, {}, {}, [], [], [])

  datatype Action =
    | Crash
    | Proceed(ok: bool, retryable: bool, error: string, name: string, jobs: seq<Job>, outcome: Outcome,
              relay: string, startedAt: int, completedAt: int)

  function NewDelivery(run: nat, job: Job, a: Action): Delivery
    requires a.Proceed?
  {
    Delivery(run, job, a.relay, a.startedAt, a.completedAt,
             if a.outcome.Discovered? then Some(a.outcome.observation) else None,
             if a.outcome.Failed? then Truncate(a.outcome.error) else "", false, 0, "")
  }

  function DrainEnds(w: World, next: Then, drained: bool): World {
    w.(pc := match next
             case Poll => if drained then Polling else Idle
             case Jobs(rest) => Running(rest))
  }

  function AfterPublish(d: Delivery, a: Action): Delivery
    requires a.Proceed?
  {
    var d := d.(attempts := d.attempts + 1);
    if a.ok then d.(published := true)
    else if !a.retryable || d.attempts >= MAX_PUBLISH_ATTEMPTS then d.(publicationError := Truncate(a.error))
    else d
  }

  predicate NeedsPublishing(d: Delivery) {
    d.observation.Some? && !d.published && d.publicationError == ""
  }

  ghost function Proceeding(w: World, a: Action): World
    requires a.Proceed?
  {
    match w.pc
    case Idle => w.(pc := Listing(Poll))
    case Listing(next) =>
      if a.ok then w.(pc := Draining(InOrder(w.spool.Keys), next)) else DrainEnds(w, next, false)
    case Draining(names, next) =>
      if names == [] then DrainEnds(w, next, true)
      else if !a.ok || names[0] !in w.spool then DrainEnds(w, next, false)
      else
        var d := w.spool[names[0]];
        w.(pc := if NeedsPublishing(d) then Publishing(names[0], d, names[1..], next) else Reporting(names[0], d, names[1..], next))
    case Publishing(name, d, names, next) =>
      w.(published := if a.ok then w.published + {d.run} else w.published,
         attempts := w.attempts + [Attempt(d.run, a.ok, a.retryable, a.error, d.attempts + 1)],
         pc := Replacing(name, AfterPublish(d, a), !a.ok, names, next))
    case Replacing(name, d, failed, names, next) =>
      if !a.ok || name !in w.spool then DrainEnds(w, next, false)
      else
        var w := w.(spool := w.spool[name := d]);
        if failed && d.publicationError == "" then DrainEnds(w, next, false) else w.(pc := Reporting(name, d, names, next))
    case Reporting(name, d, names, next) =>
      var w := w.(reports := w.reports + [Report(d.run, ResultFor(d, None), a.ok)]);
      if a.ok then w.(pc := Removing(name, names, next)) else DrainEnds(w, next, false)
    case Removing(name, names, next) =>
      if a.ok then w.(spool := w.spool - {name}, pc := Draining(names, next)) else DrainEnds(w, next, false)
    case Polling =>
      if a.ok && |a.jobs| <= MAX_JOBS_PER_POLL then w.(pc := Running(a.jobs)) else w.(pc := Idle)
    case Running(jobs) =>
      if jobs == [] then w.(pc := Idle)
      else w.(runs := w.runs + 1,
              executed := w.executed + [Execution(jobs[0], a.relay, a.startedAt, a.completedAt, a.outcome)],
              pc := Enqueuing(NewDelivery(w.runs, jobs[0], a), jobs[1..]))
    case Enqueuing(d, rest) =>
      if a.ok then w.(spool := w.spool[a.name := d], kept := w.kept + {d.run}, pc := Listing(Jobs(rest)))
      else w.(pc := ReportingLost(d, a.error, rest))
    case ReportingLost(d, error, rest) =>
      w.(reports := w.reports + [Report(d.run, ResultFor(d, Some(NOT_RETAINED + error)), a.ok)],
         pc := Running(rest))
  }

  ghost function Step(w: World, a: Action): World {
    if a.Crash? then w.(pc := Idle) else Proceeding(w, a)
  }

  ghost function Exec(w: World, actions: seq<Action>): World
    decreases |actions|
  {
    if actions == [] then w else Exec(Step(w, actions[0]), actions[1..])
  }

  // ----- the invariant

  ghost predicate Reported(w: World, run: nat) {
    exists i :: 0 <= i < |w.reports| && w.reports[i].run == run
  }

  ghost predicate Acknowledged(w: World, run: nat) {
    exists i :: 0 <= i < |w.reports| && w.reports[i].run == run && w.reports[i].acknowledged
  }

  ghost predicate Spooled(w: World, run: nat) {
    exists name :: name in w.spool && w.spool[name].run == run
  }

  // A publish that was not to be repeated, or the third at least, failed with this error.
  predicate Refusal(t: Attempt, run: nat, error: string) {
    && t.run == run && !t.ok && (!t.retryable || t.number >= 3)
    && error == if |t.error| <= 4096 then t.error else t.error[..4096] + "..."
  }

  ghost predicate Refused(w: World, run: nat, error: string) {
    exists i :: 0 <= i < |w.attempts| && Refusal(w.attempts[i], run, error)
  }

  // A delivery holds what its execution gave, and what publishing it came to.
  ghost predicate DeliveryOK(w: World, d: Delivery) {
    && d.run < w.runs == |w.executed| && (d.published ==> d.run in w.published)
    && Holds(w.executed[d.run], d) && (d.publicationError != "" ==> Refused(w, d.run, d.publicationError))
    && (d.observation.None? ==> !d.published && d.publicationError == "")
  }

  predicate Holds(x: Execution, d: Delivery) {
    && d.job == x.job && d.relay == x.relay && d.startedAt == x.startedAt && d.completedAt == x.completedAt
    && d.observation == (if x.outcome.Discovered? then Some(x.outcome.observation) else None)
    && d.discoveryError == if x.outcome.Discovered? then "" else Shown(x.outcome.error)
  }

  // Error texts are reported up to 4096 bytes.
  function Shown(error: string): string { if |error| <= 4096 then error else error[..4096] + "..." }

  const NOT_RETAINED := "retain job result in encrypted spool: "

  // A report names the executed job and says what became of it.
  ghost predicate Says(w: World, r: Report) {
    && r.run < |w.executed|
    && var x, result := w.executed[r.run], r.result;
       && result.jobID == x.job.id && result.profile == x.job.profile && result.relay == x.relay
       && result.startedAt == x.startedAt && result.completedAt == x.completedAt
       && result.observation == (if x.outcome.Discovered? then Some(x.outcome.observation) else None)
       && (result.success ==> result.error == "" && x.outcome.Discovered? && r.run in w.published)
       && (!result.success ==> Cause(w, r.run, x, result.error))
  }

  ghost predicate Cause(w: World, run: nat, x: Execution, error: string) {
    || (run !in w.kept && exists e: string :: error == Shown(NOT_RETAINED + e))
    || (x.outcome.Failed? && x.outcome.error != "" && error == Shown(x.outcome.error))
    || (x.outcome.Failed? && x.outcome.error == "" && error == "observation was not published")
    || (x.outcome.Discovered? && error != "" && Refused(w, run, error))
  }

  // One entry at most; what was reported of it is final.
  ghost predicate SpoolOK(w: World) {
    && (forall a, b :: a in w.spool && b in w.spool ==> a == b)
    && (forall name :: name in w.spool ==> DeliveryOK(w, w.spool[name]) && w.spool[name].run in w.kept)
    && (forall name, i :: name in w.spool && 0 <= i < |w.reports| && w.reports[i].run == w.spool[name].run ==>
          !NeedsPublishing(w.spool[name]) && w.reports[i].result == ResultFor(w.spool[name], None))
  }

  ghost predicate ReportsOK(w: World) {
    && w.runs == |w.executed|
    && (forall i :: 0 <= i < |w.reports| ==> Says(w, w.reports[i]))
    && (forall i, j :: 0 <= i < |w.reports| && 0 <= j < |w.reports| && w.reports[i].run == w.reports[j].run ==>
          w.reports[i].result == w.reports[j].result)
    && (forall run :: run in w.kept ==> run < w.runs && (Spooled(w, run) || Acknowledged(w, run)))
  }

  // The names still to drain are those of the spool.
  ghost predicate Names(w: World, names: seq<string>, next: Then) {
    NoDuplicates(names) && (forall name :: name in w.spool <==> name in names) && (next.Jobs? ==> next.rest == [])
  }

  ghost predicate Pending(w: World, name: string, run: nat, names: seq<string>, next: Then) {
    Names(w, [name] + names, next) && name in w.spool && w.spool[name].run == run
  }

  // A run that is neither spooled nor reported.
  ghost predicate Unsettled(w: World, d: Delivery, rest: seq<Job>) {
    && w.spool == map[] && rest == [] && d.run < w.runs && d.run !in w.kept
    && !Reported(w, d.run) && !d.published && DeliveryOK(w, d) && d.publicationError == ""
  }

  ghost predicate PcOK(w: World) {
    match w.pc
    case Idle => true
    case Listing(next) => next.Jobs? ==> next.rest == []
    case Draining(names, next) => Names(w, names, next)
    case Publishing(name, d, names, next) =>
      Pending(w, name, d.run, names, next) && w.spool[name] == d && NeedsPublishing(d)
    case Replacing(name, d, _, names, next) =>
      && Pending(w, name, d.run, names, next) && NeedsPublishing(w.spool[name]) && DeliveryOK(w, d)
      && (w.pc.failed ==> !d.published)
      && (!w.pc.failed ==> d.published)
    case Reporting(name, d, names, next) =>
      Pending(w, name, d.run, names, next) && w.spool[name] == d && !NeedsPublishing(d)
    case Removing(name, names, next) =>
      Names(w, [name] + names, next) && name in w.spool && Acknowledged(w, w.spool[name].run)
    case Polling => w.spool == map[]
    case Running(jobs) => jobs == [] || (w.spool == map[] && |jobs| == 1)
    case Enqueuing(d, rest) => Unsettled(w, d, rest)
    case ReportingLost(d, _, rest) => Unsettled(w, d, rest)
  }

  ghost predicate Settled(w: World) { SpoolOK(w) && ReportsOK(w) }

  ghost predicate Inv(w: World) { Settled(w) && PcOK(w) }

  lemma {:induction false} MoveTo(w: World, pc: Pc)
    requires Settled(w) && PcOK(w.(pc := pc))
    ensures Inv(w.(pc := pc))
  {
    var w' := w.(pc := pc);
    assert forall run: nat :: (Spooled(w, run) ==> Spooled(w', run)) && (Acknowledged(w, run) ==> Acknowledged(w', run));
  }

  lemma {:induction false} DrainEndsKeeps(w: World, next: Then, drained: bool)
    requires Settled(w) && (next.Jobs? ==> next.rest == []) && (drained ==> w.spool == map[])
    ensures Inv(DrainEnds(w, next, drained))
  {
    hide SpoolOK, ReportsOK;
    MoveTo(w, DrainEnds(w, next, drained).pc);
  }

  lemma {:induction false} ReportGrows(w: World, r: Report)
    ensures var w' := w.(reports := w.reports + [r]);
      && (forall run: nat :: Acknowledged(w', run) <==> Acknowledged(w, run) || (run == r.run && r.acknowledged))
      && (forall run: nat :: Spooled(w', run) <==> Spooled(w, run))
      && (forall run: nat :: Reported(w', run) <==> Reported(w, run) || run == r.run)
  {
    var w' := w.(reports := w.reports + [r]);
    assert w'.reports[|w.reports|] == r;
    forall run: nat | Acknowledged(w, run) ensures Acknowledged(w', run) {
      var i :| 0 <= i < |w.reports| && w.reports[i].run == run && w.reports[i].acknowledged;
      assert w'.reports[i] == w.reports[i];
    }
    forall run: nat | Reported(w, run) ensures Reported(w', run) {
      var i :| 0 <= i < |w.reports| && w.reports[i].run == run;
      assert w'.reports[i] == w.reports[i];
    }
  }

  // A report that agrees with the spool and with every earlier report of its run.
  lemma {:induction false} ReportKeeps(w: World, r: Report)
    requires Settled(w) && Says(w, r)
    requires forall name :: name in w.spool && w.spool[name].run == r.run ==>
      !NeedsPublishing(w.spool[name]) && r.result == ResultFor(w.spool[name], None)
    requires Reported(w, r.run) ==> Spooled(w, r.run)
    ensures Settled(w.(reports := w.reports + [r]))
  {
    hide NeedsPublishing, ResultFor;
    var w' := w.(reports := w.reports + [r]);
    ReportGrows(w, r);
    forall i | 0 <= i < |w.reports| && w.reports[i].run == r.run ensures w.reports[i].result == r.result {
      assert Reported(w, r.run);
      var name :| name in w.spool && w.spool[name].run == r.run;
    }
    assert SpoolOK(w');
  }

  lemma {:induction false} ListingKeeps(w: World, a: Action)
    requires Inv(w) && a.Proceed? && w.pc.Listing?
    ensures Inv(Proceeding(w, a))
  {
    hide SpoolOK, ReportsOK;
    InOrderCorrect(w.spool.Keys);
    DrainEndsKeeps(w, w.pc.next, false);
    MoveTo(w, Draining(InOrder(w.spool.Keys), w.pc.next));
  }

  lemma {:induction false} DrainingKeeps(w: World, a: Action)
    requires Inv(w) && a.Proceed? && w.pc.Draining?
    ensures Inv(Proceeding(w, a))
  {
    hide SpoolOK, ReportsOK;
    var Draining(names, next) := w.pc;
    DrainEndsKeeps(w, next, false);
    if names == [] {
      DrainEndsKeeps(w, next, true);
    } else if a.ok {
      assert [names[0]] + names[1..] == names;
      MoveTo(w, Proceeding(w, a).pc);
    }
  }

  lemma {:induction false} PublishingKeeps(w: World, a: Action)
    requires Inv(w) && a.Proceed? && w.pc.Publishing?
    ensures Inv(Proceeding(w, a))
  {
    hide ResultFor, Truncate;
    var Publishing(name, d, names, next) := w.pc;
    var w' := Proceeding(w, a);
    AttemptGrows(w, w', w'.attempts[|w.attempts|]);
    PublishSettles(w, w');
    hide SpoolOK, ReportsOK, Says, Refused;
    AfterPublishOK(w, w', d, a);
    assert NoDuplicates([name] + names);
  }

  lemma {:induction false} AttemptGrows(w: World, w': World, t: Attempt)
    requires w'.attempts == w.attempts + [t]
    ensures forall run: nat, error :: Refused(w, run, error) ==> Refused(w', run, error)
    ensures forall run: nat, error :: Refusal(t, run, error) ==> Refused(w', run, error)
  {
    assert w'.attempts[|w.attempts|] == t;
    forall run: nat, error | Refused(w, run, error) ensures Refused(w', run, error) {
      var i :| 0 <= i < |w.attempts| && Refusal(w.attempts[i], run, error);
      assert w'.attempts[i] == w.attempts[i];
    }
  }

  // More attempts and more accepted publishes settle no less.
  lemma {:induction false} PublishSettles(w: World, w': World)
    requires Settled(w) && w' == w.(pc := w'.pc, attempts := w'.attempts, published := w'.published) && w.published <= w'.published
    requires forall run: nat, error :: Refused(w, run, error) ==> Refused(w', run, error)
    ensures Settled(w')
  {
    hide Refused, ResultFor, NeedsPublishing;
    assert forall run: nat :: (Spooled(w, run) ==> Spooled(w', run)) && (Acknowledged(w, run) ==> Acknowledged(w', run));
    forall i | 0 <= i < |w'.reports| ensures Says(w', w'.reports[i]) {
      assert Says(w, w.reports[i]);
    }
    assert SpoolOK(w') && ReportsOK(w');
  }

  lemma {:induction false} AfterPublishOK(w: World, w': World, d: Delivery, a: Action)
    requires a.Proceed? && DeliveryOK(w, d) && NeedsPublishing(d)
    requires w' == w.(pc := w'.pc, attempts := w'.attempts, published := if a.ok then w.published + {d.run} else w.published)
    requires forall run: nat, error :: Refusal(Attempt(d.run, a.ok, a.retryable, a.error, d.attempts + 1), run, error) ==> Refused(w', run, error)
    ensures DeliveryOK(w', AfterPublish(d, a)) && (AfterPublish(d, a).published <==> a.ok)
  {
    hide Refused;
  }

  lemma {:induction false} ReplacingKeeps(w: World, a: Action)
    requires Inv(w) && a.Proceed? && w.pc.Replacing?
    ensures Inv(Proceeding(w, a))
  {
    hide ResultFor, Truncate;
    var Replacing(name, d, failed, names, next) := w.pc;
    DrainEndsKeeps(w, next, false);
    if a.ok {
      var w' := w.(spool := w.spool[name := d]);
      ReplaceSettles(w, name, d);
      hide SpoolOK, ReportsOK;
      DrainEndsKeeps(w', next, false);
      if !(failed && d.publicationError == "") { MoveTo(w', Reporting(name, d, names, next)); }
    }
  }

  lemma {:induction false} ReplaceSettles(w: World, name: string, d: Delivery)
    requires Settled(w) && name in w.spool && w.spool[name].run == d.run && NeedsPublishing(w.spool[name]) && DeliveryOK(w, d)
    ensures Settled(w.(spool := w.spool[name := d]))
  {
    hide ResultFor;
    var w' := w.(spool := w.spool[name := d]);
    forall run: nat | Spooled(w, run) ensures Spooled(w', run) {
      var n :| n in w.spool && w.spool[n].run == run;
      assert w'.spool[n].run == run;
    }
    assert forall run: nat :: Acknowledged(w, run) ==> Acknowledged(w', run);
    assert SpoolOK(w') && ReportsOK(w');
  }

  // What a settled delivery is reported as, field by field.
  lemma {:induction false} SpooledSays(w: World, d: Delivery, acknowledged: bool)
    requires DeliveryOK(w, d) && !NeedsPublishing(d)
    ensures Says(w, Report(d.run, ResultFor(d, None), acknowledged))
  {
    hide Refused;
  }

  lemma {:induction false} ReportingKeeps(w: World, a: Action)
    requires Inv(w) && a.Proceed? && w.pc.Reporting?
    ensures Inv(Proceeding(w, a))
  {
    var Reporting(name, d, names, next) := w.pc;
    var r := Report(d.run, ResultFor(d, None), a.ok);
    var w' := w.(reports := w.reports + [r]);
    assert forall n :: n in w.spool ==> n == name;
    assert Spooled(w, d.run) && DeliveryOK(w, d) && d.run in w.kept;
    SpooledSays(w, d, a.ok);
    ReportKeeps(w, r);
    ReportGrows(w, r);
    hide SpoolOK, ReportsOK;
    DrainEndsKeeps(w', next, false);
    if a.ok {
      assert w'.(pc := Removing(name, names, next)).reports[|w.reports|] == r;
      MoveTo(w', Removing(name, names, next));
    }
  }

  lemma {:induction false} RemovingKeeps(w: World, a: Action)
    requires Inv(w) && a.Proceed? && w.pc.Removing?
    ensures Inv(Proceeding(w, a))
  {
    hide ResultFor, NeedsPublishing, SpoolOK, ReportsOK;
    var Removing(name, names, next) := w.pc;
    DrainEndsKeeps(w, next, false);
    if a.ok {
      RemoveSettles(w, name);
      hide SpoolOK, ReportsOK;
      assert ([name] + names)[0] == name && ([name] + names)[1..] == names;
      MoveTo(w.(spool := w.spool - {name}), Draining(names, next));
    }
  }

  lemma {:induction false} RemoveSettles(w: World, name: string)
    requires Settled(w) && name in w.spool && Acknowledged(w, w.spool[name].run)
    ensures Settled(w.(spool := w.spool - {name}))
  {
    hide ResultFor, NeedsPublishing;
    var w' := w.(spool := w.spool - {name});
    forall run: nat | Spooled(w, run) ensures Spooled(w', run) || Acknowledged(w', run) {
      var n :| n in w.spool && w.spool[n].run == run;
      assert n == name;
      assert Acknowledged(w, run);
    }
    assert forall run: nat :: Acknowledged(w, run) ==> Acknowledged(w', run);
    assert SpoolOK(w') && ReportsOK(w');
  }

  lemma {:induction false} RunningKeeps(w: World, a: Action)
    requires Inv(w) && a.Proceed? && w.pc.Running?
    ensures Inv(Proceeding(w, a))
  {
    var jobs := w.pc.jobs;
    if jobs == [] {
      MoveTo(w, Idle);
    } else {
      var w' := Proceeding(w, a);
      assert forall run: nat :: (Spooled(w, run) ==> Spooled(w', run)) && (Acknowledged(w, run) ==> Acknowledged(w', run));
      assert SpoolOK(w') && ReportsOK(w');
    }
  }

  lemma {:induction false} EnqueuingKeeps(w: World, a: Action)
    requires Inv(w) && a.Proceed? && w.pc.Enqueuing?
    ensures Inv(Proceeding(w, a))
  {
    hide ResultFor, NeedsPublishing;
    var Enqueuing(d, rest) := w.pc;
    if a.ok {
      var w' := w.(spool := w.spool[a.name := d], kept := w.kept + {d.run});
      assert w'.spool[a.name] == d && Spooled(w', d.run);
      assert forall i :: 0 <= i < |w.reports| ==> w.reports[i].run != d.run;
      assert forall run: nat :: Acknowledged(w, run) ==> Acknowledged(w', run);
      assert SpoolOK(w') && ReportsOK(w');
      MoveTo(w', Listing(Jobs(rest)));
    } else {
      MoveTo(w, ReportingLost(d, a.error, rest));
    }
  }

  lemma {:induction false} LostKeeps(w: World, a: Action)
    requires Inv(w) && a.Proceed? && w.pc.ReportingLost?
    ensures Inv(Proceeding(w, a))
  {
    var ReportingLost(d, error, rest) := w.pc;
    var r := Report(d.run, ResultFor(d, Some(NOT_RETAINED + error)), a.ok);
    ReportKeeps(w, r);
    hide SpoolOK, ReportsOK;
    MoveTo(w.(reports := w.reports + [r]), Running(rest));
  }

  lemma {:induction false} StepInv(w: World, a: Action)
    requires Inv(w)
    ensures Inv(Step(w, a))
  {
    hide SpoolOK, ReportsOK;
    if a.Crash? {
      MoveTo(w, Idle);
    } else {
      match w.pc
      case Idle => MoveTo(w, Listing(Poll));
      case Listing(_) => ListingKeeps(w, a);
      case Draining(_, _) => DrainingKeeps(w, a);
      case Publishing(_, _, _, _) => PublishingKeeps(w, a);
      case Replacing(_, _, _, _, _) => ReplacingKeeps(w, a);
      case Reporting(_, _, _, _) => ReportingKeeps(w, a);
      case Removing(_, _, _) => RemovingKeeps(w, a);
      case Polling => MoveTo(w, Proceeding(w, a).pc);
      case Running(_) => RunningKeeps(w, a);
      case Enqueuing(_, _) => EnqueuingKeeps(w, a);
      case ReportingLost(_, _, _) => LostKeeps(w, a);
    }
  }

  lemma {:induction false} ExecInv(w: World, actions: seq<Action>)
    requires Inv(w)
    ensures Inv(Exec(w, actions))
    decreases |actions|
  {
    hide Inv, Step;
    if actions != [] {
      StepInv(w, actions[0]);
      ExecInv(Step(w, actions[0]), actions[1..]);
    }
  }

  // ----- theorems over every run

  // THEOREM. The spool holds at most one delivery, and while it holds one no job is claimed.
  lemma {:induction false} OneDelivery(actions: seq<Action>)
    ensures var w := Exec(START, actions);
      |w.spool| <= 1 && (w.pc.Polling? || w.pc.Enqueuing? ==> w.spool == map[])
  {
    ExecInv(START, actions);
    var w := Exec(START, actions);
    if name :| name in w.spool {
      assert w.spool.Keys == {name};
    }
    assert |w.spool| == |w.spool.Keys|;
  }

  // THEOREM. A spooled delivery stays in the spool until a report of it was acknowledged.
  lemma {:induction false} NothingLost(actions: seq<Action>, run: nat)
    requires run in Exec(START, actions).kept
    ensures Spooled(Exec(START, actions), run) || Acknowledged(Exec(START, actions), run)
  {
    ExecInv(START, actions);
  }

  // THEOREM. All reports of one execution are the same, and report success only after a publish
  // of its observation returned without error.
  lemma {:induction false} ReportsAgree(actions: seq<Action>, i: nat, j: nat)
    requires i < |Exec(START, actions).reports| && j < |Exec(START, actions).reports|
    ensures var w := Exec(START, actions);
      && (w.reports[i].run == w.reports[j].run ==> w.reports[i].result == w.reports[j].result)
      && (w.reports[i].result.success ==> w.reports[i].run in w.published)
  {
    ExecInv(START, actions);
    assert Says(Exec(START, actions), Exec(START, actions).reports[i]);
  }

  // THEOREM (what is reported). In every run a report carries the job, relay, profile, times and
  // observation of its execution. A success has no error text. A failure names the discovery's
  // error, or that of a publish that was not to be repeated or was the third at least, or that
  // the result, which then is not spooled, could not be retained.
  lemma {:induction false} ReportsSay(actions: seq<Action>, i: nat)
    requires i < |Exec(START, actions).reports|
    ensures Says(Exec(START, actions), Exec(START, actions).reports[i])
  {
    ExecInv(START, actions);
  }

  // ----- a drain without failures

  // Everything succeeds.
  const FINE := Proceed(true, false, "", "", [], Failed(""), "", 0, 0)

  ghost function Quiet(w: World, n: nat): World
    decreases n
  {
    if n == 0 || w.pc.Polling? then w else Quiet(Step(w, FINE), n - 1)
  }

  const DRAIN_CALLS := 8

  // A report acknowledged for a spooled delivery: a success, unless discovery failed or a publish
  // was refused for good, which it then names, in this order.
  ghost predicate Settles(w: World, d: Delivery) {
    exists i :: 0 <= i < |w.reports| && SettledBy(w.reports[i], d)
  }

  predicate SettledBy(r: Report, d: Delivery) {
    && r.run == d.run && r.acknowledged && r.result.jobID == d.job.id && r.result.observation == d.observation
    && (r.result.success <==> d.observation.Some? && d.discoveryError == "" && d.publicationError == "")
    && r.result.error ==
         if d.discoveryError != "" then d.discoveryError
         else if d.publicationError != "" then d.publicationError
         else if d.observation.None? then "observation was not published"
         else ""
  }

  // THEOREM (drain). From any reachable state at rest with a delivery in the spool, a drain in
  // which nothing fails reports what became of it, is acknowledged, and empties the spool before
  // polling.
  lemma {:induction false} QuietDrain(actions: seq<Action>, name: string)
    requires Exec(START, actions).pc == Idle && name in Exec(START, actions).spool
    ensures var w := Exec(START, actions); var w' := Quiet(w, DRAIN_CALLS);
      w'.pc == Polling && w'.spool == map[] && Acknowledged(w', w.spool[name].run) && Settles(w', w.spool[name])
  {
    var w := Exec(START, actions);
    ExecInv(START, actions);
    var w1 := Step(w, FINE);
    var w2 := Step(w1, FINE);
    StepInv(w, FINE);
    StepInv(w1, FINE);
    assert forall n :: n in w.spool <==> n == name by { assert SpoolOK(w); }
    var names := w2.pc.names;
    assert name in names && names == [name] by {
      assert Names(w2, names, Poll);
      OneName(names, name);
    }
    DrainOne(w2, name);
    assert Quiet(w, 8) == Quiet(w1, 7) == Quiet(w2, 6);
  }

  lemma {:induction false} OneName(names: seq<string>, name: string)
    requires NoDuplicates(names) && forall n :: n in names <==> n == name
    ensures names == [name]
  {
    assert name in names;
    var i :| 0 <= i < |names| && names[i] == name;
    forall j | 0 <= j < |names| ensures names[j] == name && j == i {
      assert names[j] in names;
    }
    assert names[0] == name && names[|names| - 1] == name;
  }

  lemma {:induction false} DrainOne(w: World, name: string)
    requires Inv(w) && w.pc == Draining([name], Poll) && name in w.spool && forall n :: n in w.spool <==> n == name
    ensures var w' := Quiet(w, 6);
      w'.pc == Polling && w'.spool == map[] && Acknowledged(w', w.spool[name].run) && Settles(w', w.spool[name])
  {
    var d := w.spool[name];
    assert DeliveryOK(w, d) by { assert SpoolOK(w); }
    hide SpoolOK, ReportsOK, DeliveryOK, Settles;
    StepInv(w, FINE);
    var v := Step(w, FINE);
    assert [name][1..] == [];
    if v.pc.Publishing? {
      StepInv(v, FINE);
      var v' := Step(v, FINE);
      StepInv(v', FINE);
      ReportOne(Step(v', FINE), name, d, 3);
      assert Quiet(w, 6) == Quiet(v, 5) == Quiet(v', 4) == Quiet(Step(v', FINE), 3);
    } else {
      Unpublished(w, d);
      ReportOne(v, name, d, 5);
      assert Quiet(w, 6) == Quiet(v, 5);
    }
  }

  lemma {:induction false} Unpublished(w: World, d: Delivery)
    requires DeliveryOK(w, d) && !NeedsPublishing(d)
    ensures d.published || d.publicationError != "" || d.observation.None?
    ensures d.observation.None? ==> !d.published && d.publicationError == ""
  {
  }

  // d is the delivery as it was before, if need be, it was published.
  lemma {:induction false} ReportOne(w: World, name: string, d: Delivery, n: nat)
    requires Inv(w) && w.pc.Reporting? && w.pc.name == name && w.pc.names == [] && w.pc.next == Poll && n >= 3
    requires w.pc.delivery == d.(published := w.pc.delivery.published, attempts := w.pc.delivery.attempts)
    requires w.pc.delivery.published || d.publicationError != "" || d.observation.None?
    requires d.observation.None? ==> !w.pc.delivery.published
    requires forall n :: n in w.spool <==> n == name
    ensures var w' := Quiet(w, n);
      w'.pc == Polling && w'.spool == map[] && Acknowledged(w', d.run) && Settles(w', d)
  {
    hide SpoolOK, ReportsOK;
    StepInv(w, FINE);
    var w1 := Step(w, FINE);
    var w2 := Step(w1, FINE);
    var w3 := Step(w2, FINE);
    assert w1.reports[|w.reports|].run == d.run && SettledBy(w1.reports[|w.reports|], d) && w3.reports == w1.reports;
    assert w2.spool == map[];
    assert Quiet(w, n) == Quiet(w1, n - 1) == Quiet(w2, n - 2) == Quiet(w3, n - 3) == w3;
  }

  // ----- one drain and one job, whatever publishing comes to

  // A drain in which every other call succeeds.
  ghost function Drained(w: World, publish: Action, n: nat): World
    decreases n
  {
    if n == 0 || w.pc.Polling? || w.pc.Running? || w.pc.Idle? then w
    else Drained(Step(w, if w.pc.Publishing? then publish else FINE), publish, n - 1)
  }

  // A drain's end: on to polling, or to what is left of the polled jobs.
  ghost predicate EndsDrain(w: World, next: Then, drained: bool) {
    w.pc == match next
            case Poll => if drained then Polling else Idle
            case Jobs(rest) => Running(rest)
  }

  predicate Awaits(d: Delivery) {
    d.observation.Some? && !d.published && d.publicationError == ""
  }

  // Publishing this delivery fails, and is to be tried again.
  predicate Waits(d: Delivery, publish: Action)
    requires publish.Proceed?
  {
    Awaits(d) && !publish.ok && ((publish.retryable && d.attempts < 2) || publish.error == "")
  }

  // THEOREM (one delivery). A drain of one delivery publishes it if that is still due. If it is to be
  // tried again, the spool keeps the delivery with one more attempt and nothing is reported.
  // Otherwise the report is acknowledged and the spool is empty. The third failure is final.
  lemma {:induction false} DrainExactly(w: World, name: string, d: Delivery, publish: Action)
    requires w.pc.Listing? && w.spool == map[name := d] && publish.Proceed?
    ensures var w' := Drained(w, publish, 7);
      if Waits(d, publish) then
        w'.spool == map[name := d.(attempts := d.attempts + 1)] && w'.reports == w.reports && EndsDrain(w', w.pc.next, false)
      else
        var refusal := if Awaits(d) && !publish.ok then Shown(publish.error) else d.publicationError;
        var published := d.published || (Awaits(d) && publish.ok);
        var result := JobResult(
          d.job.id, d.relay, d.job.profile, d.startedAt, d.completedAt, d.observation,
          d.discoveryError == "" && refusal == "" && published,
          if d.discoveryError != "" then d.discoveryError
          else if refusal != "" then refusal
          else if published then "" else "observation was not published");
        w'.spool == map[] && w'.reports == w.reports + [Report(d.run, result, true)] && EndsDrain(w', w.pc.next, true)
  {
    hide Shown, InOrder;
    InOrderCorrect({name});
    OneName(InOrder({name}), name);
    assert w.spool.Keys == {name};
    var w1 := Step(w, FINE);
    var w2 := Step(w1, FINE);
    assert w1.pc == Draining([name], w.pc.next) && [name][1..] == [];
    assert Drained(w, publish, 7) == Drained(w1, publish, 6) == Drained(w2, publish, 5);
    if Awaits(d) {
      var w3 := Step(w2, publish);
      var w4 := Step(w3, FINE);
      assert Drained(w2, publish, 5) == Drained(w3, publish, 4) == Drained(w4, publish, 3);
      PublishExactly(d, publish);
      assert w4.spool == map[name := AfterPublish(d, publish)];
      if !Waits(d, publish) { ReportExactly(w4, publish, 3); }
    } else {
      ReportExactly(w2, publish, 5);
    }
  }

  lemma {:induction false} PublishExactly(d: Delivery, publish: Action)
    requires publish.Proceed? && Awaits(d)
    ensures AfterPublish(d, publish) == d.(
      attempts := d.attempts + 1, published := publish.ok,
      publicationError := if publish.ok || (publish.retryable && d.attempts < 2) then "" else Shown(publish.error))
    ensures Shown(publish.error) == "" <==> publish.error == ""
  {
  }

  lemma {:induction false} ReportExactly(w: World, publish: Action, n: nat)
    requires w.pc.Reporting? && w.pc.names == [] && n >= 3 && w.spool == map[w.pc.name := w.pc.delivery]
    ensures var w' := Drained(w, publish, n);
      && w'.spool == map[] && w'.reports == w.reports + [Report(w.pc.delivery.run, ResultFor(w.pc.delivery, None), true)]
      && EndsDrain(w', w.pc.next, true)
  {
    var w1 := Step(w, FINE);
    var w2 := Step(w1, FINE);
    var w3 := Step(w2, FINE);
    assert w2.spool == map[];
    assert Drained(w, publish, n) == Drained(w1, publish, n - 1) == Drained(w2, publish, n - 2) == Drained(w3, publish, n - 3) == w3;
  }

  // THEOREM (one job). A job polled is executed and its outcome spooled, not yet published, before
  // the spool is drained; if it cannot be spooled, that is reported and the spool stays empty.
  lemma {:induction false} JobExactly(w: World, run: Action, enqueue: Action, report: Action)
    requires w.pc.Running? && w.pc.jobs != [] && run.Proceed? && enqueue.Proceed? && report.Proceed?
    ensures var job, rest := w.pc.jobs[0], w.pc.jobs[1..];
      var w' := Step(Step(w, run), enqueue);
      var observation := if run.outcome.Discovered? then Some(run.outcome.observation) else None;
      if enqueue.ok then
        && w'.pc == Listing(Jobs(rest)) && w'.reports == w.reports
        && w'.spool == w.spool[enqueue.name := Delivery(
             w.runs, job, run.relay, run.startedAt, run.completedAt, observation,
             if run.outcome.Discovered? then "" else Shown(run.outcome.error), false, 0, "")]
      else
        var w'' := Step(w', report);
        && w''.pc == Running(rest) && w''.spool == w.spool
        && w''.reports == w.reports + [Report(w.runs, JobResult(
             job.id, run.relay, job.profile, run.startedAt, run.completedAt, observation, false,
             Shown("retain job result in encrypted spool: " + enqueue.error)), report.ok)]
  {
    hide InOrder;
  }

  // A poll hands over its jobs if it succeeds with at most one.
  lemma {:induction false} PollExactly(w: World, a: Action)
    requires w.pc == Polling && a.Proceed?
    ensures Step(w, a) == w.(pc := if a.ok && |a.jobs| <= 1 then Running(a.jobs) else Idle)
  {
  }
}
