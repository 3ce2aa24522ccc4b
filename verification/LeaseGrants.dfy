// Which leases the control plane accepts (internal/worker/controlsim/server.go): those it
// granted to their holder and has not taken back.
module LeaseGrants {
  import opened Wrappers
  import opened ControlPlane
  import opened LeaseInvariant
  import opened LeaseHistory
  import opened LeaseSystem
  import opened LeaseProgress

  ghost predicate Granted(sent: set<Lease>, ref: LeaseRef) {
    exists l :: l in sent && l.ref == ref
  }

  // Every holder was told so by a grant.
  ghost predicate HoldersGranted(s: State, sent: set<Lease>) {
    forall ref: LeaseRef :: ref.task in s.tasks && Active(s.tasks[ref.task].state) && s.tasks[ref.task].holder == Some(HolderOf(ref)) ==>
      Granted(sent, ref)
  }

  // No task is leased anew, or to another holder.
  ghost predicate NoneLeased(s: State, s': State) {
    forall t :: t in s'.tasks && Active(s'.tasks[t].state) ==>
      t in s.tasks && Active(s.tasks[t].state) && s'.tasks[t].holder == s.tasks[t].holder
  }

  lemma {:induction false} ClaimLeases(c: Config, s: State, q: ClaimRequest, token: Token, now: Time)
    ensures var (s', reply) := Claim(c, s, q, token, now);
      forall t :: t in s'.tasks && Active(s'.tasks[t].state) ==>
        || (t in s.tasks && Active(s.tasks[t].state) && s'.tasks[t].holder == s.tasks[t].holder)
        || (reply.Claimed? && reply.ref.task == t && s'.tasks[t].holder == Some(HolderOf(reply.ref)))
  {
    hide WorkerLeases, PoolLeases, Refresh, RunLapsed;
    if ClaimAllowed(s, q) {
      var ready := BeforeClaim(s, q.worker, now);
      assert forall t :: t in ready.tasks ==> t in s.tasks && ready.tasks[t] == Reap(s.tasks[t], now);
    }
  }

  lemma {:induction false} CompleteLeases(s: State, q: CompleteRequest, now: Time)
    ensures NoneLeased(s, CompleteTask(s, q, now).0)
  {
    hide RefreshRun, Deliver;
    RefreshKeeps();
    if ValidLease(s, q.ref, now) && q.success && CompleteTask(s, q, now).0 != s {
      DeliverKeeps(s, q.ref, s.results[ResultKey(q.ref.task, q.ref.attempt)].observation.value, now);
    }
  }

  lemma {:induction false} RestLeases(c: Config, y: System, a: Action)
    requires !a.SendClaim? && !a.SendComplete?
    ensures NoneLeased(y.server, Handle(c, y, a))
  {
    hide SomeTask;
  }

  lemma {:induction false} StepGranted(c: Config, y: System, a: Action)
    requires HoldersGranted(y.server, y.sent)
    ensures HoldersGranted(Step(c, y, a).server, Step(c, y, a).sent)
  {
    hide Claim, Renew, CompleteTask, Handle;
    var y' := Step(c, y, a);
    assert forall ref: LeaseRef :: Granted(y.sent, ref) ==> Granted(y'.sent, ref);
    match a
    case SendClaim(claim, token) => ClaimGranted(c, y, claim, token);
    case SendComplete(complete) => CompleteLeases(y.server, complete, y.now); CompleteHandled(c, y, complete);
    case _ => RestLeases(c, y, a);
  }

  lemma {:induction false} CompleteHandled(c: Config, y: System, complete: CompleteRequest)
    ensures Handle(c, y, SendComplete(complete)) == CompleteTask(y.server, complete, y.now).0
  {
    hide CompleteTask;
  }

  lemma {:induction false} ClaimGranted(c: Config, y: System, claim: ClaimRequest, token: Token)
    requires HoldersGranted(y.server, y.sent)
    ensures var y' := Step(c, y, SendClaim(claim, token)); HoldersGranted(y'.server, y'.sent)
  {
    hide Claim;
    var y' := Step(c, y, SendClaim(claim, token));
    ClaimLeases(c, y.server, claim, token, y.now);
    var reply := Claim(c, y.server, claim, token, y.now).1;
    forall ref: LeaseRef | ref.task in y'.server.tasks && Active(y'.server.tasks[ref.task].state)
                           && y'.server.tasks[ref.task].holder == Some(HolderOf(ref))
      ensures Granted(y'.sent, ref)
    {
      if reply.Claimed? && reply.ref == ref {
        assert Lease(ref, reply.expires) in y'.sent;
      } else {
        assert Granted(y.sent, ref);
      }
    }
  }

  lemma {:induction false} ExecGranted(c: Config, y: System, actions: seq<Action>)
    requires HoldersGranted(y.server, y.sent)
    ensures HoldersGranted(Exec(c, y, actions).server, Exec(c, y, actions).sent)
    decreases |actions|
  {
    hide HoldersGranted, Step;
    if actions != [] {
      StepGranted(c, y, actions[0]);
      ExecGranted(c, Step(c, y, actions[0]), actions[1..]);
    }
  }

  // THEOREM (acceptance, exactly). In every run the control plane accepts a worker, boot, attempt
  // and token for a task exactly if it once granted them, the attempt is the task's current one,
  // and the task's lease has neither been taken back nor run out.
  lemma {:induction false} AcceptedExactly(c: Config, actions: seq<Action>, p: LeaseRef)
    ensures var y := Exec(c, START, actions);
      ValidLease(y.server, p, y.now) <==>
        && Granted(y.sent, p) && p.task in y.server.tasks && p.attempt == AttemptId(p.task, y.server.tasks[p.task].attempt)
        && Active(y.server.tasks[p.task].state) && y.server.tasks[p.task].expires > y.now
  {
    hide Shape, Unique, RunsOK, ResultsOK, DeliveriesOK, ConservationOK, AttemptsOK, LimitsOK, TimesOK, Exec;
    StartInv(c);
    ExecInv(c, START, actions);
    ExecGranted(c, START, actions);
    var y := Exec(c, START, actions);
    if p.task in y.server.tasks { assert TaskOK(p.task, y.server.tasks[p.task]); }
    if Granted(y.sent, p) {
      var l :| l in y.sent && l.ref == p;
      assert LeaseOK(l, y.server, y.now);
    }
  }
}
