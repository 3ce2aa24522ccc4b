// Certificate rotation, admission and revocation under one readers-writer lock
// (internal/controller/server.go; revocations in internal/store/store.go).
//
// Any number of requests run interleaved, one step at a time. A call to the store or the log may
// fail, with or without having taken effect, and the controller may crash, which loses requests
// and locks but keeps the store and the log.
module Certificates {
  import opened Wrappers

  type Serial = string
  type Id = nat
  datatype Revocation = Revocation(reason: string, at: int)

  datatype Request = Rotate(current: Serial, issued: Serial) | Admit(serial: Serial) | Revoke(serial: Serial, revocation: Revocation)

  // Waiting for the lock; holding it; then what a rotation or a revocation found, and last the
  // unlocking.
  datatype Stage = Waiting | Locked | Cleared | Signed | Created | Unlocking

  datatype Thread = Thread(request: Request, stage: Stage)

  // The audit entries that matter here, and the admissions decided between them.
  datatype Entry = Revoked(serial: Serial) | Rotated(previous: Serial, serial: Serial) | Admitted(serial: Serial)

  // unlogged: the serials revoked by a call that still failed, or whose entry the log refused or
  // a crash prevented.
  datatype State = State(
    threads: map<Id, Thread>, readers: set<Id>, writer: Option<Id>,
    revocations: map<Serial, Revocation>, log: seq<Entry>, unlogged: set<Serial>)

  const START := State(map[], {}, None, map[], [], {})

  datatype Fault = Fine | NoEffect | LostReply

  datatype Action = Begin(id: Id, request: Request) | Advance(id: Id, fault: Fault) | Crash

  function Move(s: State, id: Id, stage: Stage): State
    requires id in s.threads
  {
    s.(threads := s.threads[id := s.threads[id].(stage := stage)])
  }

  // Readers share the lock; the writer has it alone.
  function StepReader(s: State, id: Id, serial: Serial, fault: Fault): State
    requires id in s.threads
  {
    var t := s.threads[id];
    match t.stage
    case Waiting => if s.writer == None then Move(s.(readers := s.readers + {id}), id, Locked) else s
    case Locked =>
      if fault != Fine || serial in s.revocations then Move(s, id, Unlocking)
      else if t.request.Admit? then Move(s.(log := s.log + [Admitted(serial)]), id, Unlocking)
      else Move(s, id, Cleared)
    case Cleared => Move(s, id, if fault == Fine then Signed else Unlocking)
    case Signed =>
      if fault != NoEffect && t.request.Rotate? then Move(s.(log := s.log + [Rotated(serial, t.request.issued)]), id, Unlocking)
      else Move(s, id, Unlocking)
    case Created => s
    case Unlocking => s.(threads := s.threads - {id}, readers := s.readers - {id})
  }

  function StepWriter(s: State, id: Id, serial: Serial, revocation: Revocation, fault: Fault): State
    requires id in s.threads
  {
    match s.threads[id].stage
    case Waiting => if s.writer == None && s.readers == {} then Move(s.(writer := Some(id)), id, Locked) else s
    case Locked =>
      if fault == NoEffect || serial in s.revocations then Move(s, id, Unlocking)
      else
        var revoked := s.(revocations := s.revocations[serial := revocation]);
        if fault == Fine then Move(revoked, id, Created)
        else Move(revoked.(unlogged := s.unlogged + {serial}), id, Unlocking)
    case Created =>
      if fault != NoEffect then Move(s.(log := s.log + [Revoked(serial)]), id, Unlocking)
      else Move(s.(unlogged := s.unlogged + {serial}), id, Unlocking)
    case Unlocking => s.(threads := s.threads - {id}, writer := None)
    case _ => s
  }

  function Unlogged(s: State): set<Serial> {
    set id | id in s.threads && s.threads[id].request.Revoke? && s.threads[id].stage == Created :: s.threads[id].request.serial
  }

  function Step(s: State, a: Action): State {
    match a
    case Begin(id, request) => if id in s.threads then s else s.(threads := s.threads[id := Thread(request, Waiting)])
    case Advance(id, fault) =>
      if id !in s.threads then s
      else (
        match s.threads[id].request
        case Rotate(current, _) => StepReader(s, id, current, fault)
        case Admit(serial) => StepReader(s, id, serial, fault)
        case Revoke(serial, revocation) => StepWriter(s, id, serial, revocation, fault))
    case Crash => s.(threads := map[], readers := {}, writer := None, unlogged := s.unlogged + Unlogged(s))
  }

  function Exec(s: State, actions: seq<Action>): State
    decreases |actions|
  {
    if actions == [] then s else Exec(Step(s, actions[0]), actions[1..])
  }

  // ----- the invariant

  function SerialOf(r: Request): Serial { if r.Rotate? then r.current else r.serial }

  // The lock is held by whoever is past waiting.
  ghost predicate LockOK(s: State) {
    && (forall id :: id in s.readers <==> id in s.threads && !s.threads[id].request.Revoke? && s.threads[id].stage != Waiting)
    && (forall id :: s.writer == Some(id) <==> id in s.threads && s.threads[id].request.Revoke? && s.threads[id].stage != Waiting)
    && (s.writer.Some? ==> s.readers == {})
  }

  ghost predicate ThreadOK(s: State, id: Id)
    requires id in s.threads
  {
    var t := s.threads[id];
    var serial := SerialOf(t.request);
    && (t.stage == Cleared || t.stage == Signed ==> t.request.Rotate? && serial !in s.revocations)
    && (t.stage == Created ==>
          t.request.Revoke? && serial in s.revocations && Revoked(serial) !in s.log && serial !in s.unlogged)
  }

  // Revocation entries name revoked serials, each once, and end what is said of a serial.
  ghost predicate LogOK(s: State) {
    && (forall serial :: Revoked(serial) in s.log || serial in s.unlogged ==> serial in s.revocations)
    && (forall i, j :: 0 <= i < j < |s.log| && s.log[i].Revoked? ==> !Follows(s.log[i].serial, s.log[j]))
    && (forall serial :: serial in s.revocations ==>
          Revoked(serial) in s.log || serial in s.unlogged || exists id :: Creating(s, id, serial))
  }

  predicate Follows(serial: Serial, e: Entry) {
    e == Revoked(serial) || (e.Rotated? && e.previous == serial) || e == Admitted(serial)
  }

  ghost predicate Creating(s: State, id: Id, serial: Serial) {
    id in s.threads && s.threads[id].stage == Created && SerialOf(s.threads[id].request) == serial
  }

  ghost predicate Inv(s: State) {
    LockOK(s) && LogOK(s) && forall id :: id in s.threads ==> ThreadOK(s, id)
  }

  lemma {:induction false} LogGrows(s: State, e: Entry)
    requires LogOK(s) && !e.Revoked?
    requires forall serial :: Follows(serial, e) ==> serial !in s.revocations
    ensures var s' := s.(log := s.log + [e]);
      LogOK(s') && forall serial :: Revoked(serial) in s'.log ==> Revoked(serial) in s.log
  {
    var s' := s.(log := s.log + [e]);
    forall i, j | 0 <= i < j < |s'.log| && s'.log[i].Revoked? ensures !Follows(s'.log[i].serial, s'.log[j]) {
      if j == |s.log| { assert Revoked(s.log[i].serial) in s.log; }
    }
    forall serial | serial in s.revocations
      ensures Revoked(serial) in s'.log || serial in s'.unlogged || exists id :: Creating(s', id, serial)
    {
      if id :| Creating(s, id, serial) { assert Creating(s', id, serial); }
    }
  }

  // A thread moves on without touching the store or the log.
  lemma {:induction false} MoveKeepsLog(s: State, id: Id, stage: Stage)
    requires LogOK(s) && id in s.threads && s.threads[id].stage != Created
    ensures LogOK(Move(s, id, stage))
  {
    var s' := Move(s, id, stage);
    forall serial | serial in s.revocations
      ensures Revoked(serial) in s'.log || serial in s'.unlogged || exists k :: Creating(s', k, serial)
    {
      if k :| Creating(s, k, serial) { assert Creating(s', k, serial); }
    }
  }

  lemma {:induction false} DropKeepsLog(s: State, s': State)
    requires LogOK(s) && s'.log == s.log && s'.revocations == s.revocations && s'.unlogged == s.unlogged
    requires forall k :: k in s.threads && s.threads[k].stage == Created ==> k in s'.threads && s'.threads[k] == s.threads[k]
    ensures LogOK(s')
  {
    forall serial | serial in s.revocations
      ensures Revoked(serial) in s'.log || serial in s'.unlogged || exists k :: Creating(s', k, serial)
    {
      if k :| Creating(s, k, serial) { assert Creating(s', k, serial); }
    }
  }

  lemma {:induction false} ReaderKeeps(s: State, id: Id, fault: Fault)
    requires Inv(s) && id in s.threads && !s.threads[id].request.Revoke?
    ensures Inv(StepReader(s, id, SerialOf(s.threads[id].request), fault))
  {
    var serial := SerialOf(s.threads[id].request);
    var s' := StepReader(s, id, serial, fault);
    assert ThreadOK(s, id);
    ReaderLog(s, id, fault);
    forall k | k in s'.threads ensures ThreadOK(s', k) {
      assert k in s.threads && ThreadOK(s, k);
      assert k == id || s'.threads[k] == s.threads[k];
    }
    ReaderLock(s, id, fault);
  }

  lemma {:induction false} ReaderLock(s: State, id: Id, fault: Fault)
    requires LockOK(s) && id in s.threads && !s.threads[id].request.Revoke?
    ensures LockOK(StepReader(s, id, SerialOf(s.threads[id].request), fault))
  {
  }

  lemma {:induction false} ReaderLog(s: State, id: Id, fault: Fault)
    requires LogOK(s) && id in s.threads && !s.threads[id].request.Revoke? && ThreadOK(s, id)
    ensures var s' := StepReader(s, id, SerialOf(s.threads[id].request), fault);
      LogOK(s') && forall r :: Revoked(r) in s'.log ==> Revoked(r) in s.log
  {
    hide LogOK;
    var t, serial := s.threads[id], SerialOf(s.threads[id].request);
    var s' := StepReader(s, id, serial, fault);
    if t.stage == Unlocking || t.stage == Waiting {
      DropKeepsLog(s, s');
    } else if s'.log != s.log {
      var e := if t.request.Admit? then Admitted(serial) else Rotated(serial, t.request.issued);
      LogGrows(s, e);
      MoveKeepsLog(s.(log := s.log + [e]), id, Unlocking);
    } else {
      MoveKeepsLog(s, id, s'.threads[id].stage);
    }
  }

  lemma {:induction false} WriterKeeps(s: State, id: Id, fault: Fault)
    requires Inv(s) && id in s.threads && s.threads[id].request.Revoke?
    ensures Inv(StepWriter(s, id, s.threads[id].request.serial, s.threads[id].request.revocation, fault))
  {
    var r := s.threads[id].request;
    var s' := StepWriter(s, id, r.serial, r.revocation, fault);
    assert ThreadOK(s, id);
    WriterLog(s, id, fault);
    WriterLock(s, id, fault);
    if s.threads[id].stage != Waiting {
      assert s.writer == Some(id) && s.readers == {};
    }
    forall k | k in s'.threads ensures ThreadOK(s', k) {
      assert k in s.threads && ThreadOK(s, k);
      if k != id && s.threads[id].stage != Waiting {
        assert k !in s.readers && s.writer != Some(k);
        assert s.threads[k].stage == Waiting;
      }
    }
  }

  lemma {:induction false} WriterLock(s: State, id: Id, fault: Fault)
    requires LockOK(s) && id in s.threads && s.threads[id].request.Revoke?
    ensures LockOK(StepWriter(s, id, s.threads[id].request.serial, s.threads[id].request.revocation, fault))
  {
  }

  lemma {:induction false} WriterLog(s: State, id: Id, fault: Fault)
    requires LogOK(s) && id in s.threads && s.threads[id].request.Revoke? && ThreadOK(s, id)
    ensures LogOK(StepWriter(s, id, s.threads[id].request.serial, s.threads[id].request.revocation, fault))
  {
    var r := s.threads[id].request;
    var s' := StepWriter(s, id, r.serial, r.revocation, fault);
    forall serial | serial in s'.revocations
      ensures Revoked(serial) in s'.log || serial in s'.unlogged || exists k :: Creating(s', k, serial)
    {
      if serial !in s.revocations {
        assert serial in s'.unlogged || Creating(s', id, serial);
      } else if k :| Creating(s, k, serial) {
        if k == id { assert serial == r.serial; } else { assert Creating(s', k, serial); }
        assert s'.log != s.log ==> s'.log[|s.log|] == Revoked(r.serial);
      }
    }
    forall i, j | 0 <= i < j < |s'.log| && s'.log[i].Revoked? ensures !Follows(s'.log[i].serial, s'.log[j]) {
      if j == |s.log| { assert s.log[i] in s.log; }
    }
  }

  lemma {:induction false} StepInv(s: State, a: Action)
    requires Inv(s)
    ensures Inv(Step(s, a))
  {
    hide LogOK;
    match a
    case Begin(id, request) =>
      var s' := Step(s, a);
      DropKeepsLog(s, s');
      forall k | k in s'.threads ensures ThreadOK(s', k) {
        assert k in s.threads ==> ThreadOK(s, k);
      }
    case Advance(id, fault) =>
      if id in s.threads {
        if s.threads[id].request.Revoke? { WriterKeeps(s, id, fault); } else { ReaderKeeps(s, id, fault); }
      }
    case Crash => CrashKeeps(s);
  }

  lemma {:induction false} CrashKeeps(s: State)
    requires Inv(s)
    ensures Inv(Step(s, Crash))
  {
    var s' := Step(s, Crash);
    forall serial | serial in s.revocations ensures Revoked(serial) in s'.log || serial in s'.unlogged {
      if id :| Creating(s, id, serial) {
        assert ThreadOK(s, id);
        assert serial in Unlogged(s);
      }
    }
    forall serial | serial in Unlogged(s) ensures serial in s.revocations {
      var id :| id in s.threads && s.threads[id].request.Revoke? && s.threads[id].stage == Created && s.threads[id].request.serial == serial;
      assert ThreadOK(s, id);
    }
  }

  lemma {:induction false} ExecInv(s: State, actions: seq<Action>)
    requires Inv(s)
    ensures Inv(Exec(s, actions))
    decreases |actions|
  {
    if actions != [] {
      StepInv(s, actions[0]);
      ExecInv(Step(s, actions[0]), actions[1..]);
    }
  }

  // ----- theorems

  // THEOREM (nothing after revocation). In every interleaving, once a revocation of a serial is
  // in the audit log, no later entry rotates it, admits it or revokes it again.
  lemma {:induction false} NothingAfterRevocation(actions: seq<Action>, i: nat, j: nat)
    requires i < j < |Exec(START, actions).log| && Exec(START, actions).log[i].Revoked?
    ensures !Follows(Exec(START, actions).log[i].serial, Exec(START, actions).log[j])
  {
    ExecInv(START, actions);
  }

  // THEOREM (complete log). While no revocation is being written, the log has an entry for
  // exactly the revoked serials, but for those whose call or entry failed or a crash took.
  lemma {:induction false} RevocationsLogged(actions: seq<Action>, serial: Serial)
    ensures var s := Exec(START, actions);
      && (Revoked(serial) in s.log ==> serial in s.revocations)
      && (s.writer == None && serial in s.revocations && serial !in s.unlogged ==> Revoked(serial) in s.log)
  {
    ExecInv(START, actions);
    var s := Exec(START, actions);
    forall id: Id | Creating(s, id, serial) ensures s.writer == Some(id) {
      assert ThreadOK(s, id);
    }
  }

  lemma {:induction false} StepKeepsRevocations(s: State, a: Action, serial: Serial)
    requires serial in s.revocations
    ensures serial in Step(s, a).revocations && Step(s, a).revocations[serial] == s.revocations[serial]
  {
  }

  // THEOREM. The first revocation of a serial is never changed or withdrawn.
  lemma {:induction false} RevocationsImmutable(s: State, actions: seq<Action>, serial: Serial)
    requires serial in s.revocations
    ensures serial in Exec(s, actions).revocations && Exec(s, actions).revocations[serial] == s.revocations[serial]
    decreases |actions|
  {
    if actions != [] {
      StepKeepsRevocations(s, actions[0], serial);
      RevocationsImmutable(Step(s, actions[0]), actions[1..], serial);
    }
  }

  // Mutual exclusion of the lock, which the theorems rest on.
  lemma {:induction false} LockExcludes(actions: seq<Action>, a: Id, b: Id)
    requires a in Exec(START, actions).threads && b in Exec(START, actions).threads && a != b
    requires Exec(START, actions).threads[a].request.Revoke? && Exec(START, actions).threads[a].stage != Waiting
    ensures Exec(START, actions).threads[b].stage == Waiting
  {
    ExecInv(START, actions);
  }

  // A request's own steps, with the faults of its calls to the store and the log in order.
  function Turns(id: Id, a: Fault, b: Fault, c: Fault): seq<Action> {
    [Advance(id, Fine), Advance(id, a), Advance(id, b), Advance(id, c), Advance(id, Fine)]
  }

  lemma {:induction false} ExecTurns(s: State, id: Id, a: Fault, b: Fault, c: Fault)
    ensures Exec(s, Turns(id, a, b, c)) ==
      Step(Step(Step(Step(Step(s, Advance(id, Fine)), Advance(id, a)), Advance(id, b)), Advance(id, c)), Advance(id, Fine))
  {
    var x, y, z, w, v := Advance(id, Fine), Advance(id, a), Advance(id, b), Advance(id, c), Advance(id, Fine);
    assert [x, y, z, w, v][1..] == [y, z, w, v] && [y, z, w, v][1..] == [z, w, v] && [z, w, v][1..] == [w, v];
    assert [w, v][1..] == [v] && [v][1..] == [];
    var s2 := Step(Step(s, x), y);
    assert Exec(Step(s, x), [y, z, w, v]) == Exec(s2, [z, w, v]);
    var s3 := Step(s2, z);
    assert Exec(s2, [z, w, v]) == Exec(s3, [w, v]);
    assert Exec(s3, [w, v]) == Exec(Step(s3, w), [v]);
    assert Exec(Step(s3, w), [v]) == Exec(Step(Step(s3, w), v), []);
  }

  // THEOREM (revocation). A revocation that finds the lock free records the serial exactly if it
  // is new and the store's call had its effect, and logs it exactly if moreover that call's
  // reply came and the log's call had its effect. It leaves the lock free.
  lemma {:induction false} RevokesExactly(s: State, id: Id, a: Fault, b: Fault, c: Fault)
    requires id in s.threads && s.threads[id].request.Revoke? && s.threads[id].stage == Waiting
    requires s.writer == None && s.readers == {}
    ensures var Revoke(serial, revocation) := s.threads[id].request;
      var recorded := serial !in s.revocations && a != NoEffect;
      var logged := recorded && a == Fine && b != NoEffect;
      Exec(s, Turns(id, a, b, c)) == State(
        s.threads - {id}, {}, None,
        if recorded then s.revocations[serial := revocation] else s.revocations,
        if logged then s.log + [Revoked(serial)] else s.log,
        if recorded && !logged then s.unlogged + {serial} else s.unlogged)
  {
    hide Exec;
    ExecTurns(s, id, a, b, c);
    var serial := s.threads[id].request.serial;
    var s1 := Step(s, Advance(id, Fine));
    var s2 := Step(s1, Advance(id, a));
    var s3 := Step(s2, Advance(id, b));
    assert s1.threads - {id} == s2.threads - {id} == s3.threads - {id} == s.threads - {id};
    if s2.threads[id].stage == Created {
      assert s3.threads[id].stage == Unlocking;
    } else {
      assert s3 == Step(s2, Advance(id, b)) && s3.threads == s.threads - {id};
    }
  }

  // A reader that only has to unlock leaves, and then its turns change nothing.
  lemma {:induction false} ReaderLeaves(s: State, id: Id, fault: Fault)
    requires id in s.threads && !s.threads[id].request.Revoke? && s.threads[id].stage == Unlocking
    ensures Step(s, Advance(id, fault)) == s.(threads := s.threads - {id}, readers := s.readers - {id})
  {
  }

  lemma {:induction false} NoThread(s: State, id: Id, fault: Fault)
    requires id !in s.threads
    ensures Step(s, Advance(id, fault)) == s
  {
  }

  // What a reader with the lock comes to.
  lemma {:induction false} LockedReads(s: State, id: Id, a: Fault)
    requires id in s.threads && !s.threads[id].request.Revoke? && s.threads[id].stage == Locked
    ensures var serial := SerialOf(s.threads[id].request); var usable := a == Fine && serial !in s.revocations;
      Step(s, Advance(id, a)) ==
        if !usable then Move(s, id, Unlocking)
        else if s.threads[id].request.Admit? then Move(s.(log := s.log + [Admitted(serial)]), id, Unlocking)
        else Move(s, id, Cleared)
  {
  }

  lemma {:induction false} ClearedReads(s: State, id: Id, b: Fault, c: Fault)
    requires id in s.threads && s.threads[id].request.Rotate? && s.threads[id].stage == Cleared
    ensures var s1 := Step(s, Advance(id, b)); var s2 := Step(s1, Advance(id, c)); var r := s.threads[id].request;
      if b == Fine then
        s2 == Move(s.(log := s.log + if c != NoEffect then [Rotated(r.current, r.issued)] else []), id, Unlocking)
      else
        s2 == s.(threads := s.threads - {id}, readers := s.readers - {id})
  {
    var s1 := Step(s, Advance(id, b));
    assert s1.threads - {id} == s.threads - {id};
    assert s.log + [] == s.log;
  }

  // The log's new entry, if any.
  function Entries(r: Request, revoked: bool, a: Fault, b: Fault, c: Fault): seq<Entry> {
    if a != Fine || revoked then []
    else
      match r
      case Admit(serial) => [Admitted(serial)]
      case Rotate(current, issued) => if b == Fine && c != NoEffect then [Rotated(current, issued)] else []
      case Revoke(_, _) => []
  }

  // THEOREM (rotation and admission). One that can share the lock is logged exactly if its
  // certificate is not revoked and no call failed before the log's had its effect, and nothing
  // else changes.
  lemma {:induction false} ReadsExactly(s: State, id: Id, a: Fault, b: Fault, c: Fault)
    requires id in s.threads && !s.threads[id].request.Revoke? && s.threads[id].stage == Waiting
    requires s.writer == None && id !in s.readers
    ensures var r := s.threads[id].request;
      Exec(s, Turns(id, a, b, c)) == s.(threads := s.threads - {id}, log := s.log + Entries(r, SerialOf(r) in s.revocations, a, b, c))
  {
    hide Exec, Step;
    ExecTurns(s, id, a, b, c);
    var s1 := Move(s.(readers := s.readers + {id}), id, Locked);
    assert Step(s, Advance(id, Fine)) == s1 by { ReaderLocks(s, id, Fine); }
    var s2 := Step(s1, Advance(id, a));
    LockedReads(s1, id, a);
    assert s1.readers - {id} == s.readers && s1.threads - {id} == s2.threads - {id} == s.threads - {id};
    if s2.threads[id].stage == Unlocking {
      ReaderLeaves(s2, id, b);
      var s3 := Step(s2, Advance(id, b));
      NoThread(s3, id, c);
      NoThread(s3, id, Fine);
    } else {
      ClearedReads(s2, id, b, c);
      var s4 := Step(Step(s2, Advance(id, b)), Advance(id, c));
      if b == Fine { ReaderLeaves(s4, id, Fine); } else { NoThread(s4, id, Fine); }
      assert s4.threads - {id} == s.threads - {id};
    }
    assert s.log + [] == s.log;
  }

  lemma {:induction false} ReaderLocks(s: State, id: Id, fault: Fault)
    requires id in s.threads && !s.threads[id].request.Revoke? && s.threads[id].stage == Waiting && s.writer == None
    ensures Step(s, Advance(id, fault)) == Move(s.(readers := s.readers + {id}), id, Locked)
  {
  }

  // ----- the controller's state in place

  class Controller {
    var threads: map<Id, Thread>
    var readers: set<Id>
    var writer: Option<Id>
    var revocations: map<Serial, Revocation>
    var log: seq<Entry>
    ghost var unlogged: set<Serial>

    constructor ()
      ensures View() == START
    {
      threads, readers, writer, revocations, log, unlogged := map[], {}, None, map[], [], {};
    }

    ghost function View(): State
      reads this
    {
      State(threads, readers, writer, revocations, log, unlogged)
    }

    // The first revocation of a serial is recorded; later ones change nothing.
    method RevokeCertificate(serial: Serial, revocation: Revocation) returns (created: bool)
      modifies this`revocations
      ensures created <==> serial !in old(revocations)
      ensures revocations == if created then old(revocations)[serial := revocation] else old(revocations)
    {
      if serial in revocations {
        return false;
      }
      revocations := revocations[serial := revocation];
      return true;
    }

    // The next step of a rotation or of an admission.
    method AdvanceReader(id: Id, fault: Fault)
      requires id in threads && !threads[id].request.Revoke?
      modifies this
      ensures View() == Step(old(View()), Advance(id, fault))
    {
      var Thread(request, stage) := threads[id];
      var serial := if request.Rotate? then request.current else request.serial;
      var next := Unlocking;
      match stage {
        case Waiting =>
          if writer != None {
            return;
          }
          readers := readers + {id};
          next := Locked;
        case Locked =>
          if fault == Fine && serial !in revocations {
            if request.Admit? {
              log := log + [Admitted(serial)];
            } else {
              next := Cleared;
            }
          }
        case Cleared =>
          if fault == Fine {
            next := Signed;
          }
        case Signed =>
          if fault != NoEffect && request.Rotate? {
            log := log + [Rotated(serial, request.issued)];
          }
        case Created => return;
        case Unlocking =>
          threads, readers := threads - {id}, readers - {id};
          return;
      }
      threads := threads[id := Thread(request, next)];
    }

    // The next step of a revocation.
    method AdvanceWriter(id: Id, fault: Fault)
      requires id in threads && threads[id].request.Revoke?
      modifies this
      ensures View() == Step(old(View()), Advance(id, fault))
    {
      var Thread(request, stage) := threads[id];
      var next := Unlocking;
      match stage {
        case Waiting =>
          if writer != None || readers != {} {
            return;
          }
          writer := Some(id);
          next := Locked;
        case Locked =>
          if fault != NoEffect {
            var created := RevokeCertificate(request.serial, request.revocation);
            if created && fault == Fine {
              next := Created;
            } else if created {
              unlogged := unlogged + {request.serial};
            }
          }
        case Created =>
          if fault != NoEffect {
            log := log + [Revoked(request.serial)];
          } else {
            unlogged := unlogged + {request.serial};
          }
        case Unlocking =>
          threads, writer := threads - {id}, None;
          return;
        case _ => return;
      }
      threads := threads[id := Thread(request, next)];
    }
  }
}
