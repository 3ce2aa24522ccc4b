// The MID claim protocol (internal/mid/run.go, client.go, eccsim/server.go).
//
// One process moves output records ready -> processing -> processed and answers each with one
// input record. Every remote call and every journal write is one step of the process. A step
// may fail before or after taking effect, the process may crash between any two steps, and
// ServiceNow may add and edit output records at any time.
module MidQueue {
  import opened Wrappers
  import opened MidJournal

  type Id = nat

  // The operation-bearing content of an output record; its digest stands for it.
  datatype Body = Body(topic: string, content: string)
  const TOPIC_HEARTBEAT := "Heartbeat"

  datatype RecordState = Ready | Processing | Processed

  datatype Result = Success(body: Body, version: string) | Unsupported(body: Body) | ClaimConflict(body: Body)

  // ecc_queue: output records wait for work, input records answer them.
  datatype Record = Output(state: RecordState, body: Body) | Input(responseTo: Id, result: Result)

  datatype Claim = Claim(id: Id, digest: Body, result: Option<Result>, response: Option<Id>)

  function Dispatch(body: Body, digest: Body, version: string): Result {
    if body != digest then ClaimConflict(body)
    else if body.topic == TOPIC_HEARTBEAT then Success(body, version)
    else Unsupported(body)
  }

  // Where the process stands; rest is what is left of the polled batch.
  datatype Pc =
    | Idle
    | Polled(rest: seq<(Id, Body)>)
    | Getting(claim: Claim, rest: seq<(Id, Body)>)
    | Claiming(claim: Claim, rest: seq<(Id, Body)>, seen: Body)
    | Verifying(claim: Claim, rest: seq<(Id, Body)>, seen: Body)
    | Deciding(claim: Claim, rest: seq<(Id, Body)>, seen: Body)
    | Finding(claim: Claim, rest: seq<(Id, Body)>)
    | Inserting(claim: Claim, rest: seq<(Id, Body)>)
    | Answering(claim: Claim, rest: seq<(Id, Body)>)
    | Marking(claim: Claim, rest: seq<(Id, Body)>)
    | Clearing(claim: Claim, rest: seq<(Id, Body)>)

  // The durable world, the process, and what the proofs remember: which contents polls have
  // returned, the first result journaled for each record with the digest that its claim carried,
  // and the record being worked on.
  datatype World = World(
    records: map<Id, Record>, nextID: Id, journal: Journal<Claim>, pc: Pc,
    polled: set<(Id, Body)>, first: map<Id, Result>, against: map<Id, Body>, current: Option<Id>)

  const START := World(map[], 1, Absent, Idle, {}, map[], map[], None)

  datatype Fault = Fine | NoEffect | LostReply

  datatype Action =
    | AddOutput(body: Body)
    | Edit(id: Id, body: Body)
    | Crash
    | Proceed(fault: Fault, cut: Cut, batch: seq<Id>, version: string)

  // ----- the server

  function Answers(records: map<Id, Record>, id: Id): set<Id> {
    set k | k in records && records[k].Input? && records[k].responseTo == id
  }

  function Update(w: World, id: Id, state: RecordState): World {
    if id in w.records && w.records[id].Output? then w.(records := w.records[id := w.records[id].(state := state)]) else w
  }

  function InsertAnswer(w: World, id: Id, result: Result): World {
    w.(records := w.records[w.nextID := Input(id, result)], nextID := w.nextID + 1)
  }

  // ----- the process

  function Stop(w: World): World { w.(pc := Idle) }

  // Save returns success only for a whole append.
  function Save(w: World, claim: Claim, cut: Cut, next: Pc): World {
    var journal := Append(w.journal, claim, cut);
    var isFirst := claim.result.Some? && claim.id !in w.first && (cut == All || LoadOf(journal) == Entry(claim));
    w.(journal := journal,
       first := if isFirst then w.first[claim.id := claim.result.value] else w.first,
       against := if isFirst then w.against[claim.id := claim.digest] else w.against,
       current := if journal == Absent then w.current else Some(claim.id),
       pc := if cut == All then next else Idle)
  }

  // Poll returns some of the ready output records, with their contents.
  function PollBatch(w: World, batch: seq<Id>): seq<(Id, Body)> {
    if batch == [] then []
    else
      var id := batch[0];
      (if id in w.records && w.records[id].Output? && w.records[id].state == Ready then [(id, w.records[id].body)] else [])
      + PollBatch(w, batch[1..])
  }

  function StepIdle(w: World, a: Action): World
    requires a.Proceed?
  {
    if a.fault != Fine then w
    else
      match LoadOf(w.journal)
      case Unreadable => w
      case Entry(claim) => w.(pc := Getting(claim, []))
      case Nothing =>
        var batch := PollBatch(w, a.batch);
        w.(pc := Polled(batch), polled := w.polled + set b | b in batch)
  }

  function StepGetting(w: World, a: Action): World
    requires a.Proceed? && w.pc.Getting?
  {
    var Getting(claim, rest) := w.pc;
    if a.fault != Fine || claim.id !in w.records || !w.records[claim.id].Output? then Stop(w)
    else
      match w.records[claim.id].state
      case Processed => w.(pc := Clearing(claim, rest))
      case Ready => w.(pc := Claiming(claim, rest, w.records[claim.id].body))
      case Processing => w.(pc := Deciding(claim, rest, w.records[claim.id].body))
  }

  function StepClaiming(w: World, a: Action): World
    requires a.Proceed? && w.pc.Claiming?
  {
    var Claiming(claim, rest, seen) := w.pc;
    match a.fault
    case NoEffect => Stop(w)
    case LostReply => Stop(Update(w, claim.id, Processing))
    case Fine => Update(w, claim.id, Processing).(pc := Verifying(claim, rest, seen))
  }

  function StepVerifying(w: World, a: Action): World
    requires a.Proceed? && w.pc.Verifying?
  {
    var Verifying(claim, rest, seen) := w.pc;
    if a.fault != Fine || claim.id !in w.records || w.records[claim.id] != Output(Processing, seen) then Stop(w)
    else w.(pc := Deciding(claim, rest, seen))
  }

  function StepDeciding(w: World, a: Action): World
    requires a.Proceed? && w.pc.Deciding?
  {
    var Deciding(claim, rest, seen) := w.pc;
    if a.fault != Fine then Stop(w)
    else if claim.result.Some? then w.(pc := Finding(claim, rest))
    else
      var decided := claim.(result := Some(Dispatch(seen, claim.digest, a.version)));
      Save(w, decided, a.cut, Finding(decided, rest))
  }

  // FindResponses asks for at most two.
  function StepFinding(w: World, a: Action): World
    requires a.Proceed? && w.pc.Finding?
  {
    var Finding(claim, rest) := w.pc;
    var answers := Answers(w.records, claim.id);
    if a.fault != Fine || |answers| > 1 then Stop(w)
    else if answers == {} then w.(pc := Inserting(claim, rest))
    else w.(pc := Answering(claim.(response := Some(Only(answers))), rest))
  }

  function Only(s: set<Id>): (x: Id)
    requires s != {} && |s| <= 1
    ensures s == {x}
  {
    assert exists x :: s == {x} by {
      var x :| x in s;
      assert |s - {x}| == 0;
      assert s == {x};
    }
    assert forall x, y :: x in s && y in s ==> x == y;
    var x :| x in s;
    x
  }

  function StepInserting(w: World, a: Action): World
    requires a.Proceed? && w.pc.Inserting?
  {
    var Inserting(claim, rest) := w.pc;
    if claim.result.None? then Stop(w)
    else
      match a.fault
      case NoEffect => Stop(w)
      case LostReply => Stop(InsertAnswer(w, claim.id, claim.result.value))
      case Fine => InsertAnswer(w, claim.id, claim.result.value).(pc := Answering(claim.(response := Some(w.nextID)), rest))
  }

  function StepMarking(w: World, a: Action): World
    requires a.Proceed? && w.pc.Marking?
  {
    var Marking(claim, rest) := w.pc;
    match a.fault
    case NoEffect => Stop(w)
    case LostReply => Stop(Update(w, claim.id, Processed))
    case Fine => Update(w, claim.id, Processed).(pc := Clearing(claim, rest))
  }

  function StepClearing(w: World, a: Action): World
    requires a.Proceed? && w.pc.Clearing?
  {
    match a.fault
    case NoEffect => Stop(w)
    case LostReply => Stop(w.(journal := Absent, current := None))
    case Fine => w.(journal := Absent, current := None, pc := Polled(w.pc.rest))
  }

  function Proceeding(w: World, a: Action): World
    requires a.Proceed?
  {
    match w.pc
    case Idle => StepIdle(w, a)
    case Polled(rest) =>
      if rest == [] || a.fault != Fine then Stop(w)
      else
        var claim := Claim(rest[0].0, rest[0].1, None, None);
        Save(w, claim, a.cut, Getting(claim, rest[1..]))
    case Getting(_, _) => StepGetting(w, a)
    case Claiming(_, _, _) => StepClaiming(w, a)
    case Verifying(_, _, _) => StepVerifying(w, a)
    case Deciding(_, _, _) => StepDeciding(w, a)
    case Finding(_, _) => StepFinding(w, a)
    case Inserting(_, _) => StepInserting(w, a)
    case Answering(claim, rest) => Save(w, claim, a.cut, Marking(claim, rest))
    case Marking(_, _) => StepMarking(w, a)
    case Clearing(_, _) => StepClearing(w, a)
  }

  function Step(w: World, a: Action): World {
    match a
    case AddOutput(body) => w.(records := w.records[w.nextID := Output(Ready, body)], nextID := w.nextID + 1)
    case Edit(id, body) =>
      if id in w.records && w.records[id].Output? then w.(records := w.records[id := w.records[id].(body := body)]) else w
    case Crash => Stop(w)
    case Proceed(_, _, _, _) => Proceeding(w, a)
  }

  function Exec(w: World, actions: seq<Action>): World
    decreases |actions|
  {
    if actions == [] then w else Exec(Step(w, actions[0]), actions[1..])
  }

  // ----- the invariant

  function Count(w: World, id: Id): nat { |Answers(w.records, id)| }

  function StateOf(w: World, id: Id): Option<RecordState> {
    if id in w.records && w.records[id].Output? then Some(w.records[id].state) else None
  }

  // Output records by state: answered exactly when finished, never when untouched; only the
  // current one is in progress.
  ghost predicate RecordOK(w: World, id: Id) {
    && Count(w, id) <= 1
    && (StateOf(w, id) == Some(Processed) ==> Count(w, id) == 1)
    && (StateOf(w, id) == Some(Ready) ==> Count(w, id) == 0)
    && (StateOf(w, id) == Some(Processing) ==> w.current == Some(id))
  }

  ghost predicate RecordsOK(w: World) {
    && (forall id :: RecordOK(w, id))
    && (forall k :: k in w.records ==> k < w.nextID)
  }

  // A claim carries a polled digest, and a result that is the first one journaled unless the
  // record has been answered already.
  ghost predicate ClaimOK(w: World, claim: Claim) {
    && w.current == Some(claim.id) && (claim.id, claim.digest) in w.polled
    && (claim.result.Some? ==> claim.id in w.first)
    && (claim.id in w.first && claim.result != Some(w.first[claim.id]) ==> Count(w, claim.id) == 1)
  }

  // What a result says of the content it was computed from, and of the claim's digest.
  predicate Sound(result: Result, digest: Body) {
    match result
    case Success(body, _) => body == digest && body.topic == "Heartbeat"
    case Unsupported(body) => body == digest && body.topic != "Heartbeat"
    case ClaimConflict(body) => body != digest
  }

  // Only the current record may have a result and no answer yet.
  ghost predicate FirstOK(w: World) {
    && (forall id :: id in w.first && Count(w, id) != 1 ==> w.current == Some(id))
    && (forall id :: id in w.first ==>
          id in w.against && (id, w.against[id]) in w.polled && Sound(w.first[id], w.against[id]))
    && (forall k :: k in w.records && w.records[k].Input? ==>
          && w.records[k].responseTo in w.first && w.records[k].result == w.first[w.records[k].responseTo]
          && StateOf(w, w.records[k].responseTo).Some?)
    && (forall p :: p in w.polled ==> StateOf(w, p.0).Some?)
  }

  ghost predicate EntryOK(w: World, claim: Claim) {
    w.current == Some(claim.id) && (claim.id, claim.digest) in w.polled && (claim.result.Some? ==> claim.id in w.first)
  }

  ghost predicate JournalOK(w: World) {
    match w.journal
    case Absent => w.current == None
    case File(complete, tail, broken) =>
      && w.current.Some?
      && (complete.Some? ==> EntryOK(w, complete.value))
      && (tail.Whole? ==> EntryOK(w, tail.entry))
      && (LoadOf(w.journal).Entry? ==> ClaimOK(w, LoadOf(w.journal).entry))
  }

  ghost predicate PcOK(w: World) {
    match w.pc
    case Idle => true
    case Polled(rest) => w.journal == Absent && forall p :: p in rest ==> p in w.polled
    case Getting(claim, rest) => Working(w, claim, rest)
    case Claiming(claim, rest, _) => Working(w, claim, rest) && StateOf(w, claim.id) == Some(Ready)
    case Verifying(claim, rest, _) => Working(w, claim, rest) && StateOf(w, claim.id) == Some(Processing)
    case Deciding(claim, rest, _) => Working(w, claim, rest) && StateOf(w, claim.id) == Some(Processing)
    case Finding(claim, rest) => Working(w, claim, rest) && StateOf(w, claim.id) == Some(Processing) && claim.result.Some?
    case Inserting(claim, rest) =>
      Working(w, claim, rest) && StateOf(w, claim.id) == Some(Processing) && claim.result.Some? && Count(w, claim.id) == 0
    case Answering(claim, rest) => Working(w, claim, rest) && StateOf(w, claim.id) == Some(Processing) && Count(w, claim.id) == 1
    case Marking(claim, rest) => Working(w, claim, rest) && StateOf(w, claim.id) == Some(Processing) && Count(w, claim.id) == 1
    case Clearing(claim, rest) => Working(w, claim, rest) && StateOf(w, claim.id) == Some(Processed)
  }

  ghost predicate Working(w: World, claim: Claim, rest: seq<(Id, Body)>) {
    w.journal.File? && ClaimOK(w, claim) && forall p :: p in rest ==> p in w.polled
  }

  ghost predicate Inv(w: World) {
    RecordsOK(w) && FirstOK(w) && JournalOK(w) && PcOK(w)
  }

  lemma {:induction false} StartInv()
    ensures Inv(START)
  {
    forall id ensures RecordOK(START, id) {
      assert Answers(START.records, id) == {};
    }
  }

  // ----- changes to records

  // New records and edits change no state and no answer.
  ghost predicate SameQueue(w: World, w': World) {
    && (forall id :: StateOf(w', id) == StateOf(w, id) || (StateOf(w, id) == None && StateOf(w', id) == Some(Ready) && id == w.nextID))
    && (forall id :: Answers(w'.records, id) == Answers(w.records, id))
    && (forall k :: k in w'.records && w'.records[k].Input? ==> k in w.records && w'.records[k] == w.records[k])
    && (forall k :: k in w'.records ==> k < w'.nextID) && w.nextID <= w'.nextID
    && w' == w.(records := w'.records, nextID := w'.nextID)
  }

  ghost predicate Settled(w: World) {
    RecordsOK(w) && FirstOK(w) && JournalOK(w)
  }

  lemma {:induction false} PcFree(w: World, pc: Pc)
    requires Settled(w)
    ensures Settled(w.(pc := pc))
  {
    forall id ensures RecordOK(w.(pc := pc), id) {
      assert RecordOK(w, id);
    }
  }

  lemma {:induction false} SameQueueKeeps(w: World, w': World)
    requires Inv(w) && SameQueue(w, w')
    requires w'.nextID == w.nextID || Count(w, w.nextID) == 0
    ensures Inv(w')
  {
    forall id ensures RecordOK(w', id) {
      assert RecordOK(w, id);
    }
  }

  lemma {:induction false} NoAnswersYet(w: World)
    requires RecordsOK(w) && FirstOK(w)
    ensures Answers(w.records, w.nextID) == {}
  {
    forall k | k in w.records && w.records[k].Input? ensures w.records[k].responseTo != w.nextID {
      assert StateOf(w, w.records[k].responseTo).Some?;
    }
  }

  lemma {:induction false} AddKeeps(w: World, body: Body)
    requires Inv(w)
    ensures Inv(Step(w, AddOutput(body)))
  {
    hide PcOK, JournalOK, FirstOK, RecordOK;
    var w' := Step(w, AddOutput(body));
    NoAnswersYet(w);
    forall id ensures Answers(w'.records, id) == Answers(w.records, id) {}
    SameQueueKeeps(w, w');
  }

  lemma {:induction false} EditKeeps(w: World, id: Id, body: Body)
    requires Inv(w)
    ensures Inv(Step(w, Edit(id, body)))
  {
    hide PcOK, JournalOK, FirstOK, RecordOK;
    var w' := Step(w, Edit(id, body));
    forall k ensures Answers(w'.records, k) == Answers(w.records, k) {}
    SameQueueKeeps(w, w');
  }

  // Moving the current record's state forward.
  lemma {:induction false} UpdateKeeps(w: World, id: Id, state: RecordState)
    requires Settled(w) && w.current == Some(id) && StateOf(w, id).Some?
    requires state != Ready && (state == Processed ==> Count(w, id) == 1)
    ensures Settled(Update(w, id, state))
    ensures StateOf(Update(w, id, state), id) == Some(state) && Count(Update(w, id, state), id) == Count(w, id)
  {
    var w' := Update(w, id, state);
    forall k ensures Answers(w'.records, k) == Answers(w.records, k) && (k != id ==> StateOf(w', k) == StateOf(w, k)) {}
    forall k ensures RecordOK(w', k) {
      assert RecordOK(w, k);
    }
    UpdateFirst(w, w');
  }

  lemma {:induction false} UpdateFirst(w: World, w': World)
    requires FirstOK(w) && JournalOK(w)
    requires w' == w.(records := w'.records) && forall k :: Answers(w'.records, k) == Answers(w.records, k)
    requires forall k :: StateOf(w, k).Some? ==> StateOf(w', k).Some?
    requires forall k :: k in w'.records && w'.records[k].Input? ==> k in w.records && w'.records[k] == w.records[k]
    ensures FirstOK(w') && JournalOK(w')
  {
  }

  // Answering the current record, which has no answer yet, with its first journaled result.
  lemma {:induction false} InsertKeeps(w: World, id: Id, result: Result)
    requires Settled(w) && w.current == Some(id) && StateOf(w, id) == Some(Processing) && Count(w, id) == 0
    requires id in w.first && w.first[id] == result
    ensures Settled(InsertAnswer(w, id, result))
    ensures Count(InsertAnswer(w, id, result), id) == 1 && StateOf(InsertAnswer(w, id, result), id) == Some(Processing)
  {
    hide FirstOK, JournalOK;
    var w' := InsertAnswer(w, id, result);
    forall k ensures Answers(w'.records, k) == Answers(w.records, k) + (if k == id then {w.nextID} else {}) {}
    assert w.nextID !in w.records;
    forall k ensures StateOf(w', k) == StateOf(w, k) {}
    forall k ensures RecordOK(w', k) {
      assert RecordOK(w, k);
    }
    InsertFirst(w, w', id, result);
  }

  lemma {:induction false} InsertFirst(w: World, w': World, id: Id, result: Result)
    requires FirstOK(w) && JournalOK(w) && w' == InsertAnswer(w, id, result) && id in w.first && w.first[id] == result
    requires Count(w', id) == 1 && StateOf(w, id).Some? && forall k :: k != id ==> Count(w', k) == Count(w, k)
    requires forall k :: StateOf(w', k) == StateOf(w, k)
    requires w.nextID !in w.records && w.current == Some(id)
    ensures FirstOK(w') && JournalOK(w')
  {
    hide StateOf, Count;
    forall claim | ClaimOK(w, claim) ensures ClaimOK(w', claim) {}
  }

  // What a claim must satisfy to be journaled.
  ghost predicate Savable(w: World, claim: Claim) {
    && (w.current == Some(claim.id) || w.current == None)
    && (claim.id, claim.digest) in w.polled
    && (claim.id in w.first ==> Count(w, claim.id) == 1)
    && (claim.result.Some? && claim.id !in w.first ==> Sound(claim.result.value, claim.digest))
  }

  lemma {:induction false} SaveRecords(w: World, claim: Claim, cut: Cut, next: Pc)
    requires RecordsOK(w) && FirstOK(w) && JournalOK(w) && Savable(w, claim)
    ensures RecordsOK(Save(w, claim, cut, next)) && FirstOK(Save(w, claim, cut, next))
  {
    var w' := Save(w, claim, cut, next);
    forall id ensures RecordOK(w', id) {
      assert RecordOK(w, id);
    }
    assert forall id :: StateOf(w', id) == StateOf(w, id) && Count(w', id) == Count(w, id);
    assert w'.first != w.first ==> w'.current == Some(claim.id);
  }

  lemma {:induction false} SaveJournal(w: World, claim: Claim, cut: Cut, next: Pc)
    requires JournalOK(w) && Savable(w, claim)
    ensures JournalOK(Save(w, claim, cut, next))
    ensures cut == All ==> ClaimOK(Save(w, claim, cut, next), claim) && Save(w, claim, cut, next).journal.File?
  {
    var w' := Save(w, claim, cut, next);
    assert Count(w', claim.id) == Count(w, claim.id);
    assert forall e :: EntryOK(w, e) && w.current == w'.current ==> EntryOK(w', e);
    if w'.journal.File? {
      assert w'.current == Some(claim.id);
      var l := LoadOf(w'.journal);
      if l == Entry(claim) {
        assert ClaimOK(w', claim);
      } else if l.Entry? {
        assert EntryOK(w', l.entry);
        assert w'.first == w.first || cut == All;
        assert ClaimOK(w', l.entry);
      }
    }
  }

  lemma {:induction false} SaveKeeps(w: World, claim: Claim, cut: Cut, next: Pc)
    requires Settled(w) && Savable(w, claim)
    requires cut == All ==> PcOK(Save(w, claim, cut, next))
    ensures Inv(Save(w, claim, cut, next))
  {
    hide RecordsOK, FirstOK, JournalOK;
    SaveRecords(w, claim, cut, next);
    SaveJournal(w, claim, cut, next);
  }

  // ----- each step

  lemma {:induction false} StopKeeps(w: World)
    requires Settled(w)
    ensures Inv(Stop(w))
  {
    hide RecordsOK, FirstOK, JournalOK;
    MoveTo(w, Idle);
  }

  lemma {:induction false} MoveTo(w: World, pc: Pc)
    requires Settled(w) && PcOK(w.(pc := pc))
    ensures Inv(w.(pc := pc))
  {
    hide RecordsOK, FirstOK, JournalOK, PcOK;
    PcFree(w, pc);
  }

  lemma {:induction false} PolledAreOutputs(w: World, batch: seq<Id>)
    ensures forall p :: p in PollBatch(w, batch) ==> StateOf(w, p.0).Some?
  {
    if batch != [] {
      PolledAreOutputs(w, batch[1..]);
    }
  }

  lemma {:induction false} PollKeeps(w: World, batch: seq<(Id, Body)>)
    requires Settled(w) && w.journal == Absent && forall p :: p in batch ==> StateOf(w, p.0).Some?
    ensures Inv(w.(pc := Polled(batch), polled := w.polled + set b | b in batch))
  {
    var w' := w.(pc := Polled(batch), polled := w.polled + set b | b in batch);
    forall id ensures RecordOK(w', id) {
      assert RecordOK(w, id);
    }
    assert FirstOK(w');
  }

  lemma {:induction false} IdleKeeps(w: World, a: Action)
    requires Inv(w) && a.Proceed? && w.pc == Idle
    ensures Inv(StepIdle(w, a))
  {
    hide RecordsOK, FirstOK;
    match LoadOf(w.journal)
    case Unreadable =>
    case Entry(claim) =>
      MoveTo(w, Getting(claim, []));
    case Nothing =>
      PolledAreOutputs(w, a.batch);
      PollKeeps(w, PollBatch(w, a.batch));
  }

  lemma {:induction false} PolledKeeps(w: World, a: Action)
    requires Inv(w) && a.Proceed? && w.pc.Polled? && w.pc.rest != [] && a.fault == Fine
    ensures Inv(Proceeding(w, a))
  {
    hide RecordsOK, LoadOf, Append;
    var rest := w.pc.rest;
    var claim := Claim(rest[0].0, rest[0].1, None, None);
    assert Savable(w, claim);
    SaveJournal(w, claim, a.cut, Getting(claim, rest[1..]));
    SaveKeeps(w, claim, a.cut, Getting(claim, rest[1..]));
  }

  lemma {:induction false} GettingKeeps(w: World, a: Action)
    requires Inv(w) && a.Proceed? && w.pc.Getting?
    ensures Inv(StepGetting(w, a))
  {
    hide RecordsOK, FirstOK, JournalOK;
    StopKeeps(w);
    MoveTo(w, StepGetting(w, a).pc);
  }

  lemma {:induction false} ClaimingKeeps(w: World, a: Action)
    requires Inv(w) && a.Proceed? && w.pc.Claiming?
    ensures Inv(StepClaiming(w, a))
  {
    hide RecordsOK, FirstOK, JournalOK;
    var claim := w.pc.claim;
    UpdateKeeps(w, claim.id, Processing);
    var w' := Update(w, claim.id, Processing);
    StopKeeps(w);
    StopKeeps(w');
    if a.fault == Fine {
      MoveTo(w', Verifying(claim, w.pc.rest, w.pc.seen));
    }
  }

  lemma {:induction false} VerifyingKeeps(w: World, a: Action)
    requires Inv(w) && a.Proceed? && w.pc.Verifying?
    ensures Inv(StepVerifying(w, a))
  {
    hide RecordsOK, FirstOK, JournalOK;
    StopKeeps(w);
    MoveTo(w, Deciding(w.pc.claim, w.pc.rest, w.pc.seen));
  }

  lemma {:induction false} DecidingKeeps(w: World, a: Action)
    requires Inv(w) && a.Proceed? && w.pc.Deciding?
    ensures Inv(StepDeciding(w, a))
  {
    hide RecordsOK, FirstOK, JournalOK, LoadOf, Append;
    var Deciding(claim, rest, seen) := w.pc;
    if a.fault != Fine {
      StopKeeps(w);
    } else if claim.result.Some? {
      MoveTo(w, Finding(claim, rest));
    } else {
      var decided := claim.(result := Some(Dispatch(seen, claim.digest, a.version)));
      assert Savable(w, decided);
      SaveJournal(w, decided, a.cut, Finding(decided, rest));
      SaveKeeps(w, decided, a.cut, Finding(decided, rest));
    }
  }

  lemma {:induction false} FindingKeeps(w: World, a: Action)
    requires Inv(w) && a.Proceed? && w.pc.Finding?
    ensures Inv(StepFinding(w, a))
  {
    hide RecordsOK, FirstOK, JournalOK;
    StopKeeps(w);
    if StepFinding(w, a) != Stop(w) {
      MoveTo(w, StepFinding(w, a).pc);
    }
  }

  lemma {:induction false} InsertingKeeps(w: World, a: Action)
    requires Inv(w) && a.Proceed? && w.pc.Inserting?
    ensures Inv(StepInserting(w, a))
  {
    hide RecordsOK, FirstOK, JournalOK, Answers;
    var claim := w.pc.claim;
    InsertKeeps(w, claim.id, claim.result.value);
    var w' := InsertAnswer(w, claim.id, claim.result.value);
    StopKeeps(w);
    StopKeeps(w');
    if a.fault == Fine {
      MoveTo(w', Answering(claim.(response := Some(w.nextID)), w.pc.rest));
    }
  }

  lemma {:induction false} AnsweringKeeps(w: World, a: Action)
    requires Inv(w) && a.Proceed? && w.pc.Answering?
    ensures Inv(Proceeding(w, a))
  {
    hide RecordsOK, JournalOK, LoadOf, Append;
    var Answering(claim, rest) := w.pc;
    assert Savable(w, claim);
    SaveJournal(w, claim, a.cut, Marking(claim, rest));
    SaveKeeps(w, claim, a.cut, Marking(claim, rest));
  }

  lemma {:induction false} MarkingKeeps(w: World, a: Action)
    requires Inv(w) && a.Proceed? && w.pc.Marking?
    ensures Inv(StepMarking(w, a))
  {
    hide RecordsOK, FirstOK, JournalOK;
    var claim := w.pc.claim;
    UpdateKeeps(w, claim.id, Processed);
    var w' := Update(w, claim.id, Processed);
    StopKeeps(w);
    StopKeeps(w');
    if a.fault == Fine {
      MoveTo(w', Clearing(claim, w.pc.rest));
    }
  }

  lemma {:induction false} ClearFirst(w: World)
    requires FirstOK(w) && forall id :: w.current == Some(id) ==> Count(w, id) == 1
    ensures FirstOK(w.(journal := Absent, current := None))
  {
    var w' := w.(journal := Absent, current := None);
    assert forall id :: StateOf(w', id) == StateOf(w, id) && Count(w', id) == Count(w, id);
    hide StateOf, Count;
  }

  lemma {:induction false} ClearingKeeps(w: World, a: Action)
    requires Inv(w) && a.Proceed? && w.pc.Clearing?
    ensures Inv(StepClearing(w, a))
  {
    var w' := w.(journal := Absent, current := None);
    assert forall id :: StateOf(w', id) == StateOf(w, id) && Count(w', id) == Count(w, id);
    forall id: Id ensures RecordOK(w', id) && (w.current == Some(id) ==> Count(w, id) == 1) {
      assert RecordOK(w, id);
    }
    ClearFirst(w);
    StopKeeps(w);
    StopKeeps(w');
    MoveTo(w', Polled(w.pc.rest));
  }

  lemma {:induction false} StepInv(w: World, a: Action)
    requires Inv(w)
    ensures Inv(Step(w, a))
  {
    hide Inv, Settled, StepIdle, StepGetting, StepClaiming, StepVerifying, StepDeciding, StepFinding, StepInserting,
      StepMarking, StepClearing, Save;
    match a
    case AddOutput(body) => AddKeeps(w, body);
    case Edit(id, body) => EditKeeps(w, id, body);
    case Crash => InvSettled(w); StopKeeps(w);
    case Proceed(_, _, _, _) =>
      match w.pc
      case Idle => IdleKeeps(w, a);
      case Polled(rest) => if rest == [] || a.fault != Fine { InvSettled(w); StopKeeps(w); } else { PolledKeeps(w, a); }
      case Getting(_, _) => GettingKeeps(w, a);
      case Claiming(_, _, _) => ClaimingKeeps(w, a);
      case Verifying(_, _, _) => VerifyingKeeps(w, a);
      case Deciding(_, _, _) => DecidingKeeps(w, a);
      case Finding(_, _) => FindingKeeps(w, a);
      case Inserting(_, _) => InsertingKeeps(w, a);
      case Answering(_, _) => AnsweringKeeps(w, a);
      case Marking(_, _) => MarkingKeeps(w, a);
      case Clearing(_, _) => ClearingKeeps(w, a);
  }

  lemma {:induction false} InvSettled(w: World)
    requires Inv(w)
    ensures Settled(w)
  {
  }

  lemma {:induction false} ExecInv(w: World, actions: seq<Action>)
    requires Inv(w)
    ensures Inv(Exec(w, actions))
    decreases |actions|
  {
    hide Inv, Step;
    if actions != [] {
      StepInv(w, actions[0]);
      ExecInv(Step(w, actions[0]), actions[1..]);
    }
  }

  // ----- theorems over every run

  // THEOREM (exactly once). After any run every output record has at most one answer, and a
  // processed one has exactly one.
  lemma {:induction false} ExactlyOnce(actions: seq<Action>, id: Id)
    ensures var w := Exec(START, actions);
      Count(w, id) <= 1 && (StateOf(w, id) == Some(Processed) ==> Count(w, id) == 1)
  {
    StartInv();
    ExecInv(START, actions);
    assert RecordOK(Exec(START, actions), id);
  }

  // THEOREM (single claim). At most one output record is in progress; while one is, the journal
  // file exists and whatever can be loaded from it is a claim of that record.
  lemma {:induction false} SingleClaim(actions: seq<Action>, a: Id, b: Id)
    ensures var w := Exec(START, actions);
      && (StateOf(w, a) == Some(Processing) && StateOf(w, b) == Some(Processing) ==> a == b)
      && (StateOf(w, a) == Some(Processing) ==>
            w.journal.File? && (LoadOf(w.journal).Entry? ==> LoadOf(w.journal).entry.id == a))
  {
    StartInv();
    ExecInv(START, actions);
    var w := Exec(START, actions);
    assert RecordOK(w, a) && RecordOK(w, b);
  }

  // What the first journaled results and the answers keep from one moment to any later one.
  ghost predicate Remembers(w: World, w': World) {
    && (forall id :: id in w.first ==> id in w'.first && w'.first[id] == w.first[id])
    && (forall k :: k in w.records ==> k in w'.records)
    && (forall k :: k in w.records && w.records[k].Input? ==> w'.records[k] == w.records[k])
    && (forall id :: StateOf(w, id).Some? ==> StateOf(w', id).Some?)
    && (forall id :: StateOf(w, id) == Some(Processed) ==> StateOf(w', id) == Some(Processed))
    && (forall id :: StateOf(w, id) == Some(Processing) ==> StateOf(w', id) != Some(Ready))
  }

  lemma {:induction false} SameRemembers(w: World, w': World)
    requires w'.records == w.records && forall id :: id in w.first ==> id in w'.first && w'.first[id] == w.first[id]
    ensures Remembers(w, w')
  {
    assert forall id :: StateOf(w', id) == StateOf(w, id);
  }

  // Records may be added at nextID, and an output record may change.
  lemma {:induction false} RecordRemembers(w: World, w': World, id: Id, record: Record)
    requires w'.records == w.records[id := record] && w'.first == w.first
    requires id in w.records ==> w.records[id].Output? && record.Output?
    requires StateOf(w, id) == Some(Processed) ==> StateOf(w', id) == Some(Processed)
    requires StateOf(w, id) == Some(Processing) ==> StateOf(w', id) != Some(Ready)
    ensures Remembers(w, w')
  {
    assert forall k :: k != id ==> StateOf(w', k) == StateOf(w, k);
  }

  lemma {:induction false} ProceedRemembers(w: World, a: Action)
    requires Inv(w) && a.Proceed?
    ensures Remembers(w, Proceeding(w, a))
  {
    hide Remembers, Proceeding;
    if w.pc.Inserting? {
      InsertRemembers(w, a);
    } else if w.pc.Claiming? || w.pc.Marking? {
      UpdateRemembers(w, a);
    } else {
      OtherRemembers(w, a);
    }
  }

  lemma {:induction false} InsertRemembers(w: World, a: Action)
    requires Inv(w) && a.Proceed? && w.pc.Inserting?
    ensures Remembers(w, Proceeding(w, a))
  {
    hide FirstOK, JournalOK, Append, LoadOf, Answers, RecordOK, Count, Remembers;
    var w' := Proceeding(w, a);
    if w'.records == w.records { SameRemembers(w, w'); } else {
      assert w.nextID !in w.records;
      RecordRemembers(w, w', w.nextID, Input(w.pc.claim.id, w.pc.claim.result.value));
    }
  }

  lemma {:induction false} UpdateRemembers(w: World, a: Action)
    requires Inv(w) && a.Proceed? && (w.pc.Claiming? || w.pc.Marking?)
    ensures Remembers(w, Proceeding(w, a))
  {
    hide FirstOK, JournalOK, Append, LoadOf, Answers, RecordOK, Count, Remembers;
    var w' := Proceeding(w, a);
    if w'.records == w.records { SameRemembers(w, w'); } else { RecordRemembers(w, w', w.pc.claim.id, w'.records[w.pc.claim.id]); }
  }

  lemma {:induction false} OtherRemembers(w: World, a: Action)
    requires a.Proceed? && !w.pc.Inserting? && !w.pc.Claiming? && !w.pc.Marking?
    ensures Remembers(w, Proceeding(w, a))
  {
    hide Append, LoadOf, Answers, Remembers;
    SameRemembers(w, Proceeding(w, a));
  }

  lemma {:induction false} StepRemembers(w: World, a: Action)
    requires Inv(w)
    ensures Remembers(w, Step(w, a))
  {
    hide FirstOK, JournalOK, PcOK, Answers, RecordOK, Count, Remembers, Proceeding;
    var w' := Step(w, a);
    assert w.nextID !in w.records;
    match a
    case AddOutput(body) => RecordRemembers(w, w', w.nextID, Output(Ready, body));
    case Edit(id, body) =>
      if w'.records == w.records { SameRemembers(w, w'); } else { RecordRemembers(w, w', id, w.records[id].(body := body)); }
    case Crash => SameRemembers(w, w');
    case Proceed(_, _, _, _) => ProceedRemembers(w, a);
  }

  lemma {:induction false} RemembersOnward(a: World, b: World, c: World)
    requires Remembers(a, b) && Remembers(b, c)
    ensures Remembers(a, c)
  {
    hide StateOf;
    forall id: Id | StateOf(a, id).Some? ensures StateOf(c, id).Some? {}
    forall id: Id | StateOf(a, id) == Some(Processing) ensures StateOf(c, id) != Some(Ready) {
      assert StateOf(b, id).Some?;
      var reached := StateOf(b, id).value;
      assert reached != Ready;
      assert reached == Processing || reached == Processed;
    }
  }

  lemma {:induction false} ExecRemembers(w: World, actions: seq<Action>)
    requires Inv(w)
    ensures Remembers(w, Exec(w, actions))
    decreases |actions|
  {
    hide Inv, Step;
    if actions == [] {
      SameRemembers(w, w);
    } else {
      StepInv(w, actions[0]);
      StepRemembers(w, actions[0]);
      ExecRemembers(Step(w, actions[0]), actions[1..]);
      RemembersOnward(w, Step(w, actions[0]), Exec(w, actions));
    }
  }

  lemma {:induction false} ExecConcat(w: World, before: seq<Action>, after: seq<Action>)
    ensures Exec(w, before + after) == Exec(Exec(w, before), after)
    decreases |before|
  {
    if before == [] {
      assert before + after == after;
    } else {
      assert (before + after)[1..] == before[1..] + after;
      ExecConcat(Step(w, before[0]), before[1..], after);
    }
  }

  // THEOREM (write ahead). Every answer is the result that was journaled first for its record,
  // which no later run changes: success for a heartbeat with the content that the claim's digest
  // stands for, unsupported for another topic with that content, and a conflict for other content.
  lemma {:induction false} WriteAhead(before: seq<Action>, after: seq<Action>, k: Id)
    ensures var w, w' := Exec(START, before), Exec(START, before + after);
      && (k in w'.records && w'.records[k].Input? ==>
            var Input(id, result) := w'.records[k];
            && id in w'.first && w'.first[id] == result
            && id in w'.against && (id, w'.against[id]) in w'.polled
            && (result.Success? ==> result.body.topic == "Heartbeat" && result.body == w'.against[id])
            && (result.Unsupported? ==> result.body.topic != "Heartbeat" && result.body == w'.against[id])
            && (result.ClaimConflict? ==> result.body != w'.against[id]))
      && (forall id :: id in w.first ==> id in w'.first && w'.first[id] == w.first[id])
      && (k in w.records && w.records[k].Input? ==> k in w'.records && w'.records[k] == w.records[k])
  {
    StartInv();
    ExecInv(START, before);
    ExecInv(START, before + after);
    ExecConcat(START, before, after);
    ExecRemembers(Exec(START, before), after);
  }

  // ----- a cycle without failures

  const MAX_CALLS := 10

  // The process moves, and nothing fails.
  predicate Smooth(a: Action) { a.Proceed? && a.fault == Fine && a.cut == All }

  // The process alone, with nothing failing, until it has dealt with its claim.
  function Quiet(w: World, go: Action, n: nat): World
    decreases n
  {
    if n == 0 || w.pc.Polled? then w else Quiet(Step(w, go), go, n - 1)
  }

  ghost predicate Done(w: World, id: Id, rest: seq<(Id, Body)>) {
    Inv(w) && w.pc == Polled(rest) && w.journal == Absent && StateOf(w, id) == Some(Processed)
  }

  lemma {:induction false} FinishClearing(w: World, go: Action, n: nat)
    requires Smooth(go) && Inv(w) && w.pc.Clearing? && n >= 1
    ensures Done(Quiet(w, go, n), w.pc.claim.id, w.pc.rest)
  {
    hide RecordsOK, FirstOK, JournalOK, Proceeding;
    StepInv(w, go);
    ClearingStep(w, go);
    assert Quiet(w, go, n) == Quiet(Step(w, go), go, n - 1) == Step(w, go);
  }

  lemma {:induction false} ClearingStep(w: World, go: Action)
    requires PcOK(w) && w.pc.Clearing? && go.Proceed? && go.fault == Fine
    ensures Step(w, go).pc == Polled(w.pc.rest) && Step(w, go).journal == Absent
    ensures StateOf(Step(w, go), w.pc.claim.id) == Some(Processed)
  {
  }

  lemma {:induction false} FinishMarking(w: World, go: Action, n: nat)
    requires Smooth(go) && Inv(w) && w.pc.Marking? && n >= 2
    ensures Done(Quiet(w, go, n), w.pc.claim.id, w.pc.rest)
  {
    hide Inv;
    StepInv(w, go);
    FinishClearing(Step(w, go), go, n - 1);
  }

  lemma {:induction false} FinishAnswering(w: World, go: Action, n: nat)
    requires Smooth(go) && Inv(w) && w.pc.Answering? && n >= 3
    ensures Done(Quiet(w, go, n), w.pc.claim.id, w.pc.rest)
  {
    hide Inv;
    StepInv(w, go);
    FinishMarking(Step(w, go), go, n - 1);
  }

  lemma {:induction false} FinishInserting(w: World, go: Action, n: nat)
    requires Smooth(go) && Inv(w) && w.pc.Inserting? && w.pc.claim.result.Some? && n >= 4
    ensures Done(Quiet(w, go, n), w.pc.claim.id, w.pc.rest)
  {
    hide Inv;
    StepInv(w, go);
    FinishAnswering(Step(w, go), go, n - 1);
  }

  lemma {:induction false} FindingFacts(w: World)
    requires Inv(w) && w.pc.Finding?
    ensures w.pc.claim.result.Some? && Count(w, w.pc.claim.id) <= 1
  {
    assert RecordOK(w, w.pc.claim.id);
  }

  lemma {:induction false} FinishFinding(w: World, go: Action, n: nat)
    requires Smooth(go) && Inv(w) && w.pc.Finding? && n >= 5
    ensures Done(Quiet(w, go, n), w.pc.claim.id, w.pc.rest)
  {
    StepInv(w, go);
    FindingFacts(w);
    hide Inv;
    var w' := Step(w, go);
    assert w'.pc.Answering? || w'.pc.Inserting?;
    hide Step;
    if w'.pc.Answering? {
      FinishAnswering(w', go, n - 1);
    } else {
      FinishInserting(w', go, n - 1);
    }
  }

  lemma {:induction false} FinishDeciding(w: World, go: Action, n: nat)
    requires Smooth(go) && Inv(w) && w.pc.Deciding? && n >= 6
    ensures Done(Quiet(w, go, n), w.pc.claim.id, w.pc.rest)
  {
    hide Inv;
    StepInv(w, go);
    FinishFinding(Step(w, go), go, n - 1);
  }

  lemma {:induction false} FinishClaiming(w: World, go: Action, n: nat)
    requires Smooth(go) && Inv(w) && w.pc.Claiming? && n >= 8 && StateOf(w, w.pc.claim.id).Some? && w.records[w.pc.claim.id].body == w.pc.seen
    ensures Done(Quiet(w, go, n), w.pc.claim.id, w.pc.rest)
  {
    hide Inv;
    StepInv(w, go);
    var w' := Step(w, go);
    StepInv(w', go);
    FinishDeciding(Step(w', go), go, n - 2);
  }

  lemma {:induction false} FinishGetting(w: World, go: Action, n: nat)
    requires Smooth(go) && Inv(w) && w.pc.Getting? && n >= 9
    ensures Done(Quiet(w, go, n), w.pc.claim.id, w.pc.rest)
  {
    var id := w.pc.claim.id;
    assert (id, w.pc.claim.digest) in w.polled && StateOf(w, id).Some?;
    hide Inv;
    StepInv(w, go);
    var w' := Step(w, go);
    assert match w.records[id].state
      case Ready => w'.pc.Claiming? && w'.records == w.records && w'.pc.seen == w.records[id].body
      case Processing => w'.pc.Deciding?
      case Processed => w'.pc.Clearing?;
    hide Step;
    match w.records[id].state
    case Ready => FinishClaiming(w', go, n - 1);
    case Processing => FinishDeciding(w', go, n - 1);
    case Processed => FinishClearing(w', go, n - 1);
  }

  // THEOREM (recovery of a claim). Whatever happened before, a cycle without failures that can
  // read a claim from the journal answers it exactly once, finishes it and clears the journal.
  lemma {:induction false} QuietCycle(actions: seq<Action>, go: Action)
    requires Smooth(go) && Exec(START, actions).pc == Idle && LoadOf(Exec(START, actions).journal).Entry?
    ensures var w := Exec(START, actions); var w' := Quiet(w, go, MAX_CALLS); var id := LoadOf(w.journal).entry.id;
      w'.journal == Absent && StateOf(w', id) == Some(Processed) && Count(w', id) == 1
  {
    hide Inv;
    var w := Exec(START, actions);
    StartInv();
    ExecInv(START, actions);
    StepInv(w, go);
    FinishGetting(Step(w, go), go, MAX_CALLS - 1);
    DoneCount(Quiet(w, go, MAX_CALLS), LoadOf(w.journal).entry.id);
  }

  lemma {:induction false} DoneCount(w: World, id: Id)
    requires Inv(w) && StateOf(w, id) == Some(Processed)
    ensures Count(w, id) == 1
  {
    assert RecordOK(w, id);
  }

  // ----- a batch without failures

  function Repeat(a: Action, n: nat): seq<Action> { seq(n, i => a) }

  lemma {:induction false} QuietExec(w: World, go: Action, n: nat) returns (calls: nat)
    ensures calls <= n && Quiet(w, go, n) == Exec(w, Repeat(go, calls))
    decreases n
  {
    hide Step;
    if n == 0 || w.pc.Polled? {
      calls := 0;
    } else {
      calls := QuietExec(Step(w, go), go, n - 1);
      calls := calls + 1;
      assert Repeat(go, calls)[1..] == Repeat(go, calls - 1);
    }
  }

  lemma {:induction false} QuietRemembers(w: World, go: Action, n: nat)
    requires Inv(w)
    ensures Inv(Quiet(w, go, n)) && Remembers(w, Quiet(w, go, n))
    decreases n
  {
    hide Inv, Step, Remembers;
    if n == 0 || w.pc.Polled? {
      SameRemembers(w, w);
    } else {
      StepInv(w, go);
      StepRemembers(w, go);
      QuietRemembers(Step(w, go), go, n - 1);
      RemembersOnward(w, Step(w, go), Quiet(w, go, n));
    }
  }

  // Nothing but the current record changes, and no record but an answer appears.
  ghost predicate OthersSame(w: World, w': World, id: Id) {
    forall k :: k in w.records && k != id ==> k in w'.records && w'.records[k] == w.records[k]
  }

  lemma {:induction false} StepOthers(w: World, go: Action, id: Id)
    requires Smooth(go) && Inv(w) && w.current == Some(id) && !w.pc.Polled?
    ensures OthersSame(w, Step(w, go), id)
    ensures Step(w, go).current == Some(id) || Step(w, go).pc.Polled?
  {
    hide Answers, RecordOK, FirstOK, Append, LoadOf;
    assert w.nextID !in w.records;
  }

  lemma {:induction false} QuietOthers(w: World, go: Action, id: Id, n: nat)
    requires Smooth(go) && Inv(w) && w.current == Some(id) && !w.pc.Polled?
    ensures OthersSame(w, Quiet(w, go, n), id)
    decreases n
  {
    hide Inv, Step;
    if n > 0 {
      StepInv(w, go);
      StepOthers(w, go, id);
      var w' := Step(w, go);
      if !w'.pc.Polled? { QuietOthers(w', go, id, n - 1); }
    }
  }

  // A polled record is as it was polled, or finished with the result of its polled content.
  predicate Placed(w: World, p: (Id, Body), version: string) {
    p.0 in w.records && (w.records[p.0] == Output(Ready, p.1) || Finished(w, p, version))
  }

  predicate Finished(w: World, p: (Id, Body), version: string) {
    StateOf(w, p.0) == Some(Processed) && p.0 in w.first && w.first[p.0] == Dispatch(p.1, p.1, version)
  }

  // The claim of a record that is as it was polled is decided by its content.
  lemma {:induction false} FreshDecides(w: World, go: Action)
    requires Smooth(go) && Inv(w) && w.pc.Getting? && w.pc.claim.result.None? && w.pc.claim.id !in w.first
    requires w.pc.claim.id in w.records && w.records[w.pc.claim.id] == Output(Ready, w.pc.claim.digest)
    ensures var w4 := Step(Step(Step(Step(w, go), go), go), go); var id := w.pc.claim.id;
      && w4.pc.Finding? && id in w4.first && w4.first[id] == Dispatch(w.pc.claim.digest, w.pc.claim.digest, go.version)
      && forall n: nat :: Quiet(w, go, n + 4) == Quiet(w4, go, n)
  {
    hide Inv, LoadOf;
    var claim, rest := w.pc.claim, w.pc.rest;
    var w1 := Step(w, go);
    assert w1.pc == Claiming(claim, rest, claim.digest) && w1.records == w.records && w1.first == w.first;
    var w2 := Step(w1, go);
    assert w2.pc == Verifying(claim, rest, claim.digest) && w2.records[claim.id] == Output(Processing, claim.digest);
    var w3 := Step(w2, go);
    assert w3.pc == Deciding(claim, rest, claim.digest) && w3.first == w.first;
    var w4 := Step(w3, go);
    forall n: nat ensures Quiet(w, go, n + 4) == Quiet(w4, go, n) {
      hide Step;
      assert Quiet(w, go, n + 4) == Quiet(w1, go, n + 3) == Quiet(w2, go, n + 2) == Quiet(w3, go, n + 1) == Quiet(w4, go, n);
    }
  }

  lemma {:induction false} PolledStep(w: World, go: Action)
    requires Smooth(go) && Inv(w) && w.pc.Polled? && w.pc.rest != [] && Placed(w, w.pc.rest[0], go.version)
    ensures var p := w.pc.rest[0]; var w' := Step(w, go);
      && w'.pc == Getting(Claim(p.0, p.1, None, None), w.pc.rest[1..]) && w'.current == Some(p.0)
      && w'.records == w.records && w'.first == w.first
      && (w.records[p.0] == Output(Ready, p.1) ==> p.0 !in w.first)
  {
    hide Answers, LoadOf;
    var p := w.pc.rest[0];
    assert RecordOK(w, p.0);
  }

  // One polled record from its turn to the next one's.
  lemma {:induction false} DealsWithOne(w: World, go: Action)
    requires Smooth(go) && Inv(w) && w.pc.Polled? && w.pc.rest != []
    requires forall p :: p in w.pc.rest ==> Placed(w, p, go.version)
    ensures var w' := Quiet(Step(w, go), go, MAX_CALLS - 1);
      && Inv(w') && w'.pc == Polled(w.pc.rest[1..]) && w'.journal == Absent && Remembers(w, w')
      && Finished(w', w.pc.rest[0], go.version)
      && forall p :: p in w.pc.rest ==> Placed(w', p, go.version)
  {
    var rest, p := w.pc.rest, w.pc.rest[0];
    assert p in rest && Placed(w, p, go.version);
    var w1 := Step(w, go);
    hide Inv, Step, Remembers, Dispatch;
    PolledStep(w, go);
    StepInv(w, go);
    StepRemembers(w, go);
    FinishGetting(w1, go, MAX_CALLS - 1);
    QuietRemembers(w1, go, MAX_CALLS - 1);
    QuietOthers(w1, go, p.0, MAX_CALLS - 1);
    var w' := Quiet(w1, go, MAX_CALLS - 1);
    RemembersOnward(w, w1, w');
    if w.records[p.0] == Output(Ready, p.1) {
      FreshFinishes(w1, go);
    } else {
      FirstKept(w, w', p.0);
    }
    forall q | q in rest ensures Placed(w', q, go.version) {
      assert Placed(w, q, go.version);
      OthersPlaced(w, w', p, q, go.version);
    }
  }

  lemma {:induction false} FirstKept(w: World, w': World, id: Id)
    requires Remembers(w, w') && id in w.first
    ensures id in w'.first && w'.first[id] == w.first[id]
  {
  }

  lemma {:induction false} OthersPlaced(w: World, w': World, p: (Id, Body), q: (Id, Body), version: string)
    requires Placed(w, p, version) && Placed(w, q, version) && OthersSame(w, w', p.0) && Remembers(w, w') && Finished(w', p, version)
    ensures Placed(w', q, version)
  {
    hide Dispatch;
    if q.0 in w.first { FirstKept(w, w', q.0); }
  }

  lemma {:induction false} FreshFinishes(w: World, go: Action)
    requires Smooth(go) && Inv(w) && w.pc.Getting? && w.pc.claim.result.None? && w.pc.claim.id !in w.first
    requires w.pc.claim.id in w.records && w.records[w.pc.claim.id] == Output(Ready, w.pc.claim.digest)
    ensures var w' := Quiet(w, go, MAX_CALLS - 1); var id := w.pc.claim.id;
      id in w'.first && w'.first[id] == Dispatch(w.pc.claim.digest, w.pc.claim.digest, go.version)
  {
    hide Inv, Step, Remembers, Dispatch;
    FreshDecides(w, go);
    var w1 := Step(w, go);
    StepInv(w, go);
    var w2 := Step(w1, go);
    StepInv(w1, go);
    var w3 := Step(w2, go);
    StepInv(w2, go);
    var w4 := Step(w3, go);
    StepInv(w3, go);
    QuietRemembers(w4, go, MAX_CALLS - 5);
    assert Quiet(w, go, MAX_CALLS - 5 + 4) == Quiet(w4, go, MAX_CALLS - 5);
    FirstKept(w4, Quiet(w4, go, MAX_CALLS - 5), w.pc.claim.id);
  }

  lemma {:induction false} WorksThrough(w: World, go: Action) returns (calls: nat)
    requires Smooth(go) && Inv(w) && w.pc.Polled? && w.journal == Absent
    requires forall p :: p in w.pc.rest ==> Placed(w, p, go.version)
    ensures calls <= MAX_CALLS * |w.pc.rest|
    ensures var w' := Exec(w, Repeat(go, calls));
      && Inv(w') && w'.pc == Polled([]) && w'.journal == Absent && Remembers(w, w')
      && forall p :: p in w.pc.rest ==> Finished(w', p, go.version)
    decreases |w.pc.rest|
  {
    hide Inv, Step, Remembers, Dispatch, Placed;
    var rest := w.pc.rest;
    if rest == [] {
      calls := 0;
      SameRemembers(w, w);
    } else {
      DealsWithOne(w, go);
      var w1 := Quiet(Step(w, go), go, MAX_CALLS - 1);
      var one := QuietExec(Step(w, go), go, MAX_CALLS - 1);
      assert forall p :: p in rest[1..] ==> p in rest;
      var more := WorksThrough(w1, go);
      calls := 1 + one + more;
      RepeatExec(w, go, one, more);
      var w' := Exec(w, Repeat(go, calls));
      RemembersOnward(w, w1, w');
      forall p | p in rest ensures Finished(w', p, go.version) {
        if p == rest[0] { FinishedKept(w1, w', p, go.version); } else { assert p in rest[1..]; }
      }
    }
  }

  lemma {:induction false} FinishedKept(w: World, w': World, p: (Id, Body), version: string)
    requires Finished(w, p, version) && Remembers(w, w')
    ensures Finished(w', p, version)
  {
    hide Dispatch;
    FirstKept(w, w', p.0);
  }

  lemma {:induction false} RepeatExec(w: World, go: Action, one: nat, more: nat)
    ensures Exec(w, Repeat(go, 1 + one + more)) == Exec(Exec(Step(w, go), Repeat(go, one)), Repeat(go, more))
  {
    hide Step;
    assert Repeat(go, 1 + one + more)[1..] == Repeat(go, one) + Repeat(go, more);
    ExecConcat(Step(w, go), Repeat(go, one), Repeat(go, more));
  }

  lemma {:induction false} PollPlaces(w: World, batch: seq<Id>)
    ensures forall p :: p in PollBatch(w, batch) ==> p.0 in w.records && w.records[p.0] == Output(Ready, p.1)
  {
    if batch != [] {
      PollPlaces(w, batch[1..]);
    }
  }

  // A polled record is finished and answered once, by the result of its polled content.
  ghost predicate Answered(w: World, p: (Id, Body), version: string) {
    && StateOf(w, p.0) == Some(Processed) && Count(w, p.0) == 1
    && forall k :: k in Answers(w.records, p.0) ==>
         w.records[k] == Input(p.0, if p.1.topic == "Heartbeat" then Success(p.1, version) else Unsupported(p.1))
  }

  lemma {:induction false} FinishedAnswered(w: World, p: (Id, Body), version: string)
    requires Inv(w) && Finished(w, p, version)
    ensures Answered(w, p, version)
  {
    DoneCount(w, p.0);
  }

  // THEOREM (an ordinary cycle). Whatever happened before, a cycle without failures that finds no
  // journal answers every record that it polls exactly once, by what was polled, finishes it, and
  // leaves no journal, within a fixed number of calls for each record.
  lemma {:induction false} QuietPoll(actions: seq<Action>, go: Action)
    requires Smooth(go) && Exec(START, actions).pc == Idle && LoadOf(Exec(START, actions).journal) == Nothing
    ensures var w := Exec(START, actions); var batch := PollBatch(w, go.batch);
      exists calls: nat :: calls <= 1 + MAX_CALLS * |batch|
        && var w' := Exec(w, Repeat(go, calls));
           w'.pc == Polled([]) && w'.journal == Absent && forall p :: p in batch ==> Answered(w', p, go.version)
  {
    var w := Exec(START, actions);
    var batch := PollBatch(w, go.batch);
    var w1 := Step(w, go);
    assert w1.pc == Polled(batch) && w1.records == w.records && w1.journal == w.journal;
    assert w.journal == Absent;
    hide Inv, Step, Dispatch, Answered, PollBatch;
    StartInv();
    ExecInv(START, actions);
    StepInv(w, go);
    PollPlaces(w, go.batch);
    var more := WorksThrough(w1, go);
    RepeatExec(w, go, 0, more);
    var w' := Exec(w, Repeat(go, 1 + more));
    assert Exec(w1, Repeat(go, 0)) == w1;
    forall p | p in batch ensures Answered(w', p, go.version) {
      FinishedAnswered(w', p, go.version);
    }
  }

  // ----- a journal that cannot be read

  // THEOREM (standstill, exactly). At rest the process does nothing whatever it is given exactly
  // if its journal cannot be read.
  lemma {:induction false} StandstillExactly(w: World)
    requires w.pc == Idle
    ensures (forall a: Action :: a.Proceed? ==> Step(w, a) == w) <==> LoadOf(w.journal) == Unreadable
  {
    if LoadOf(w.journal) != Unreadable {
      var a := Proceed(Fine, All, [], "");
      assert Step(w, a).pc != Idle;
    }
  }

  ghost predicate Standing(w: World, w': World) {
    && w'.pc == Idle && w'.journal == w.journal
    && forall id :: StateOf(w, id).Some? ==> StateOf(w', id) == StateOf(w, id) && Count(w', id) == Count(w, id)
  }

  lemma {:induction false} StandsStill(w: World, a: Action)
    requires Inv(w) && w.pc == Idle && LoadOf(w.journal) == Unreadable
    ensures Standing(w, Step(w, a))
  {
    var w' := Step(w, a);
    NoAnswersYet(w);
    forall id: Id ensures Answers(w'.records, id) == Answers(w.records, id) {}
  }

  lemma {:induction false} StandsForever(w: World, actions: seq<Action>)
    requires Inv(w) && w.pc == Idle && LoadOf(w.journal) == Unreadable
    ensures Standing(w, Exec(w, actions))
    decreases |actions|
  {
    hide Inv, Step, StateOf, Count;
    if actions != [] {
      StepInv(w, actions[0]);
      StandsStill(w, actions[0]);
      StandsForever(Step(w, actions[0]), actions[1..]);
    }
  }

  // A save torn while deciding, then a whole save onto it after resuming, then a crash.
  function TornRun(): seq<Action> {
    var go := Proceed(Fine, All, [1], "");
    [AddOutput(Body(TOPIC_HEARTBEAT, "")), go, go, go, go, go, Proceed(Fine, Partway, [], ""), go, go, go, Crash]
  }

  lemma {:induction false} TornRunActions()
    ensures var go, run := Proceed(Fine, All, [1], ""), TornRun();
      && |run| == 11 && run[0] == AddOutput(Body(TOPIC_HEARTBEAT, "")) && run[6] == Proceed(Fine, Partway, [], "") && run[10] == Crash
      && run[1] == run[2] == run[3] == run[4] == run[5] == run[7] == run[8] == run[9] == go
  {
  }

  lemma {:induction false} FirstRecord(body: Body)
    ensures var w := Step(START, AddOutput(body)); w.pc == Idle && w.journal == Absent && w.records == map[1 := Output(Ready, body)]
  {
  }

  // Polling the only record, which is ready, and journaling its claim.
  lemma {:induction false} PollsAndSaves(w: World, body: Body)
    requires w.pc == Idle && w.journal == Absent && w.records == map[1 := Output(Ready, body)]
    ensures var go := Proceed(Fine, All, [1], ""); var w' := Step(Step(w, go), go);
      && w'.pc == Getting(Claim(1, body, None, None), []) && w'.records == w.records
      && w'.journal == File(Some(Claim(1, body, None, None)), NoTail, false)
  {
    var go := Proceed(Fine, All, [1], "");
    assert PollBatch(w, [1]) == [(1, body)] by { assert [1][1..] == []; }
    assert Step(w, go).pc == Polled([(1, body)]);
  }

  // Claiming it.
  lemma {:induction false} Claims(w: World, claim: Claim, body: Body)
    requires w.pc == Getting(claim, []) && claim.id in w.records && w.records[claim.id] == Output(Ready, body)
    ensures var go := Proceed(Fine, All, [1], ""); var w' := Step(Step(Step(w, go), go), go);
      && w'.pc == Deciding(claim, [], body) && w'.journal == w.journal
      && w'.records == w.records[claim.id := Output(Processing, body)]
  {
    var go := Proceed(Fine, All, [1], "");
    assert Step(w, go).pc == Claiming(claim, [], body);
    assert Step(Step(w, go), go).pc == Verifying(claim, [], body);
  }

  lemma {:induction false} DecidesTorn(w: World, claim: Claim, body: Body)
    requires w.pc == Deciding(claim, [], body) && claim.result.None? && w.journal == File(Some(claim), NoTail, false)
    ensures var w' := Step(w, Proceed(Fine, Partway, [], ""));
      w'.pc == Idle && w'.journal == File(Some(claim), Torn, false) && w'.records == w.records
  {
  }

  lemma {:induction false} Resumes(w: World, claim: Claim, body: Body)
    requires w.pc == Idle && w.journal == File(Some(claim), Torn, false)
    requires claim.id in w.records && w.records[claim.id] == Output(Processing, body)
    ensures var go := Proceed(Fine, All, [1], ""); var w' := Step(Step(w, go), go);
      w'.pc == Deciding(claim, [], body) && w'.journal == w.journal && w'.records == w.records
  {
    assert Step(w, Proceed(Fine, All, [1], "")).pc == Getting(claim, []);
  }

  lemma {:induction false} DecidesOntoTorn(w: World, claim: Claim, body: Body)
    requires w.pc == Deciding(claim, [], body) && claim.result.None? && w.journal == File(Some(claim), Torn, false)
    ensures var w' := Step(Step(w, Proceed(Fine, All, [1], "")), Crash);
      w'.pc == Idle && w'.journal == File(Some(claim), NoTail, true) && w'.records == w.records
  {
  }

  lemma {:induction false} Unroll(w: World, actions: seq<Action>, i: nat)
    requires i < |actions|
    ensures Exec(w, actions[i..]) == Exec(Step(w, actions[i]), actions[i + 1..])
  {
    assert actions[i..][1..] == actions[i + 1..];
  }

  lemma {:induction false} UnrollThree(w: World, actions: seq<Action>, i: nat)
    requires i + 2 < |actions|
    ensures Exec(w, actions[i..]) == Exec(Step(Step(Step(w, actions[i]), actions[i + 1]), actions[i + 2]), actions[i + 3..])
  {
    hide Step, Exec;
    Unroll(w, actions, i);
    Unroll(Step(w, actions[i]), actions, i + 1);
    Unroll(Step(Step(w, actions[i]), actions[i + 1]), actions, i + 2);
  }

  lemma {:induction false} ExecTornRun()
    ensures var go := Proceed(Fine, All, [1], "");
      var w1 := Step(START, AddOutput(Body(TOPIC_HEARTBEAT, "")));
      var w6 := Step(Step(Step(Step(Step(w1, go), go), go), go), go);
      var w7 := Step(w6, Proceed(Fine, Partway, [], ""));
      Exec(START, TornRun()) == Step(Step(Step(Step(w7, go), go), go), Crash)
  {
    hide Step;
    var go, run := Proceed(Fine, All, [1], ""), TornRun();
    TornRunActions();
    assert run[0..] == run && run[11..] == [] && forall w :: Exec(w, []) == w;
    hide TornRun, Exec;
    var w3 := Step(Step(Step(START, run[0]), go), go);
    var w6 := Step(Step(Step(w3, go), go), go);
    var w9 := Step(Step(Step(w6, run[6]), go), go);
    UnrollThree(START, run, 0);
    UnrollThree(w3, run, 3);
    UnrollThree(w6, run, 6);
    Unroll(w9, run, 9);
    Unroll(Step(w9, go), run, 10);
  }

  lemma {:induction false} TornRunStops()
    ensures var w := Exec(START, TornRun());
      w.pc == Idle && LoadOf(w.journal) == Unreadable && StateOf(w, 1) == Some(Processing) && Answers(w.records, 1) == {}
  {
    var go, body := Proceed(Fine, All, [1], ""), Body(TOPIC_HEARTBEAT, "");
    var claim := Claim(1, body, None, None);
    hide Step, TornRun, Exec;
    ExecTornRun();
    FirstRecord(body);
    var w1 := Step(START, AddOutput(body));
    PollsAndSaves(w1, body);
    var w3 := Step(Step(w1, go), go);
    Claims(w3, claim, body);
    var w6 := Step(Step(Step(w3, go), go), go);
    DecidesTorn(w6, claim, body);
    var w7 := Step(w6, Proceed(Fine, Partway, [], ""));
    Resumes(w7, claim, body);
    DecidesOntoTorn(Step(Step(w7, go), go), claim, body);
  }

  // THEOREM (a record left behind). After that run the record is claimed and unanswered, and
  // stays so whatever follows.
  lemma {:induction false} RecordLeftBehind(later: seq<Action>)
    ensures var w := Exec(START, TornRun() + later);
      StateOf(w, 1) == Some(Processing) && Count(w, 1) == 0 && LoadOf(w.journal) == Unreadable
  {
    hide Inv, Step;
    StartInv();
    ExecInv(START, TornRun());
    TornRunStops();
    StandsForever(Exec(START, TornRun()), later);
    ExecConcat(START, TornRun(), later);
  }
}
