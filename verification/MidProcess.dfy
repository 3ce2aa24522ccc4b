// The MID process and the simulated queue as the source runs them (internal/mid/run.go,
// client.go, eccsim/server.go): objects that change in place, call by call.
//
// A script says what happens next: what ServiceNow adds and edits, which calls fail, where
// writes are torn and when the process dies. Whatever the script, the objects go the way of the
// step-by-step machine of MidQueue, and the journal's bytes mean what its journal is. Only where
// a file or an entry is over its bound does a call fail that the script let through.
module MidProcess {
  import opened Wrappers
  import opened MidJournal
  import opened MidQueue

  // The ECC queue of the simulator.
  class Ecc {
    var records: map<Id, Record>
    var nextID: Id

    constructor ()
      ensures records == START.records && nextID == START.nextID
    {
      records := map[];
      nextID := 1;
    }

    method Add(body: Body)
      modifies this
      ensures records == old(records)[old(nextID) := Output(Ready, body)] && nextID == old(nextID) + 1
    {
      records := records[nextID := Output(Ready, body)];
      nextID := nextID + 1;
    }

    method Rewrite(id: Id, body: Body)
      modifies this`records
      ensures records ==
        if id in old(records) && old(records)[id].Output? then old(records)[id := Output(old(records)[id].state, body)]
        else old(records)
    {
      if id in records && records[id].Output? {
        records := records[id := records[id].(body := body)];
      }
    }

    method SetState(id: Id, state: RecordState)
      modifies this`records
      ensures records ==
        if id in old(records) && old(records)[id].Output? then old(records)[id := Output(state, old(records)[id].body)]
        else old(records)
    {
      if id in records && records[id].Output? {
        records := records[id := records[id].(state := state)];
      }
    }

    method Insert(responseTo: Id, result: MidQueue.Result) returns (id: Id)
      modifies this
      ensures id == old(nextID) && nextID == old(nextID) + 1
      ensures records == old(records)[id := Input(responseTo, result)]
    {
      id := nextID;
      records := records[id := Input(responseTo, result)];
      nextID := nextID + 1;
    }

    // Some of the ready output records, with their contents.
    method Poll(wanted: seq<Id>) returns (batch: seq<(Id, Body)>)
      ensures forall w: World :: w.records == records ==> batch == PollBatch(w, wanted)
    {
      batch := [];
      var i := |wanted|;
      while i > 0
        invariant 0 <= i <= |wanted|
        invariant forall w: World :: w.records == records ==> batch == PollBatch(w, wanted[i..])
      {
        i := i - 1;
        var id := wanted[i];
        assert wanted[i..][1..] == wanted[i + 1..];
        if id in records && records[id].Output? && records[id].state == Ready {
          batch := [(id, records[id].body)] + batch;
        }
      }
      assert wanted[0..] == wanted;
    }

    // The first responses in the order they were created, two at most.
    method FindResponses(id: Id) returns (found: seq<Id>)
      requires forall k :: k in records ==> k < nextID
      ensures |found| == if |Answers(records, id)| > 2 then 2 else |Answers(records, id)|
      ensures forall k :: k in found ==> k in Answers(records, id)
      ensures forall k, x :: k in Answers(records, id) && k !in found && x in found ==> x < k
    {
      found := [];
      var k := 0;
      while k < nextID && |found| < 2
        invariant k <= nextID && |found| <= 2
        invariant forall x :: x in found <==> x in Answers(records, id) && x < k
        invariant |Elements(found)| == |found|
      {
        if k in records && records[k].Input? && records[k].responseTo == id {
          assert Elements(found + [k]) == Elements(found) + {k} && k !in Elements(found);
          found := found + [k];
        }
        k := k + 1;
      }
      SubsetSize(Elements(found), Answers(records, id));
      if |found| < 2 {
        assert Elements(found) == Answers(records, id);
      }
    }
  }

  function Elements(s: seq<Id>): set<Id> { set x | x in s }

  lemma {:induction false} SubsetSize<T>(a: set<T>, b: set<T>)
    requires a <= b
    ensures |a| <= |b|
  {
    if a != {} {
      var x :| x in a;
      SubsetSize(a - {x}, b - {x});
    }
  }

  // What happened instead of what the script said: the same, a failed call, or a refused save.
  predicate Instead(done: Action, given: Action) {
    done == given || (given.Proceed? && (done == given.(fault := NoEffect) || done == given.(cut := NotOpened)))
  }

  lemma {:induction false} ExecLast(w: World, actions: seq<Action>, a: Action)
    ensures Exec(w, actions + [a]) == Step(Exec(w, actions), a)
  {
    ExecConcat(w, actions, [a]);
    assert [a][1..] == [];
  }

  class Process {
    const server: Ecc
    const state: State<Claim>
    var script: seq<Action>
    ghost const given: seq<Action>
    ghost var trace: seq<Action>
    ghost var world: World

    constructor (codec: Codec<Claim>, script: seq<Action>)
      requires LineCodec(codec) && NoGluing(codec)
      ensures Valid() && given == script && trace == [] && world.pc == Idle
      ensures fresh(server) && fresh(state) && state.codec == codec
    {
      server := new Ecc();
      state := new State<Claim>(codec);
      this.script := script;
      given := script;
      trace := [];
      world := START;
      new;
      StartInv();
    }

    // What has happened so far is a run of the machine.
    ghost predicate Tracked()
      reads this
    {
      && world == Exec(START, trace) && Inv(world)
      && |trace| + |script| == |given| && script == given[|trace|..]
      && forall i :: 0 <= i < |trace| ==> Instead(trace[i], given[i])
    }

    // The objects are where the run is.
    ghost predicate Valid()
      reads this, server, state
    {
      && Tracked() && world.records == server.records && world.nextID == server.nextID
      && state.Valid() && Meaning(state.codec, state.file) == world.journal
    }

    // The next action happens, as given or otherwise.
    method Did(ghost done: Action)
      requires Tracked() && script != [] && Instead(done, script[0])
      modifies this`script, this`trace, this`world
      ensures Tracked() && world == Step(old(world), done) && |script| == |old(script)| - 1
    {
      hide Inv, Step, Exec;
      ExecLast(START, trace, done);
      StepInv(world, done);
      script := script[1..];
      world := Step(world, done);
      trace := trace + [done];
    }

    // What ServiceNow does before the process's next move; none if the process dies first or
    // the script ends.
    method Await() returns (next: Option<Action>)
      requires Valid()
      modifies this`script, this`trace, this`world, server
      ensures Valid() && |script| <= old(|script|)
      ensures next.None? ==> script == [] || (world.pc == Idle && |script| < old(|script|))
      ensures next.Some? ==> next.value.Proceed? && script != [] && script[0] == next.value && world.pc == old(world.pc)
    {
      while script != []
        invariant Valid() && world.pc == old(world.pc) && |script| <= old(|script|)
        decreases |script|
      {
        var a := script[0];
        if a.Proceed? {
          return Some(a);
        }
        hide Inv, Exec, Meaning;
        Did(a);
        match a
        case AddOutput(body) => server.Add(body);
        case Edit(id, body) => server.Rewrite(id, body);
        case Crash => return None;
      }
      return None;
    }

    // Save an entry; the write may be torn at any byte that the script's cut allows.
    method SaveEntry(e: Claim, cut: Cut) returns (actual: Cut)
      requires state.Valid()
      modifies state
      ensures state.Valid()
      ensures Meaning(state.codec, state.file) == Append(old(Meaning(state.codec, state.file)), e, actual)
      ensures actual == if Fits(state.codec, e) then cut else NotOpened
    {
      if cut == NotOpened || !Fits(state.codec, e) {
        return NotOpened;
      }
      ghost var size := |state.codec.encode(e)|;
      assert CutAt(state.codec, e, 0) == Nowhere && CutAt(state.codec, e, 1) == Partway by { assert size >= 2; }
      assert CutAt(state.codec, e, size) == AllButNewline && CutAt(state.codec, e, size + 1) == All by { assert size >= 2; }
      var written: nat :| written <= |state.codec.encode(e)| + 1 && CutAt(state.codec, e, written) == cut;
      var ok := state.Save(e, written);
      actual := cut;
    }

    // The rest of a claimed record's way: answer it unless it is answered, then finish it.
    method ResumeClaim(entry: Claim, ghost rest: seq<(Id, Body)>) returns (ok: bool)
      requires Valid() && world.pc == Getting(entry, rest)
      modifies this`script, this`trace, this`world, server, state
      ensures Valid() && |script| <= old(|script|)
      ensures ok ==> world.pc == Polled(rest)
      ensures !ok ==> script == [] || world.pc == Idle
    {
      hide Tracked, Inv, Meaning, Step;
      var record: Option<Record> := Get(entry.id, entry, rest);
      if record.None? {
        return false;
      }
      if record.value.state == Processed {
        ok := Clear(entry, rest);
        return;
      }
      if record.value.state == Ready {
        var claimed := TryClaim(entry, rest, record.value.body);
        if !claimed {
          return false;
        }
      }
      ok := Answer(entry, record.value.body, rest);
    }

    method Get(id: Id, ghost entry: Claim, ghost rest: seq<(Id, Body)>) returns (record: Option<Record>)
      requires Valid() && world.pc == Getting(entry, rest) && id == entry.id
      modifies this`script, this`trace, this`world, server
      ensures Valid() && |script| <= old(|script|)
      ensures record.None? ==> script == [] || world.pc == Idle
      ensures record.Some? ==> record.value.Output?
      ensures record.Some? ==> world.pc == match record.value.state
        case Processed => Clearing(entry, rest)
        case Ready => Claiming(entry, rest, record.value.body)
        case Processing => Deciding(entry, rest, record.value.body)
    {
      hide Tracked, Inv, Exec, Meaning, LoadOf, Append, Answers, StepIdle, StepClaiming, StepVerifying, StepDeciding,
           StepFinding, StepInserting, StepMarking, StepClearing;
      var next := Await();
      if next.None? {
        return None;
      }
      Did(next.value);
      if next.value.fault != Fine || id !in server.records || !server.records[id].Output? {
        return None;
      }
      return Some(server.records[id]);
    }

    // The state transition, then the check that the record is still the one that was read.
    method TryClaim(entry: Claim, ghost rest: seq<(Id, Body)>, seen: Body) returns (ok: bool)
      requires Valid() && world.pc == Claiming(entry, rest, seen)
      modifies this`script, this`trace, this`world, server
      ensures Valid() && |script| <= old(|script|)
      ensures ok ==> world.pc == Deciding(entry, rest, seen)
      ensures !ok ==> script == [] || world.pc == Idle
    {
      hide Tracked, Inv, Exec, Meaning, LoadOf, Append, Answers, StepIdle, StepGetting, StepDeciding, StepFinding,
           StepInserting, StepMarking, StepClearing;
      var next := Await();
      if next.None? {
        return false;
      }
      Did(next.value);
      if next.value.fault != NoEffect {
        server.SetState(entry.id, Processing);
      }
      if next.value.fault != Fine {
        return false;
      }
      ok := Verify(entry, rest, seen);
    }

    method Verify(entry: Claim, ghost rest: seq<(Id, Body)>, seen: Body) returns (ok: bool)
      requires Valid() && world.pc == Verifying(entry, rest, seen)
      modifies this`script, this`trace, this`world, server
      ensures Valid() && |script| <= old(|script|)
      ensures ok ==> world.pc == Deciding(entry, rest, seen)
      ensures !ok ==> script == [] || world.pc == Idle
    {
      hide Tracked, Inv, Exec, Meaning, LoadOf, Append, Answers, StepIdle, StepGetting, StepClaiming,
           StepDeciding, StepFinding, StepMarking, StepInserting, StepClearing;
      var next := Await();
      if next.None? {
        return false;
      }
      Did(next.value);
      ok := next.value.fault == Fine && entry.id in server.records && server.records[entry.id] == Output(Processing, seen);
    }

    method Answer(claim: Claim, body: Body, ghost rest: seq<(Id, Body)>) returns (ok: bool)
      requires Valid() && world.pc == Deciding(claim, rest, body)
      modifies this`script, this`trace, this`world, server, state
      ensures Valid() && |script| <= old(|script|)
      ensures ok ==> world.pc == Polled(rest)
      ensures !ok ==> script == [] || world.pc == Idle
    {
      hide Tracked, Inv, Meaning, Step;
      var entry := Decide(claim, body, rest);
      if entry.None? {
        return false;
      }
      var response := FindOrInsert(entry.value, rest);
      if response.None? {
        return false;
      }
      ok := Finish(entry.value.(response := response), rest);
    }

    // Journal the result before anything is sent, unless the journal held one already.
    method Decide(claim: Claim, body: Body, ghost rest: seq<(Id, Body)>) returns (entry: Option<Claim>)
      requires Valid() && world.pc == Deciding(claim, rest, body)
      modifies this`script, this`trace, this`world, server, state
      ensures Valid() && |script| <= old(|script|)
      ensures entry.Some? ==> world.pc == Finding(entry.value, rest)
      ensures entry.None? ==> script == [] || world.pc == Idle
    {
      hide Tracked, Inv, Exec, Meaning, LoadOf, Append, Answers, StepIdle, StepGetting, StepClaiming, StepVerifying,
           StepFinding, StepInserting, StepMarking, StepClearing;
      var next := Await();
      if next.None? {
        return None;
      }
      if next.value.fault != Fine || claim.result.Some? {
        Did(next.value);
        return if next.value.fault == Fine then Some(claim) else None;
      }
      var decided := claim.(result := Some(Dispatch(body, claim.digest, next.value.version)));
      var actual := SaveEntry(decided, next.value.cut);
      Did(next.value.(cut := actual));
      entry := if actual == All then Some(decided) else None;
    }

    // Journal the response, mark the record processed, forget the claim.
    method Finish(entry: Claim, ghost rest: seq<(Id, Body)>) returns (ok: bool)
      requires Valid() && world.pc == Answering(entry, rest)
      modifies this`script, this`trace, this`world, server, state
      ensures Valid() && |script| <= old(|script|)
      ensures ok ==> world.pc == Polled(rest)
      ensures !ok ==> script == [] || world.pc == Idle
    {
      hide Tracked, Inv, Exec, Meaning, LoadOf, Append, Answers, StepIdle, StepGetting, StepClaiming, StepVerifying,
           StepDeciding, StepFinding, StepInserting, StepMarking, StepClearing;
      var next := Await();
      if next.None? {
        return false;
      }
      var actual := SaveEntry(entry, next.value.cut);
      Did(next.value.(cut := actual));
      if actual != All {
        return false;
      }
      var marked := Mark(entry, rest);
      if !marked {
        return false;
      }
      ok := Clear(entry, rest);
    }

    method Mark(entry: Claim, ghost rest: seq<(Id, Body)>) returns (ok: bool)
      requires Valid() && world.pc == Marking(entry, rest)
      modifies this`script, this`trace, this`world, server
      ensures Valid() && |script| <= old(|script|)
      ensures ok ==> world.pc == Clearing(entry, rest)
      ensures !ok ==> script == [] || world.pc == Idle
    {
      hide Tracked, Inv, Exec, Meaning, LoadOf, Append, Answers, StepIdle, StepGetting, StepClaiming, StepVerifying,
           StepDeciding, StepFinding, StepInserting, StepClearing;
      var next := Await();
      if next.None? {
        return false;
      }
      Did(next.value);
      if next.value.fault != NoEffect {
        server.SetState(entry.id, Processed);
      }
      ok := next.value.fault == Fine;
    }

    lemma {:induction false} InvHolds()
      requires Tracked()
      ensures Inv(world)
    {
    }

    method FindOrInsert(entry: Claim, ghost rest: seq<(Id, Body)>) returns (response: Option<Id>)
      requires Valid() && world.pc == Finding(entry, rest)
      modifies this`script, this`trace, this`world, server
      ensures Valid() && |script| <= old(|script|)
      ensures response.Some? ==> world.pc == Answering(entry.(response := response), rest)
      ensures response.None? ==> script == [] || world.pc == Idle
    {
      hide Tracked, Inv, Exec, Meaning, LoadOf, Append, StepIdle, StepGetting, StepClaiming, StepVerifying,
           StepDeciding, StepMarking, StepClearing;
      var next := Await();
      if next.None? {
        return None;
      }
      InvHolds();
      KnownRecords(world);
      var responses := server.FindResponses(entry.id);
      Did(next.value);
      if next.value.fault != Fine || |responses| > 1 {
        return None;
      }
      if |responses| == 1 {
        assert responses[0] in responses;
        return Some(responses[0]);
      }
      next := Await();
      if next.None? {
        return None;
      }
      InvHolds();
      InsertingHasResult(world);
      Did(next.value);
      if next.value.fault == NoEffect {
        return None;
      }
      var id := server.Insert(entry.id, entry.result.value);
      response := if next.value.fault == Fine then Some(id) else None;
    }

    method Clear(ghost entry: Claim, ghost rest: seq<(Id, Body)>) returns (ok: bool)
      requires Valid() && world.pc == Clearing(entry, rest)
      modifies this`script, this`trace, this`world, server, state
      ensures Valid() && |script| <= old(|script|)
      ensures ok ==> world.pc == Polled(rest)
      ensures !ok ==> script == [] || world.pc == Idle
    {
      hide Tracked, Inv, Exec, Meaning, LoadOf, Append, Answers, StepIdle, StepGetting, StepClaiming, StepVerifying,
           StepDeciding, StepFinding, StepInserting, StepMarking;
      var next := Await();
      if next.None? {
        return false;
      }
      Did(next.value);
      if next.value.fault != NoEffect {
        state.Clear();
      }
      ok := next.value.fault == Fine;
    }

    // One cycle: resume what the journal holds, or else poll and work through the batch.
    method RunCycle()
      requires Valid() && world.pc == Idle
      modifies this`script, this`trace, this`world, server, state
      ensures Valid()
      ensures script == [] || (world.pc == Idle && |script| < old(|script|))
    {
      hide Tracked, Inv, Exec, Meaning, LoadOf, Append, Answers, StepGetting, StepClaiming, StepVerifying,
           StepDeciding, StepFinding, StepInserting, StepMarking, StepClearing;
      var next := Await();
      if next.None? {
        return;
      }
      if next.value.fault != Fine {
        Did(next.value);
        return;
      }
      var loaded := state.Load();
      var batch := server.Poll(next.value.batch);
      var done;
      match loaded {
        case Unreadable =>
          Did(next.value.(fault := NoEffect));
          return;
        case Entry(entry) =>
          Did(next.value);
          done := ResumeClaim(entry, []);
        case Nothing =>
          Did(next.value);
          done := WorkThrough(batch);
      }
      if done {
        EndCycle();
      }
    }

    method EndCycle()
      requires Valid() && world.pc == Polled([])
      modifies this`script, this`trace, this`world, server
      ensures Valid() && |script| <= old(|script|)
      ensures script == [] || world.pc == Idle
    {
      hide Tracked, Inv, Exec, Meaning, LoadOf, Append, Answers, StepIdle, StepGetting, StepClaiming, StepVerifying,
           StepDeciding, StepFinding, StepInserting, StepMarking, StepClearing;
      var next := Await();
      if next.Some? {
        Did(next.value);
      }
    }

    method WorkThrough(records: seq<(Id, Body)>) returns (done: bool)
      requires Valid() && world.pc == Polled(records)
      modifies this`script, this`trace, this`world, server, state
      ensures Valid() && |script| <= old(|script|)
      ensures done ==> world.pc == Polled([])
      ensures !done ==> script == [] || world.pc == Idle
    {
      hide Tracked, Inv, Exec, Meaning, LoadOf, Append, Answers, StepIdle, StepGetting, StepClaiming, StepVerifying,
           StepDeciding, StepFinding, StepInserting, StepMarking, StepClearing;
      var batch := records;
      while batch != []
        invariant Valid() && |script| <= old(|script|)
        invariant world.pc == Polled(batch)
        decreases |batch|
      {
        var next := Await();
        if next.None? {
          return false;
        }
        if next.value.fault != Fine {
          Did(next.value);
          return false;
        }
        var entry := Claim(batch[0].0, batch[0].1, None, None);
        var actual := SaveEntry(entry, next.value.cut);
        Did(next.value.(cut := actual));
        if actual != All {
          return false;
        }
        batch := batch[1..];
        done := ResumeClaim(entry, batch);
        if !done {
          return;
        }
      }
      return true;
    }

    // Cycle after cycle, until the script ends: a run of the machine, over the journal's bytes.
    // So every record has one answer at most, and exactly one once it is finished.
    method Run()
      requires Valid() && world.pc == Idle
      modifies this`script, this`trace, this`world, server, state
      ensures Valid() && script == []
      ensures forall id: Id :: |Answers(server.records, id)| <= 1
      ensures forall id: Id :: id in server.records && server.records[id].Output? && server.records[id].state == Processed ==>
                |Answers(server.records, id)| == 1
    {
      hide Tracked, Inv, Meaning;
      while script != []
        invariant Valid() && (script == [] || world.pc == Idle)
        decreases |script|
      {
        RunCycle();
      }
      TrackedRecords();
    }

    lemma {:induction false} TrackedRecords()
      requires Valid()
      ensures forall id: Id :: |Answers(server.records, id)| <= 1
      ensures forall id: Id :: id in server.records && server.records[id].Output? && server.records[id].state == Processed ==>
                |Answers(server.records, id)| == 1
    {
      forall id: Id ensures |Answers(server.records, id)| <= 1
        ensures id in server.records && server.records[id].Output? && server.records[id].state == Processed ==>
                  |Answers(server.records, id)| == 1
      {
        assert RecordOK(world, id);
      }
    }
  }

  lemma {:induction false} KnownRecords(w: World)
    requires Inv(w)
    ensures forall k :: k in w.records ==> k < w.nextID
  {
  }

  lemma {:induction false} InsertingHasResult(w: World)
    requires Inv(w) && w.pc.Inserting?
    ensures w.pc.claim.result.Some?
  {
  }
}
