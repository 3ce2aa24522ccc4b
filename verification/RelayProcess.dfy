// The relay as the source runs it (internal/relay/run.go, spool.go): a spool and a loop that
// change in place. A script says how each call ends; whatever it says, the objects end where
// RelayDelivery's machine ends on it.
module RelayProcess {
  import opened Wrappers
  import opened Sorting
  import opened RelayDelivery

  class Spool {
    var entries: map<string, Delivery>

    constructor ()
      ensures entries == map[]
    {
      entries := map[];
    }

    // A write happens whole or not at all.
    method Write(name: string, d: Delivery, ok: bool)
      modifies this
      ensures entries == if ok then old(entries)[name := d] else old(entries)
    {
      if ok {
        entries := entries[name := d];
      }
    }

    method Remove(name: string, ok: bool)
      modifies this
      ensures entries == if ok then old(entries) - {name} else old(entries)
    {
      if ok {
        entries := entries - {name};
      }
    }

    method Pending() returns (names: seq<string>)
      ensures names == InOrder(entries.Keys)
    {
      names := SortKeys(entries.Keys);
    }
  }

  // Where a drain leaves the process, unless it dies.
  function After(next: Then, drained: bool): Pc {
    match next
    case Poll => if drained then Polling else Idle
    case Jobs(rest) => Running(rest)
  }

  class Relay {
    const spool: Spool
    var runs: nat
    var dead: bool
    var script: seq<Action>
    ghost var world: World

    constructor (script: seq<Action>)
      ensures Valid() && !dead && world == START && this.script == script && fresh(spool)
    {
      spool := new Spool();
      runs := 0;
      dead := false;
      this.script := script;
      world := START;
    }

    ghost predicate Valid()
      reads this, spool
    {
      world.spool == spool.entries && world.runs == runs && Inv(world)
    }

    // The process died, or there is nothing left to happen.
    ghost predicate Stopped()
      reads this
    {
      dead && (script == [] || world.pc == Idle)
    }

    // Where the rest of the script leads.
    ghost function Outcome(): World
      reads this
    {
      Exec(world, script)
    }

    // How the process's next call ends; none if it dies first or the script ends.
    method Await() returns (call: Option<Action>)
      requires Valid() && !dead
      modifies this`script, this`world, this`dead
      ensures Valid()
      ensures call.None? ==> Outcome() == old(Outcome()) && Stopped() && (script == [] || |script| < old(|script|))
      ensures call.Some? ==> call.value.Proceed? && world == old(world) && Exec(Step(world, call.value), script) == old(Outcome())
      ensures call.Some? ==> !dead && |script| < old(|script|) && Inv(Step(world, call.value))
      ensures |script| <= old(|script|)
    {
      hide Inv, Proceeding;
      if script == [] {
        dead := true;
        return None;
      }
      var a := script[0];
      script := script[1..];
      StepInv(world, a);
      if a.Crash? {
        world := Step(world, a);
        dead := true;
        return None;
      }
      return Some(a);
    }

    // Deliver what the spool holds; true when nothing is left of it.
    method Drain(ghost next: Then) returns (drained: bool)
      requires Valid() && !dead && world.pc == Listing(next)
      modifies this, spool
      ensures Valid() && Outcome() == old(Outcome()) && |script| <= old(|script|)
      ensures drained ==> !dead && world.pc == After(next, true)
      ensures !drained ==> Stopped() || (!dead && world.pc == After(next, false))
    {
      hide Inv, Exec;
      var call := Await();
      if call.None? {
        return false;
      }
      world := Step(world, call.value);
      if !call.value.ok {
        return false;
      }
      var names := spool.Pending();
      while names != []
        invariant Valid() && !dead && Outcome() == old(Outcome()) && |script| < old(|script|)
        invariant world.pc == Draining(names, next)
        decreases |names|
      {
        var delivered := Deliver(names[0], names[1..], next);
        if !delivered {
          return false;
        }
        names := names[1..];
      }
      call := Await();
      if call.None? {
        return false;
      }
      world := Step(world, call.value);
      return true;
    }

    // Publish one delivery unless that is settled, report it, and remove it.
    method Deliver(name: string, ghost names: seq<string>, ghost next: Then) returns (ok: bool)
      requires Valid() && !dead && world.pc == Draining([name] + names, next)
      modifies this, spool
      ensures Valid() && Outcome() == old(Outcome()) && |script| <= old(|script|)
      ensures ok ==> !dead && world.pc == Draining(names, next)
      ensures !ok ==> Stopped() || (!dead && world.pc == After(next, false))
    {
      hide Inv, Exec;
      var call := Await();
      if call.None? {
        return false;
      }
      assert ([name] + names)[0] == name && ([name] + names)[1..] == names;
      world := Step(world, call.value);
      if !call.value.ok || name !in spool.entries {
        return false;
      }
      var delivery := spool.entries[name];
      if NeedsPublishing(delivery) {
        var published := Publish(name, delivery, names, next);
        if published.None? {
          return false;
        }
        delivery := published.value;
      }
      ok := ReportAndRemove(name, delivery, names, next);
    }

    // Publish, and persist how that went.
    method Publish(name: string, d: Delivery, ghost names: seq<string>, ghost next: Then) returns (settled: Option<Delivery>)
      requires Valid() && !dead && world.pc == Publishing(name, d, names, next)
      modifies this, spool
      ensures Valid() && Outcome() == old(Outcome()) && |script| <= old(|script|)
      ensures settled.Some? ==> !dead && world.pc == Reporting(name, settled.value, names, next)
      ensures settled.None? ==> Stopped() || (!dead && world.pc == After(next, false))
    {
      hide Inv, Exec;
      var call := Await();
      if call.None? {
        return None;
      }
      world := Step(world, call.value);
      var failed := !call.value.ok;
      var delivery := d.(attempts := d.attempts + 1);
      if !failed {
        delivery := delivery.(published := true);
      } else if !call.value.retryable || delivery.attempts >= MAX_PUBLISH_ATTEMPTS {
        delivery := delivery.(publicationError := Truncate(call.value.error));
      }
      call := Await();
      if call.None? {
        return None;
      }
      StillSpooled(world);
      world := Step(world, call.value);
      spool.Write(name, delivery, call.value.ok);
      if !call.value.ok || (failed && delivery.publicationError == "") {
        return None;
      }
      return Some(delivery);
    }

    method ReportAndRemove(name: string, d: Delivery, ghost names: seq<string>, ghost next: Then) returns (ok: bool)
      requires Valid() && !dead && world.pc == Reporting(name, d, names, next)
      modifies this, spool
      ensures Valid() && Outcome() == old(Outcome()) && |script| <= old(|script|)
      ensures ok ==> !dead && world.pc == Draining(names, next)
      ensures !ok ==> Stopped() || (!dead && world.pc == After(next, false))
    {
      hide Inv, Exec;
      var call := Await();
      if call.None? {
        return false;
      }
      world := Step(world, call.value);
      if !call.value.ok {
        return false;
      }
      call := Await();
      if call.None? {
        return false;
      }
      world := Step(world, call.value);
      spool.Remove(name, call.value.ok);
      ok := call.value.ok;
    }

    // Execute a job, retain its result, and deliver it; a result that cannot be retained is
    // reported as a failure.
    method RunJob(job: Job, ghost rest: seq<Job>)
      requires Valid() && !dead && world.pc == Running([job] + rest)
      modifies this, spool
      ensures Valid() && Outcome() == old(Outcome()) && |script| <= old(|script|)
      ensures Stopped() || (!dead && world.pc == Running(rest))
    {
      hide Inv, Exec;
      var call := Await();
      if call.None? {
        return;
      }
      assert ([job] + rest)[0] == job && ([job] + rest)[1..] == rest;
      world := Step(world, call.value);
      var delivery := NewDelivery(runs, job, call.value);
      runs := runs + 1;
      var retained := Enqueue(delivery, rest);
      if retained {
        var drained := Drain(Jobs(rest));
      }
    }

    method Enqueue(d: Delivery, ghost rest: seq<Job>) returns (retained: bool)
      requires Valid() && !dead && world.pc == Enqueuing(d, rest)
      modifies this, spool
      ensures Valid() && Outcome() == old(Outcome()) && |script| <= old(|script|)
      ensures retained ==> !dead && world.pc == Listing(Jobs(rest))
      ensures !retained ==> Stopped() || (!dead && world.pc == Running(rest))
    {
      hide Inv, Exec;
      var call := Await();
      if call.None? {
        return false;
      }
      world := Step(world, call.value);
      spool.Write(call.value.name, d, call.value.ok);
      retained := call.value.ok;
      if !retained {
        call := Await();
        if call.Some? {
          world := Step(world, call.value);
        }
      }
    }

    // One cycle: a drain, a poll, and the polled jobs.
    method Cycle()
      requires Valid() && !dead && world.pc == Idle
      modifies this, spool
      ensures Valid() && Outcome() == old(Outcome())
      ensures script == [] || (world.pc == Idle && |script| < old(|script|))
    {
      hide Inv, Exec;
      var call := Await();
      if call.None? {
        return;
      }
      world := Step(world, call.value);
      var drained := Drain(Poll);
      if !drained {
        return;
      }
      call := Await();
      if call.None? {
        return;
      }
      world := Step(world, call.value);
      if !call.value.ok || |call.value.jobs| > MAX_JOBS_PER_POLL {
        return;
      }
      var jobs := call.value.jobs;
      while jobs != []
        invariant Valid() && !dead && Outcome() == old(Outcome()) && |script| < old(|script|)
        invariant world.pc == Running(jobs)
        decreases |jobs|
      {
        assert [jobs[0]] + jobs[1..] == jobs;
        RunJob(jobs[0], jobs[1..]);
        if dead {
          return;
        }
        jobs := jobs[1..];
      }
      call := Await();
      if call.Some? {
        world := Step(world, call.value);
      }
    }

    // Cycle after cycle until the script ends: the whole run is the machine's run.
    method Run()
      requires Valid() && !dead && world.pc == Idle
      modifies this, spool
      ensures Valid() && world == old(Outcome())
      ensures forall a, b :: a in spool.entries && b in spool.entries ==> a == b
    {
      while script != []
        invariant Valid() && Outcome() == old(Outcome()) && (script == [] || world.pc == Idle)
        decreases |script|
      {
        dead := false;
        Cycle();
      }
    }
  }

  lemma {:induction false} StillSpooled(w: World)
    requires Inv(w) && w.pc.Replacing?
    ensures w.pc.name in w.spool
  {
  }
}
