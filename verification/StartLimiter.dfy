// The limiter that spaces remote starts (internal/worker/start_limit.go): one token in a
// channel, passed between any number of waiters, each of which may be cancelled at any point.
module StartLimiter {
  import opened Wrappers

  type Id = nat
  type Time = int

  // Waiting for the token; holding it; holding it with the timer set; about to give it back.
  datatype Stage = Queued | Holding | Timing(deadline: Time) | Releasing

  datatype State = State(interval: nat, now: Time, next: Time, gate: nat, waiters: map<Id, Stage>, starts: seq<Time>)

  const GATE_CAPACITY := 1

  function Start(interval: nat, now: nat): State { State(interval, now, 0, GATE_CAPACITY, map[], []) }

  datatype Action = Tick(duration: nat) | Arrive(id: Id) | Advance(id: Id, cancelled: bool)

  // One step of a waiter. A cancelled waiter leaves without a start; a waiter whose timer and
  // cancellation are both ready may take either.
  function StepWaiter(s: State, id: Id, cancelled: bool): State
    requires id in s.waiters
  {
    match s.waiters[id]
    case Queued =>
      if cancelled then s.(waiters := s.waiters - {id})
      else if s.gate == 0 then s
      else s.(gate := s.gate - 1, waiters := s.waiters[id := Holding])
    case Holding => s.(waiters := s.waiters[id := Timing(if s.next > s.now then s.next else s.now)])
    case Timing(deadline) =>
      if cancelled then s.(waiters := s.waiters[id := Releasing])
      else if s.now < deadline then s
      else s.(next := s.now + s.interval, starts := s.starts + [s.now], waiters := s.waiters[id := Releasing])
    case Releasing => if s.gate >= GATE_CAPACITY then s else s.(gate := s.gate + 1, waiters := s.waiters - {id})
  }

  function Step(s: State, a: Action): State {
    match a
    case Tick(duration) => s.(now := s.now + duration)
    case Arrive(id) => if id in s.waiters then s else s.(waiters := s.waiters[id := Queued])
    case Advance(id, cancelled) => if id in s.waiters then StepWaiter(s, id, cancelled) else s
  }

  function Exec(s: State, actions: seq<Action>): State
    decreases |actions|
  {
    if actions == [] then s else Exec(Step(s, actions[0]), actions[1..])
  }

  // ----- the invariant

  ghost predicate Holds(s: State, id: Id) { id in s.waiters && s.waiters[id] != Queued }

  // The token is in the channel or with one waiter, never lost or copied.
  ghost predicate TokenOK(s: State) {
    && s.gate <= GATE_CAPACITY
    && (s.gate == 1 <==> forall id :: !Holds(s, id))
    && (forall a, b :: Holds(s, a) && Holds(s, b) ==> a == b)
  }

  ghost predicate Spaced(starts: seq<Time>, interval: nat) {
    forall i, j :: 0 <= i < j < |starts| ==> starts[i] + interval <= starts[j]
  }

  ghost predicate TimesOK(s: State) {
    && Spaced(s.starts, s.interval)
    && (forall i :: 0 <= i < |s.starts| ==> s.starts[i] <= s.now && s.starts[i] + s.interval <= s.next)
    && (forall id :: id in s.waiters && s.waiters[id].Timing? ==> s.next <= s.waiters[id].deadline)
  }

  ghost predicate Inv(s: State) { TokenOK(s) && TimesOK(s) }

  lemma {:induction false} WaiterToken(s: State, id: Id, cancelled: bool)
    requires TokenOK(s) && id in s.waiters
    ensures TokenOK(StepWaiter(s, id, cancelled))
  {
    var s' := StepWaiter(s, id, cancelled);
    forall k: Id | k != id ensures Holds(s', k) == Holds(s, k) {}
    assert Holds(s, id) ==> s.gate == 0;
    if s'.gate == 0 {
      assert s.gate == 0 ==> exists k :: Holds(s, k);
      if s.gate == 1 {
        assert Holds(s', id);
      } else {
        var k :| Holds(s, k);
        assert k == id ==> Holds(s', id);
        assert Holds(s', k);
      }
    }
  }

  lemma {:induction false} WaiterTimes(s: State, id: Id, cancelled: bool)
    requires Inv(s) && id in s.waiters
    ensures TimesOK(StepWaiter(s, id, cancelled))
  {
    var s' := StepWaiter(s, id, cancelled);
    forall k | k in s'.waiters && s'.waiters[k].Timing? ensures s'.next <= s'.waiters[k].deadline {
      if k != id && s'.next != s.next {
        assert Holds(s, k) && Holds(s, id);
      }
    }
  }

  lemma {:induction false} StepInv(s: State, a: Action)
    requires Inv(s)
    ensures Inv(Step(s, a)) && Step(s, a).interval == s.interval
  {
    match a
    case Tick(duration) =>
      assert forall id: Id :: Holds(Step(s, a), id) == Holds(s, id);
    case Arrive(id) =>
      assert forall k: Id :: Holds(Step(s, a), k) == Holds(s, k);
    case Advance(id, cancelled) =>
      if id in s.waiters {
        WaiterToken(s, id, cancelled);
        WaiterTimes(s, id, cancelled);
      }
  }

  lemma {:induction false} ExecInv(s: State, actions: seq<Action>)
    requires Inv(s)
    ensures Inv(Exec(s, actions)) && Exec(s, actions).interval == s.interval
    decreases |actions|
  {
    hide Inv;
    if actions != [] {
      StepInv(s, actions[0]);
      ExecInv(Step(s, actions[0]), actions[1..]);
    }
  }

  lemma {:induction false} StartInv(interval: nat, now: nat)
    ensures Inv(Start(interval, now))
  {
  }

  // ----- theorems

  // THEOREM (token). In every interleaving of arrivals, cancellations and starts the token is
  // in the channel exactly when nobody holds it, and one waiter at most holds it; giving it
  // back never blocks.
  lemma {:induction false} TokenConserved(interval: nat, now: nat, actions: seq<Action>, a: Id, b: Id)
    ensures var s := Exec(Start(interval, now), actions);
      && (s.gate == 1 <==> forall id :: !Holds(s, id)) && s.gate <= 1
      && (Holds(s, a) && Holds(s, b) ==> a == b)
      && (Holds(s, a) ==> s.gate == 0)
  {
    StartInv(interval, now);
    ExecInv(Start(interval, now), actions);
  }

  // THEOREM (spacing). Any two starts are at least the interval apart.
  lemma {:induction false} StartsSpaced(interval: nat, now: nat, actions: seq<Action>, i: nat, j: nat)
    requires i < j < |Exec(Start(interval, now), actions).starts|
    ensures Exec(Start(interval, now), actions).starts[i] + interval <= Exec(Start(interval, now), actions).starts[j]
  {
    StartInv(interval, now);
    ExecInv(Start(interval, now), actions);
  }

  // The starts in a window.
  function CountIn(starts: seq<Time>, from: Time, to: Time): nat {
    if starts == [] then 0
    else CountIn(starts[..|starts| - 1], from, to) + if from <= starts[|starts| - 1] <= to then 1 else 0
  }

  lemma {:induction false} LatestInWindow(starts: seq<Time>, interval: nat, from: Time, to: Time) returns (last: nat)
    requires Spaced(starts, interval) && CountIn(starts, from, to) > 0
    ensures last < |starts| && from + (CountIn(starts, from, to) - 1) * interval <= starts[last] <= to
  {
    var before, x := starts[..|starts| - 1], starts[|starts| - 1];
    if from <= x <= to {
      last := |starts| - 1;
      var n := CountIn(before, from, to);
      if n > 0 {
        var k := LatestInWindow(before, interval, from, to);
        assert n * interval == (n - 1) * interval + interval;
      }
    } else {
      last := LatestInWindow(before, interval, from, to);
    }
  }

  lemma {:induction false} QuotientBound(n: nat, d: nat, m: nat)
    requires d > 0 && n * d <= m
    ensures n <= m / d
  {
    var q := m / d;
    assert m < (q + 1) * d;
    if n > q {
      MulLe(q + 1, n, d);
      assert false;
    }
  }

  lemma {:induction false} MulLe(a: nat, b: nat, d: nat)
    requires a <= b
    ensures a * d <= b * d
  {
    assert b * d == a * d + (b - a) * d;
  }

  // THEOREM (rate). A window of any length holds at most length / interval + 1 starts.
  lemma {:induction false} StartRate(interval: nat, now: nat, actions: seq<Action>, from: Time, length: nat)
    requires interval > 0
    ensures CountIn(Exec(Start(interval, now), actions).starts, from, from + length) <= length / interval + 1
  {
    StartInv(interval, now);
    ExecInv(Start(interval, now), actions);
    var starts := Exec(Start(interval, now), actions).starts;
    var n := CountIn(starts, from, from + length);
    if n > 0 {
      var last := LatestInWindow(starts, interval, from, from + length);
      QuotientBound(n - 1, interval, length);
    }
  }

  // A waiter left to itself, with some time passing once its timer is set.
  function Turns(id: Id, duration: nat, cancelled: bool): seq<Action> {
    [Advance(id, false), Advance(id, false), Tick(duration), Advance(id, cancelled), Advance(id, false)]
  }

  // THEOREM (grant). From any state that can arise with the token in the channel, a queued
  // waiter starts exactly if the time of the next start is reached and nothing cancelled it;
  // the next start is then an interval later, and in either of these cases it leaves and the
  // token is back.
  lemma {:induction false} StartGranted(interval: nat, now: nat, actions: seq<Action>, id: Id, duration: nat, cancelled: bool)
    requires var s := Exec(Start(interval, now), actions);
      s.gate == 1 && id in s.waiters && s.waiters[id] == Queued
    ensures var s := Exec(Start(interval, now), actions);
      var s' := Exec(s, Turns(id, duration, cancelled));
      var at := s.now + duration;
      var ready := at >= s.next;
      && s'.starts == s.starts + (if ready && !cancelled then [at] else [])
      && s'.next == (if ready && !cancelled then at + interval else s.next)
      && (ready || cancelled ==> s'.gate == 1 && s'.waiters == s.waiters - {id})
      && (!ready && !cancelled ==> s'.gate == 0 && s'.waiters == s.waiters[id := Timing(s.next)])
      && s'.now == at && s'.interval == interval
  {
    StartInv(interval, now);
    ExecInv(Start(interval, now), actions);
    var s0 := Exec(Start(interval, now), actions);
    ExecFive(s0, Advance(id, false), Advance(id, false), Tick(duration), Advance(id, cancelled), Advance(id, false));
    var s1 := Step(s0, Advance(id, false));
    var s2 := Step(s1, Advance(id, false));
    assert s1.waiters[id] == Holding && s2.waiters[id] == Timing(if s0.next > s0.now then s0.next else s0.now);
  }

  lemma {:induction false} ExecFive(s: State, a: Action, b: Action, c: Action, d: Action, e: Action)
    ensures Exec(s, [a, b, c, d, e]) == Step(Step(Step(Step(Step(s, a), b), c), d), e)
  {
    assert [a, b, c, d, e][1..] == [b, c, d, e] && [b, c, d, e][1..] == [c, d, e] && [c, d, e][1..] == [d, e];
    assert Exec(Step(s, a), [b, c, d, e]) == Exec(Step(Step(s, a), b), [c, d, e]);
    var s2 := Step(Step(s, a), b);
    assert [d, e][1..] == [e] && [e][1..] == [];
    assert Exec(s2, [c, d, e]) == Exec(Step(s2, c), [d, e]);
    assert Exec(Step(s2, c), [d, e]) == Exec(Step(Step(s2, c), d), [e]);
    assert Exec(Step(Step(s2, c), d), [e]) == Exec(Step(Step(Step(s2, c), d), e), []);
  }

  // A waiter cancelled in the queue leaves at once and changes nothing else, and one that meets
  // an empty channel goes on waiting.
  lemma {:induction false} QueuedExactly(s: State, id: Id)
    requires id in s.waiters && s.waiters[id] == Queued
    ensures Step(s, Advance(id, true)) == s.(waiters := s.waiters - {id})
    ensures s.gate == 0 ==> Step(s, Advance(id, false)) == s
  {
  }

  // ----- the limiter in place

  class Limiter {
    const interval: nat
    var now: Time
    var next: Time
    var gate: nat
    var waiters: map<Id, Stage>
    ghost var starts: seq<Time>

    constructor (interval: nat, now: nat)
      ensures View() == Start(interval, now)
    {
      this.interval := interval;
      this.now := now;
      next, gate, waiters, starts := 0, GATE_CAPACITY, map[], [];
    }

    ghost function View(): State
      reads this
    {
      State(interval, now, next, gate, waiters, starts)
    }

    // The next step of a waiter; true if that step grants its start.
    method AdvanceWaiter(id: Id, cancelled: bool) returns (started: bool)
      requires id in waiters
      modifies this
      ensures View() == Step(old(View()), Advance(id, cancelled))
      ensures starts == old(starts) + if started then [old(now)] else []
    {
      started := false;
      match waiters[id] {
        case Queued =>
          if cancelled {
            waiters := waiters - {id};
          } else if gate > 0 {
            gate := gate - 1;
            waiters := waiters[id := Holding];
          }
        case Holding =>
          waiters := waiters[id := Timing(if next > now then next else now)];
        case Timing(deadline) =>
          if cancelled {
            waiters := waiters[id := Releasing];
          } else if now >= deadline {
            next := now + interval;
            starts := starts + [now];
            waiters := waiters[id := Releasing];
            started := true;
          }
        case Releasing =>
          if gate < GATE_CAPACITY {
            gate := gate + 1;
            waiters := waiters - {id};
          }
      }
    }
  }
}
