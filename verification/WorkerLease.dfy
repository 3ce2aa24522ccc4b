// The worker's side of a lease (internal/worker/run.go): maintainLease waits, renews and
// decides whether the lease still holds. Its surroundings, the clock and the replies, are an
// arbitrary list of rounds.
module WorkerLease {
  type Time = int

  const MAX_DELAY: Time := 30000000000
  const MIN_DELAY: Time := 10000000

  datatype Reply = RenewFailed | RenewCancelled | RenewGranted(expires: Time)

  // One turn of the loop: the clock at its top, whether the context ended during the wait or
  // during the call, the reply, and the clock when it was read.
  datatype Round = Round(top: Time, stoppedWaiting: bool, stoppedCalling: bool, reply: Reply, after: Time)

  datatype Outcome = Stopped | LeaseLost | InvalidExpiry | CancelledByServer | StillHeld

  function RenewDelay(remaining: Time): Time {
    var half := remaining / 2;
    var capped := if half > MAX_DELAY then MAX_DELAY else half;
    var raised := if capped < MIN_DELAY then MIN_DELAY else capped;
    if raised >= remaining then half else raised
  }

  // A renewal is always sent before the lease it renews ends, and after a real wait unless
  // the lease has less than two nanoseconds left.
  lemma {:induction false} RenewBeforeExpiry(remaining: Time)
    requires remaining > 0
    ensures 0 <= RenewDelay(remaining) < remaining && RenewDelay(remaining) <= MAX_DELAY
    ensures remaining >= 2 ==> RenewDelay(remaining) > 0
    ensures remaining > 2 * MIN_DELAY ==> RenewDelay(remaining) >= MIN_DELAY
  {
  }

  // The wait is half the remaining time, but no more than 30 seconds and no less than 10
  // milliseconds, unless that would outlast the lease.
  lemma {:induction false} RenewDelayExactly(remaining: Time)
    requires remaining > 0
    ensures 10000000 < remaining <= 20000000 ==> RenewDelay(remaining) == 10000000
    ensures remaining <= 10000000 || 20000000 < remaining <= 60000000000 ==> RenewDelay(remaining) == remaining / 2
    ensures remaining > 60000000000 ==> RenewDelay(remaining) == 30000000000
  {
  }

  // What one round does to the lease's end.
  function Turn(expires: Time, deadline: Time, r: Round): (Outcome, Time) {
    if expires - r.top <= 0 then (LeaseLost, expires)
    else if r.stoppedWaiting then (Stopped, expires)
    else
      match r.reply
      case RenewFailed => if r.stoppedCalling then (Stopped, expires) else (StillHeld, expires)
      case RenewCancelled => (CancelledByServer, expires)
      case RenewGranted(next) =>
        if next <= r.after || next > deadline then (InvalidExpiry, expires) else (StillHeld, next)
  }

  function Maintain(expires: Time, deadline: Time, rounds: seq<Round>): (Outcome, Time)
    decreases |rounds|
  {
    if rounds == [] then (StillHeld, expires)
    else
      var (outcome, next) := Turn(expires, deadline, rounds[0]);
      if outcome == StillHeld then Maintain(next, deadline, rounds[1..]) else (outcome, next)
  }

  // The worker's expiry is always the claim's or one the server granted, never past the
  // deadline, and the lease is given up in the first round that starts at or after it.
  lemma {:induction false} ExpiryWasGranted(expires: Time, deadline: Time, rounds: seq<Round>)
    requires expires <= deadline
    ensures var (outcome, last) := Maintain(expires, deadline, rounds);
      && last <= deadline
      && (last == expires || exists i :: 0 <= i < |rounds| && rounds[i].reply == RenewGranted(last) && last > rounds[i].after)
      && (outcome == LeaseLost ==> exists i :: 0 <= i < |rounds| && rounds[i].top >= last)
      && (outcome == StillHeld && rounds != [] ==> rounds[0].top < expires)
    decreases |rounds|
  {
    if rounds != [] {
      var (outcome, next) := Turn(expires, deadline, rounds[0]);
      if outcome == StillHeld {
        ExpiryWasGranted(next, deadline, rounds[1..]);
        var (after, last) := Maintain(next, deadline, rounds[1..]);
        if last != next {
          var i :| 0 <= i < |rounds[1..]| && rounds[1..][i].reply == RenewGranted(last) && last > rounds[1..][i].after;
          assert rounds[i + 1] == rounds[1..][i];
        }
        if after == LeaseLost {
          var i :| 0 <= i < |rounds[1..]| && rounds[1..][i].top >= last;
          assert rounds[i + 1] == rounds[1..][i];
        }
      }
    }
  }

  lemma {:induction false} MaintainLast(expires: Time, deadline: Time, rounds: seq<Round>, r: Round)
    ensures var (outcome, held) := Maintain(expires, deadline, rounds);
      Maintain(expires, deadline, rounds + [r]) == if outcome == StillHeld then Turn(held, deadline, r) else (outcome, held)
    decreases |rounds|
  {
    if rounds == [] {
      assert rounds + [r] == [r] && [r][1..] == [];
    } else {
      assert (rounds + [r])[1..] == rounds[1..] + [r];
      var (outcome, next) := Turn(expires, deadline, rounds[0]);
      if outcome == StillHeld { MaintainLast(next, deadline, rounds[1..], r); }
    }
  }

  // The loop reaches round i, at or after the end of the lease that it holds then.
  predicate ReachedAt(expires: Time, deadline: Time, rounds: seq<Round>, i: nat)
    requires i < |rounds|
  {
    var (outcome, held) := Maintain(expires, deadline, rounds[..i]);
    outcome == StillHeld && rounds[i].top >= held
  }

  // THEOREM. The lease is given up as lost exactly if some round that the loop reaches begins at
  // or after the end held then, and it is still held only if every round began before it.
  lemma {:induction false} GivenUpExactly(expires: Time, deadline: Time, rounds: seq<Round>)
    ensures var outcome := Maintain(expires, deadline, rounds).0;
      && (outcome == LeaseLost <==> exists i :: 0 <= i < |rounds| && ReachedAt(expires, deadline, rounds, i))
      && (outcome == StillHeld ==> forall i :: 0 <= i < |rounds| ==> rounds[i].top < Maintain(expires, deadline, rounds[..i]).1)
    decreases |rounds|
  {
    if rounds != [] {
      var last := |rounds| - 1;
      var before := rounds[..last];
      assert rounds == before + [rounds[last]];
      MaintainLast(expires, deadline, before, rounds[last]);
      GivenUpExactly(expires, deadline, before);
      forall i | 0 <= i < last
        ensures rounds[..i] == before[..i] && (ReachedAt(expires, deadline, rounds, i) <==> ReachedAt(expires, deadline, before, i))
      {
        assert rounds[..i] == before[..i] && rounds[i] == before[i];
      }
      assert ReachedAt(expires, deadline, rounds, last) <==>
        Maintain(expires, deadline, before).0 == StillHeld && rounds[last].top >= Maintain(expires, deadline, before).1;
      if i :| 0 <= i < |before| && ReachedAt(expires, deadline, before, i) {
        assert ReachedAt(expires, deadline, rounds, i);
      }
    }
  }

  // No round is reached after one that gave the lease up: the first to reach its end is the last.
  lemma {:induction false} GivenUpOnce(expires: Time, deadline: Time, rounds: seq<Round>, i: nat, j: nat)
    requires i < j < |rounds| && ReachedAt(expires, deadline, rounds, i)
    ensures Maintain(expires, deadline, rounds[..j]).0 == LeaseLost
  {
    GivenUpExactly(expires, deadline, rounds[..j]);
    assert rounds[..j][..i] == rounds[..i];
    assert ReachedAt(expires, deadline, rounds[..j], i);
  }

  // The round ends the loop with this outcome, or leaves the lease held.
  predicate Ends(held: Time, deadline: Time, r: Round, outcome: Outcome) {
    match outcome
    case LeaseLost => r.top >= held
    case Stopped => r.top < held && (r.stoppedWaiting || (r.stoppedCalling && r.reply == RenewFailed))
    case CancelledByServer => r.top < held && !r.stoppedWaiting && r.reply == RenewCancelled
    case InvalidExpiry =>
      r.top < held && !r.stoppedWaiting && r.reply.RenewGranted? && !(r.after < r.reply.expires <= deadline)
    case StillHeld =>
      && r.top < held && !r.stoppedWaiting
      && ((r.reply == RenewFailed && !r.stoppedCalling) || (r.reply.RenewGranted? && r.after < r.reply.expires <= deadline))
  }

  lemma {:induction false} TurnEnds(held: Time, deadline: Time, r: Round, outcome: Outcome)
    ensures Ends(held, deadline, r, outcome) <==> Turn(held, deadline, r).0 == outcome
  {
  }

  predicate EndedAt(expires: Time, deadline: Time, rounds: seq<Round>, i: nat, outcome: Outcome)
    requires i < |rounds|
  {
    var (before, held) := Maintain(expires, deadline, rounds[..i]);
    before == StillHeld && Ends(held, deadline, rounds[i], outcome)
  }

  // THEOREM. The loop ends with an outcome exactly if a round that it reaches calls for it, and
  // the lease is still held exactly if no round ended it.
  lemma {:induction false} EndsExactly(expires: Time, deadline: Time, rounds: seq<Round>, outcome: Outcome)
    ensures outcome != StillHeld ==>
      (Maintain(expires, deadline, rounds).0 == outcome <==>
        exists i :: 0 <= i < |rounds| && EndedAt(expires, deadline, rounds, i, outcome))
    ensures Maintain(expires, deadline, rounds).0 == StillHeld <==>
      forall i :: 0 <= i < |rounds| ==> EndedAt(expires, deadline, rounds, i, StillHeld)
    decreases |rounds|
  {
    if rounds != [] {
      var last := |rounds| - 1;
      var before := rounds[..last];
      assert rounds == before + [rounds[last]];
      MaintainLast(expires, deadline, before, rounds[last]);
      EndsExactly(expires, deadline, before, outcome);
      forall i, o | 0 <= i < last
        ensures EndedAt(expires, deadline, rounds, i, o) <==> EndedAt(expires, deadline, before, i, o)
      {
        assert rounds[..i] == before[..i] && rounds[i] == before[i];
      }
      TurnEnds(Maintain(expires, deadline, before).1, deadline, rounds[last], outcome);
      TurnEnds(Maintain(expires, deadline, before).1, deadline, rounds[last], StillHeld);
      assert forall o :: EndedAt(expires, deadline, rounds, last, o) <==>
        Maintain(expires, deadline, before).0 == StillHeld && Ends(Maintain(expires, deadline, before).1, deadline, rounds[last], o);
      if i :| 0 <= i < |before| && EndedAt(expires, deadline, before, i, outcome) {
        assert EndedAt(expires, deadline, rounds, i, outcome);
      }
    }
  }

  // While the lease is held, its end is the one granted last, or the claim's if none was.
  lemma {:induction false} HeldIsLatest(expires: Time, deadline: Time, rounds: seq<Round>, i: nat)
    requires i <= |rounds| && Maintain(expires, deadline, rounds).0 == StillHeld
    requires forall j :: i <= j < |rounds| ==> !rounds[j].reply.RenewGranted?
    requires i > 0 ==> rounds[i - 1].reply.RenewGranted?
    ensures Maintain(expires, deadline, rounds).1 == if i == 0 then expires else rounds[i - 1].reply.expires
    decreases |rounds|
  {
    if rounds != [] {
      var last := |rounds| - 1;
      assert rounds == rounds[..last] + [rounds[last]];
      MaintainLast(expires, deadline, rounds[..last], rounds[last]);
      if i <= last { HeldIsLatest(expires, deadline, rounds[..last], i); }
    }
  }

  method MaintainLease(claimed: Time, deadline: Time, rounds: seq<Round>) returns (outcome: Outcome, expires: Time)
    ensures (outcome, expires) == Maintain(claimed, deadline, rounds)
  {
    expires := claimed;
    for i := 0 to |rounds|
      invariant Maintain(expires, deadline, rounds[i..]) == Maintain(claimed, deadline, rounds)
    {
      var round := rounds[i];
      assert rounds[i..][1..] == rounds[i + 1..];
      var remaining := expires - round.top;
      if remaining <= 0 {
        return LeaseLost, expires;
      }
      if round.stoppedWaiting {
        return Stopped, expires;
      }
      match round.reply
      case RenewFailed =>
        if round.stoppedCalling {
          return Stopped, expires;
        }
      case RenewCancelled =>
        return CancelledByServer, expires;
      case RenewGranted(next) =>
        if next <= round.after || next > deadline {
          return InvalidExpiry, expires;
        }
        expires := next;
    }
    outcome := StillHeld;
  }
}
