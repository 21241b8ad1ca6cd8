/** The slow-call strategy: the shared skeleton opened by the share of slow
    completions in the rolling window. */
module SlowBreaker {
  import opened Basics
  import opened Governor
  import W = RollingWindow
  import R = BucketRing

  const MIN_SAMPLES := 10

  datatype State = State(m: Machine, window: W.Window)

  /** A server fault is slow evidence too; a gateway cut is none. */
  function Amount(outcome: Outcome): W.Tally {
    match outcome
    case Slow | ServerFault => W.Tally(1, 1, 0)
    case Success | ClientFault => W.Tally(1, 0, 0)
    case GatewayTerminated => W.Tally(0, 0, 0)
  }

  predicate Saturated(t: W.Tally, slowRatio: real) {
    t.x >= MIN_SAMPLES && t.y as real / t.x as real >= slowRatio
  }

  predicate Trips(slowRatio: real, w: W.Window, outcome: Outcome, now: Time) {
    outcome != GatewayTerminated && Saturated(W.Read(W.Write(w, now, Amount(outcome)), now), slowRatio)
  }

  function Fed(slowRatio: real, s: State, grant: Option<Grant>, outcome: Outcome, now: Time): State {
    var m := Report(s.m, grant, outcome, Trips(slowRatio, s.window, outcome, now), now);
    match s.m.name
    case Closed => State(m, if outcome == GatewayTerminated then s.window else W.Write(s.window, now, Amount(outcome)))
    case HalfOpen => State(m, if m.name == Closed then W.Cleared(s.window) else s.window)
    case Open => s
  }

  /** An operator's reset. */
  function Forced(s: State, now: Time): State {
    State(Enter(s.m, Closed, now), W.Restarted(s.window, now))
  }

  class Breaker {
    const machine: BreakerMachine
    const ring: R.Ring
    const slowRatio: real

    ghost predicate Valid()
      reads this, ring, ring.buckets
    {
      ring.Valid()
    }

    ghost function Value(): State
      reads this, machine, ring
    {
      State(machine.Value(), ring.window)
    }

    constructor (timing: Timing, slowRatio: real, now: Time)
      ensures Valid() && Value() == State(Start().m, W.Window(now, 0, []))
      ensures machine.timing == timing && this.slowRatio == slowRatio
      ensures fresh(machine) && fresh(ring) && fresh(ring.buckets)
    {
      machine := new BreakerMachine(timing);
      ring := new R.Ring(now);
      this.slowRatio := slowRatio;
    }

    method Allow(now: Time) returns (p: Permission?)
      requires Valid()
      modifies machine
      ensures var (m, v) := Governor.Allow(machine.timing, old(Value()).m, now);
              && Valid() && Value() == State(m, old(ring.window))
              && (p == null <==> v.Denied?)
              && (p != null ==> fresh(p) && p.grant == v.grant && !p.reported)
    {
      var v := machine.Admit(now);
      if v.Denied? {
        return null;
      }
      p := new Permission(v.grant);
    }

    method StateOf(now: Time) returns (position: Position)
      requires Valid()
      modifies machine
      ensures Valid() && Value() == State(Observe(machine.timing, old(Value()).m, now), old(ring.window))
      ensures position == machine.name
    {
      position := machine.Look(now);
    }

    method Reset(now: Time)
      requires Valid()
      modifies machine, ring, ring.buckets
      ensures Valid() && ring.buckets == old(ring.buckets)
      ensures Value() == Forced(old(Value()), now)
    {
      machine.Move(Closed, now);
      ring.Restart(now);
    }

    /** The first report counts; a second one is absorbed. */
    method Report(p: Permission, outcome: Outcome, now: Time)
      requires Valid()
      modifies machine, ring, ring.buckets, p
      ensures Valid() && ring.buckets == old(ring.buckets) && p.reported
      ensures Value() == if old(p.reported) then old(Value()) else Fed(slowRatio, old(Value()), p.grant, outcome, now)
    {
      if p.reported {
        return;
      }
      p.reported := true;
      match machine.name {
        case Closed =>
          if outcome != GatewayTerminated {
            ring.Add(now, Amount(outcome));
            var t := ring.Total(now);
            if t.x >= MIN_SAMPLES {
              if t.y as real / t.x as real >= slowRatio {
                machine.Move(Open, now);
              }
            }
          }
        case HalfOpen =>
          if machine.probe.None? || machine.probe != p.grant {
            return;
          }
          if outcome == GatewayTerminated {
            machine.Abandon(now);
            return;
          }
          if now > machine.probe.value.deadline && outcome != ServerFault {
            machine.Abandon(now);
            return;
          }
          machine.probe := None;
          if outcome == ServerFault {
            machine.Move(Open, now);
            return;
          }
          machine.Move(Closed, now);
          ring.Clear();
        case Open =>
      }
    }
  }

  /** A closed breaker that reads below ten completions never opens. */
  lemma LightTrafficNeverOpens(slowRatio: real, s: State, grant: Option<Grant>, outcome: Outcome, now: Time)
    requires s.m.name == Closed
    requires W.Read(W.Write(s.window, now, Amount(outcome)), now).x < MIN_SAMPLES
    ensures Fed(slowRatio, s, grant, outcome, now).m.name == Closed
  {
  }
}
