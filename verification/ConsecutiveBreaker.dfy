/** The consecutive-failure strategy over the shared skeleton. */
module ConsecutiveBreaker {
  import opened Basics
  import opened Governor

  datatype State = State(m: Machine, failures: nat)

  /** A server fault on a closed machine whose streak it completes. */
  predicate Trips(threshold: nat, s: State, outcome: Outcome) {
    outcome == ServerFault && s.failures + 1 >= threshold
  }

  function Fed(threshold: nat, s: State, grant: Option<Grant>, outcome: Outcome, now: Time): State {
    var m := Report(s.m, grant, outcome, Trips(threshold, s, outcome), now);
    match s.m.name
    case Closed =>
      State(m, match outcome
               case Success | ClientFault | Slow => 0
               case ServerFault => s.failures + 1
               case GatewayTerminated => s.failures)
    case HalfOpen => State(m, if m.name == Closed then 0 else s.failures)
    case Open => s
  }

  class Breaker {
    const machine: BreakerMachine
    const failThreshold: nat
    var failures: nat

    ghost function Value(): State
      reads this, machine
    {
      State(machine.Value(), failures)
    }

    constructor (timing: Timing, failThreshold: nat)
      ensures Value() == State(Start().m, 0) && fresh(machine) && machine.timing == timing
      ensures this.failThreshold == failThreshold
    {
      machine := new BreakerMachine(timing);
      this.failThreshold := failThreshold;
      failures := 0;
    }

    method Allow(now: Time) returns (p: Permission?)
      modifies machine
      ensures var (m, v) := Governor.Allow(machine.timing, old(Value()).m, now);
              && Value() == State(m, old(failures))
              && (p == null <==> v.Denied?)
              && (p != null ==> fresh(p) && p.grant == v.grant && !p.reported)
    {
      var v := machine.Admit(now);
      if v.Denied? {
        return null;
      }
      p := new Permission(v.grant);
    }

    method StateOf(now: Time) returns (position: Position)
      modifies machine
      ensures Value() == State(Observe(machine.timing, old(Value()).m, now), old(failures))
      ensures position == machine.name
    {
      position := machine.Look(now);
    }

    method Reset(now: Time)
      modifies this, machine
      ensures Value() == State(Governor.Reset(old(Value()).m, now), 0)
    {
      failures := 0;
      machine.probe := None;
      machine.Move(Closed, now);
    }

    /** The first report counts; a second one is absorbed. */
    method Report(p: Permission, outcome: Outcome, now: Time)
      modifies this, machine, p
      ensures p.reported
      ensures Value() == if old(p.reported) then old(Value()) else Fed(failThreshold, old(Value()), p.grant, outcome, now)
    {
      if p.reported {
        return;
      }
      p.reported := true;
      match machine.name {
        case Closed =>
          match outcome {
            case Success | ClientFault | Slow =>
              failures := 0;
            case ServerFault =>
              failures := failures + 1;
              if failures >= failThreshold {
                machine.Move(Open, now);
              }
            case GatewayTerminated =>
          }
        case HalfOpen =>
          if machine.probe.None? || machine.probe != p.grant {
            return;
          }
          if outcome == GatewayTerminated || now > machine.probe.value.deadline {
            machine.Abandon(now);
            return;
          }
          machine.probe := None;
          if outcome == ServerFault {
            machine.Move(Open, now);
          } else {
            machine.Move(Closed, now);
            failures := 0;
          }
        case Open =>
      }
    }
  }

  // ---------------------------------------------------------------------
  // When it opens
  // ---------------------------------------------------------------------

  /** One report: whose permission, what became of the call, and when. */
  datatype Told = Told(grant: Option<Grant>, outcome: Outcome, now: Time)

  /** The run of server faults a report sequence ends in; gateway cuts neither
      extend nor break it. */
  function Streak(reports: seq<Told>): nat {
    if |reports| == 0 then 0
    else
      var init := reports[..|reports| - 1];
      match reports[|reports| - 1].outcome
      case ServerFault => Streak(init) + 1
      case GatewayTerminated => Streak(init)
      case Success | ClientFault | Slow => 0
  }

  function FedAll(threshold: nat, s: State, reports: seq<Told>): State
    decreases |reports|
  {
    if |reports| == 0 then s
    else
      var last := reports[|reports| - 1];
      Fed(threshold, FedAll(threshold, s, reports[..|reports| - 1]), last.grant, last.outcome, last.now)
  }

  /** A freshly closed breaker is still closed after a sequence of reports, by
      whatever permissions and at whatever instants, exactly when no prefix ended
      in a full streak of server faults. */
  lemma {:induction false} OpensExactlyOnStreak(threshold: nat, s: State, reports: seq<Told>)
    requires threshold >= 1 && s.m.name == Closed && s.failures == 0
    ensures var t := FedAll(threshold, s, reports);
            && (t.m.name == Closed <==> forall i :: 0 <= i <= |reports| ==> Streak(reports[..i]) < threshold)
            && (t.m.name == Closed ==> t.failures == Streak(reports))
            && (t.m.name != Closed ==> t.m.name == Open)
    decreases |reports|
  {
    assert reports[..|reports|] == reports;
    if |reports| > 0 {
      var init := reports[..|reports| - 1];
      OpensExactlyOnStreak(threshold, s, init);
      forall i | 0 <= i <= |init| ensures init[..i] == reports[..i] {
      }
    }
  }

  // ---------------------------------------------------------------------
  // Whole runs
  // ---------------------------------------------------------------------

  datatype Op = Ask(now: Time) | Look(now: Time) | Hear(report: Told) | Clear(now: Time) {
    function Instant(): Time { if Hear? then report.now else now }
  }

  function Step(g: Timing, threshold: nat, s: State, o: Op): State {
    match o
    case Ask(now) => State(Allow(g, s.m, now).0, s.failures)
    case Look(now) => State(Observe(g, s.m, now), s.failures)
    case Hear(report) => Fed(threshold, s, report.grant, report.outcome, report.now)
    case Clear(now) => State(Reset(s.m, now), 0)
  }

  function StepAll(g: Timing, threshold: nat, run: seq<Op>): State {
    if |run| == 0 then State(Start().m, 0) else Step(g, threshold, StepAll(g, threshold, run[..|run| - 1]), run[|run| - 1])
  }

  /** The reports heard while closed, since the breaker last became closed or was
      reset. */
  function HeardSince(g: Timing, threshold: nat, run: seq<Op>): seq<Told> {
    if |run| == 0 then []
    else
      var init, o := run[..|run| - 1], run[|run| - 1];
      var before, after := StepAll(g, threshold, init).m.name, StepAll(g, threshold, run).m.name;
      if o.Clear? || (before != Closed && after == Closed) then []
      else if o.Hear? && before == Closed then HeardSince(g, threshold, init) + [o.report]
      else HeardSince(g, threshold, init)
  }

  lemma StreakGrows(reports: seq<Told>, last: Told)
    ensures Streak(reports + [last]) == match last.outcome
                                        case ServerFault => Streak(reports) + 1
                                        case GatewayTerminated => Streak(reports)
                                        case Success | ClientFault | Slow => 0
  {
    assert (reports + [last])[..|reports|] == reports;
  }

  /** In any run a closed breaker has counted exactly the streak of server faults
      heard since it last became closed or was reset: an episode that went through
      open leaves nothing behind. */
  lemma {:induction false} CountsTheStreak(g: Timing, threshold: nat, run: seq<Op>)
    requires threshold >= 1
    ensures var s := StepAll(g, threshold, run);
            s.m.name == Closed ==> s.failures == Streak(HeardSince(g, threshold, run)) < threshold
  {
    if |run| > 0 {
      var init, o := run[..|run| - 1], run[|run| - 1];
      CountsTheStreak(g, threshold, init);
      if o.Hear? {
        StreakGrows(HeardSince(g, threshold, init), o.report);
      }
    }
  }

  /** And the next report opens it exactly when that streak, the report included,
      is a full one. */
  lemma OpensOnAFullStreak(g: Timing, threshold: nat, run: seq<Op>, report: Told)
    requires threshold >= 1 && StepAll(g, threshold, run).m.name == Closed
    ensures StepAll(g, threshold, run + [Hear(report)]).m.name ==
              if Streak(HeardSince(g, threshold, run) + [report]) >= threshold then Open else Closed
  {
    CountsTheStreak(g, threshold, run);
    StreakGrows(HeardSince(g, threshold, run), report);
    assert (run + [Hear(report)])[..|run|] == run;
  }

  /** An operation as the shared skeleton sees it: reports with their verdict. */
  function Seen(threshold: nat, s: State, o: Op): Event {
    match o
    case Ask(now) => Call(now)
    case Look(now) => Read(now)
    case Hear(report) => Tell(report.grant, report.outcome, Trips(threshold, s, report.outcome), report.now)
    case Clear(now) => Force(now)
  }

  lemma SeenMovesAlike(g: Timing, threshold: nat, s: State, t: Track, o: Op)
    requires t.m == s.m
    ensures Step(g, threshold, s, o).m == Next(g, t, Seen(threshold, s, o)).m
    ensures Seen(threshold, s, o).now == o.Instant()
  {
  }

  function Skeleton(g: Timing, threshold: nat, run: seq<Op>): seq<Event> {
    if |run| == 0 then []
    else
      var init := run[..|run| - 1];
      Skeleton(g, threshold, init) + [Seen(threshold, StepAll(g, threshold, init), run[|run| - 1])]
  }

  lemma {:induction false} SkeletonKeepsTime(g: Timing, threshold: nat, run: seq<Op>)
    ensures var seen := Skeleton(g, threshold, run);
            |seen| == |run| && forall i :: 0 <= i < |run| ==> seen[i].now == run[i].Instant()
  {
    if |run| > 0 {
      SkeletonKeepsTime(g, threshold, run[..|run| - 1]);
    }
  }

  lemma {:induction false} SkeletonFollows(g: Timing, threshold: nat, run: seq<Op>)
    ensures StepAll(g, threshold, run).m == NextAll(g, Start(), Skeleton(g, threshold, run)).m
  {
    if |run| > 0 {
      var init := run[..|run| - 1];
      SkeletonFollows(g, threshold, init);
      var before, all := Skeleton(g, threshold, init), Skeleton(g, threshold, run);
      assert all[..|all| - 1] == before;
      SeenMovesAlike(g, threshold, StepAll(g, threshold, init), NextAll(g, Start(), before), run[|init|]);
    }
  }

  /** So the probe discipline holds of every run of this strategy too. */
  lemma ProbeDisciplineHolds(g: Timing, threshold: nat, run: seq<Op>, clock: Time)
    requires forall i :: 0 <= i < |run| ==> clock <= run[i].Instant()
    requires forall i, j :: 0 <= i < j < |run| ==> run[i].Instant() <= run[j].Instant()
    ensures var m := StepAll(g, threshold, run).m; m.probe.Some? ==> m.name == HalfOpen
    ensures var t := NextAll(g, Start(), Skeleton(g, threshold, run));
            && t.m == StepAll(g, threshold, run).m && t.episode <= 1
            && (|t.admissions| > 0 ==> t.admissions[|t.admissions| - 1] - t.admissions[0] >= (|t.admissions| - 1) * g.cooldown)
  {
    SkeletonFollows(g, threshold, run);
    SkeletonKeepsTime(g, threshold, run);
    ProbeDiscipline(g, Skeleton(g, threshold, run), clock);
  }
}
