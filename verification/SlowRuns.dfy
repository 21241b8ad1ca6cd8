/** Whole runs of the slow-call breaker: its decisions against the event log of
    the calls really completed, through openings, recoveries and resets. */
module SlowRuns {
  import opened Basics
  import opened SlowBreaker
  import G = Governor
  import W = RollingWindow

  datatype Event =
    | Call(now: Time)
    | Look(now: Time)
    | Tell(grant: Option<G.Grant>, outcome: G.Outcome, now: Time)
    | Force(now: Time)

  function Next(g: G.Timing, slowRatio: real, s: State, e: Event): State {
    match e
    case Call(now) => State(G.Allow(g, s.m, now).0, s.window)
    case Look(now) => State(G.Observe(g, s.m, now), s.window)
    case Tell(grant, outcome, now) => Fed(slowRatio, s, grant, outcome, now)
    case Force(now) => Forced(s, now)
  }

  /** A closed breaker takes a completion as evidence. */
  predicate Counts(s: State, e: Event) { e.Tell? && s.m.name == G.Closed && e.outcome != G.GatewayTerminated }

  /** A recovery or a reset drops the evidence. */
  predicate Empties(s: State, s': State, e: Event) {
    e.Force? || (s.m.name == G.HalfOpen && s'.m.name == G.Closed)
  }

  /** A breaker with its history: when its evidence was last emptied, the window
      then, and the completions counted since. */
  datatype History = History(s: State, since: Time, from: W.Window, fed: seq<W.Event>)

  function Follow(g: G.Timing, slowRatio: real, t: History, e: Event): History {
    var s := Next(g, slowRatio, t.s, e);
    if Counts(t.s, e) then History(s, t.since, t.from, t.fed + [W.Event(e.now, Amount(e.outcome))])
    else if Empties(t.s, s, e) then History(s, e.now, s.window, [])
    else History(s, t.since, t.from, t.fed)
  }

  function Opened(now: Time): History {
    var w := W.Window(now, 0, []);
    History(State(G.Start().m, w), now, w, [])
  }

  function FollowAll(g: G.Timing, slowRatio: real, start: Time, run: seq<Event>): History {
    if |run| == 0 then Opened(start) else Follow(g, slowRatio, FollowAll(g, slowRatio, start, run[..|run| - 1]), run[|run| - 1])
  }

  ghost predicate ClockOrdered(run: seq<Event>, clock: Time) {
    && (forall i :: 0 <= i < |run| ==> clock <= run[i].now)
    && (forall i, j :: 0 <= i < j < |run| ==> run[i].now <= run[j].now)
  }

  function ClockOf(run: seq<Event>, start: Time): Time {
    if |run| == 0 then start else run[|run| - 1].now
  }

  /** Outside closed nothing has been written since the breaker opened, and
      half-open is a cooldown after that. */
  ghost predicate MarkStands(g: G.Timing, s: State, clock: Time) {
    && G.Settled(s.m)
    && (s.m.name != G.Closed ==> W.LastWrite(s.window) <= s.m.openedAt <= clock)
    && (s.m.name == G.HalfOpen ==> s.m.openedAt + g.cooldown <= clock)
  }

  /** The window is the completions counted since it was last emptied. */
  ghost predicate OnRecord(t: History, clock: Time) {
    && |t.from.log| == 0 && W.Sound(t.from, t.since) && W.Ordered(t.fed, t.since)
    && t.since <= clock && W.Clock(t.fed, t.since) <= clock
    && t.s.window == W.WriteAll(t.from, t.fed)
  }

  ghost predicate Inv(g: G.Timing, t: History, clock: Time) { MarkStands(g, t.s, clock) && OnRecord(t, clock) }

  lemma MarkStaysPut(g: G.Timing, slowRatio: real, s: State, clock: Time, e: Event)
    requires MarkStands(g, s, clock) && W.LastWrite(s.window) <= clock <= e.now
    ensures MarkStands(g, Next(g, slowRatio, s, e), e.now)
  {
  }

  lemma CountKeepsRecord(g: G.Timing, slowRatio: real, t: History, clock: Time, e: Event)
    requires OnRecord(t, clock) && clock <= e.now && Counts(t.s, e)
    ensures OnRecord(Follow(g, slowRatio, t, e), e.now)
  {
    W.OneMoreIsOrdered(t.fed, t.since, W.Event(e.now, Amount(e.outcome)));
    W.WriteOneMore(t.from, t.fed, W.Event(e.now, Amount(e.outcome)));
  }

  lemma FollowKeepsInv(g: G.Timing, slowRatio: real, t: History, clock: Time, e: Event)
    requires Inv(g, t, clock) && clock <= e.now
    ensures Inv(g, Follow(g, slowRatio, t, e), e.now)
  {
    W.RunIsSound(t.from, t.fed, t.since);
    MarkStaysPut(g, slowRatio, t.s, clock, e);
    if Counts(t.s, e) {
      CountKeepsRecord(g, slowRatio, t, clock, e);
    } else {
      EmptyIsSound(t.s.window, W.Clock(t.fed, t.since), e.now);
    }
  }

  lemma EmptyIsSound(w: W.Window, clock: Time, now: Time)
    requires W.Sound(w, clock) && clock <= now
    ensures W.Sound(W.Cleared(w), now) && W.LastWrite(W.Cleared(w)) == W.LastWrite(w)
    ensures W.Sound(W.Restarted(w, now), now) && W.LastWrite(W.Restarted(w, now)) == now
  {
  }

  lemma {:induction false} RunKeepsInv(g: G.Timing, slowRatio: real, start: Time, run: seq<Event>)
    requires ClockOrdered(run, start)
    ensures Inv(g, FollowAll(g, slowRatio, start, run), ClockOf(run, start))
  {
    if |run| > 0 {
      var n := |run| - 1;
      RunKeepsInv(g, slowRatio, start, run[..n]);
      FollowKeepsInv(g, slowRatio, FollowAll(g, slowRatio, start, run[..n]), ClockOf(run[..n], start), run[n]);
    }
  }

  // ---------------------------------------------------------------------
  // When it opens
  // ---------------------------------------------------------------------

  /** A log holding exactly these completions, in order. */
  ghost predicate Logs(log: seq<W.Entry>, fed: seq<W.Event>) {
    && |log| == |fed|
    && forall i :: 0 <= i < |log| ==> log[i].time == fed[i].time && log[i].amount == fed[i].amount
  }

  /** The window as a report that counts leaves it. */
  function Reported(s: State, e: Event): W.Window
    requires Counts(s, e)
  {
    W.Write(s.window, e.now, Amount(e.outcome))
  }

  /** A sound history's next completion is filed after the ones before it. */
  lemma ReportedIsLogged(g: G.Timing, t: History, clock: Time, e: Event)
    requires Inv(g, t, clock) && clock <= e.now && Counts(t.s, e)
    ensures W.Sound(Reported(t.s, e), e.now)
    ensures Logs(Reported(t.s, e).log, t.fed + [W.Event(e.now, Amount(e.outcome))])
  {
    W.RunIsSound(t.from, t.fed, t.since);
    W.WriteKeepsSound(t.s.window, W.Clock(t.fed, t.since), e.now, Amount(e.outcome));
  }

  lemma OpensIffRead(g: G.Timing, slowRatio: real, s: State, e: Event)
    requires Counts(s, e)
    ensures Next(g, slowRatio, s, e).m.name == G.Open <==> Saturated(W.Read(Reported(s, e), e.now), slowRatio)
  {
  }

  /** No completion still in the last forty buckets is missed by the read of this
      report. */
  ghost predicate MissesNothing(s: State, e: Event)
    requires Counts(s, e)
  {
    var v := Reported(s, e);
    forall i :: 0 <= i < |v.log| ==> !W.Misfiled(v, e.now, v.log[i])
  }

  /** The log of the last forty buckets, the report's own completion included. */
  function InWindow(s: State, e: Event): W.Tally
    requires Counts(s, e)
  {
    var v := Reported(s, e);
    W.Happened(v.base, v.log, W.Horizon(v, e.now))
  }

  /** Over any run of calls, reads, reports and resets, a report whose read
      misses no event still in the window opens the breaker exactly when, by the
      log of the completions counted since the evidence was last emptied, enough
      fall in the last forty buckets and the slow ones reach the ratio. */
  lemma TripsByTheLog(g: G.Timing, slowRatio: real, start: Time, run: seq<Event>, e: Event)
    requires ClockOrdered(run, start) && ClockOf(run, start) <= e.now
    requires Counts(FollowAll(g, slowRatio, start, run).s, e) && MissesNothing(FollowAll(g, slowRatio, start, run).s, e)
    ensures var t := FollowAll(g, slowRatio, start, run);
            && Logs(Reported(t.s, e).log, t.fed + [W.Event(e.now, Amount(e.outcome))])
            && (Next(g, slowRatio, t.s, e).m.name == G.Open <==> Saturated(InWindow(t.s, e), slowRatio))
  {
    var t := FollowAll(g, slowRatio, start, run);
    RunKeepsInv(g, slowRatio, start, run);
    ReportedIsLogged(g, t, ClockOf(run, start), e);
    W.FiledTrulyReadsTrue(Reported(t.s, e), e.now, e.now);
    OpensIffRead(g, slowRatio, t.s, e);
  }

  // ---------------------------------------------------------------------
  // The same by outcomes
  // ---------------------------------------------------------------------

  datatype Completion = Completion(outcome: G.Outcome, at: Time)

  /** The completions a closed breaker has heard of since its evidence was last
      emptied. */
  function Heard(g: G.Timing, slowRatio: real, start: Time, run: seq<Event>): seq<Completion> {
    if |run| == 0 then []
    else
      var init, e := run[..|run| - 1], run[|run| - 1];
      var s := FollowAll(g, slowRatio, start, init).s;
      if e.Tell? && s.m.name == G.Closed && e.outcome != G.GatewayTerminated then
        Heard(g, slowRatio, start, init) + [Completion(e.outcome, e.now)]
      else if Empties(s, Next(g, slowRatio, s, e), e) then []
      else Heard(g, slowRatio, start, init)
  }

  /** Those above an ordinal, and the slow ones among them: slow answers and server
      faults. */
  function Falling(cs: seq<Completion>, base: Time, horizon: int): nat {
    if |cs| == 0 then 0
    else
      Falling(cs[..|cs| - 1], base, horizon) + if W.Ordinal(base, cs[|cs| - 1].at) > horizon then 1 else 0
  }

  function FallingSlow(cs: seq<Completion>, base: Time, horizon: int): nat {
    if |cs| == 0 then 0
    else
      var c := cs[|cs| - 1];
      FallingSlow(cs[..|cs| - 1], base, horizon) +
        if W.Ordinal(base, c.at) > horizon && (c.outcome == G.Slow || c.outcome == G.ServerFault) then 1 else 0
  }

  /** Evidence that is exactly these completions. */
  ghost predicate Records(fed: seq<W.Event>, cs: seq<Completion>) {
    && |fed| == |cs|
    && forall i :: 0 <= i < |cs| ==> cs[i].outcome != G.GatewayTerminated && fed[i] == W.Event(cs[i].at, Amount(cs[i].outcome))
  }

  lemma {:induction false} FedIsHeard(g: G.Timing, slowRatio: real, start: Time, run: seq<Event>)
    ensures Records(FollowAll(g, slowRatio, start, run).fed, Heard(g, slowRatio, start, run))
  {
    if |run| > 0 {
      FedIsHeard(g, slowRatio, start, run[..|run| - 1]);
    }
  }

  lemma {:induction false} LogCounts(log: seq<W.Entry>, fed: seq<W.Event>, cs: seq<Completion>, base: Time, horizon: int)
    requires Logs(log, fed) && Records(fed, cs)
    ensures W.Happened(base, log, horizon) == W.Tally(Falling(cs, base, horizon), FallingSlow(cs, base, horizon), 0)
    decreases |log|
  {
    if |log| > 0 {
      var n := |log| - 1;
      LogCounts(log[..n], fed[..n], cs[..n], base, horizon);
      assert log[n].time == fed[n].time && log[n].amount == fed[n].amount && cs[n].outcome != G.GatewayTerminated;
    }
  }

  /** Enough of them, and the slow ones make up the ratio. */
  predicate Reaches(all: nat, slow: nat, slowRatio: real) { all >= 10 && slow as real >= slowRatio * all as real }

  /** Of the completions in the last forty buckets. */
  predicate ShareReached(cs: seq<Completion>, base: Time, now: Time, slowRatio: real) {
    var horizon := W.Ordinal(base, now) - W.BUCKETS;
    Reaches(Falling(cs, base, horizon), FallingSlow(cs, base, horizon), slowRatio)
  }

  /** So by the outcomes: over any run, a report of a completed call whose read
      misses no event still in the window opens the breaker exactly when at least
      ten completions fall in the last forty buckets, its own included, and those
      that were slow or server faults make up the ratio. */
  lemma TripsByTheShare(g: G.Timing, slowRatio: real, start: Time, run: seq<Event>, e: Event)
    requires slowRatio > 0.0 && ClockOrdered(run, start) && ClockOf(run, start) <= e.now
    requires Counts(FollowAll(g, slowRatio, start, run).s, e) && MissesNothing(FollowAll(g, slowRatio, start, run).s, e)
    ensures var s := FollowAll(g, slowRatio, start, run).s;
            Next(g, slowRatio, s, e).m.name == G.Open <==>
              ShareReached(Heard(g, slowRatio, start, run) + [Completion(e.outcome, e.now)], s.window.base, e.now, slowRatio)
  {
    var t := FollowAll(g, slowRatio, start, run);
    TripsByTheLog(g, slowRatio, start, run, e);
    FedIsHeard(g, slowRatio, start, run);
    InWindowCounts(t.s, e, t.fed, Heard(g, slowRatio, start, run), slowRatio);
  }

  lemma InWindowCounts(s: State, e: Event, fed: seq<W.Event>, cs: seq<Completion>, slowRatio: real)
    requires Counts(s, e) && Records(fed, cs) && Logs(Reported(s, e).log, fed + [W.Event(e.now, Amount(e.outcome))])
    ensures Saturated(InWindow(s, e), slowRatio) <==>
              ShareReached(cs + [Completion(e.outcome, e.now)], s.window.base, e.now, slowRatio)
  {
    var all := cs + [Completion(e.outcome, e.now)];
    var base, horizon := s.window.base, W.Ordinal(s.window.base, e.now) - W.BUCKETS;
    LogCounts(Reported(s, e).log, fed + [W.Event(e.now, Amount(e.outcome))], all, base, horizon);
    ShareOf(Falling(all, base, horizon), FallingSlow(all, base, horizon), slowRatio);
  }

  lemma ShareOf(all: nat, slow: nat, slowRatio: real)
    ensures Saturated(W.Tally(all, slow, 0), slowRatio) <==> Reaches(all, slow, slowRatio)
  {
    if all > 0 {
      var share := slow as real / all as real;
      assert share * all as real == slow as real;
      if share >= slowRatio {
        assert (share - slowRatio) * all as real >= 0.0;
      } else {
        assert (slowRatio - share) * all as real > 0.0;
      }
    }
  }

  /** Whatever the gaps, a closed breaker is only opened by a completed call's
      report, never by one the gateway cut short, and only on enough completions
      really in the last forty buckets. */
  lemma OpensOnlyOnEvidence(g: G.Timing, slowRatio: real, start: Time, run: seq<Event>, e: Event)
    requires ClockOrdered(run, start) && ClockOf(run, start) <= e.now
    requires FollowAll(g, slowRatio, start, run).s.m.name == G.Closed
    ensures var t := FollowAll(g, slowRatio, start, run);
            Next(g, slowRatio, t.s, e).m.name == G.Open ==>
              Counts(t.s, e) && InWindow(t.s, e).x >= MIN_SAMPLES
  {
    var t := FollowAll(g, slowRatio, start, run);
    if Counts(t.s, e) {
      RunKeepsInv(g, slowRatio, start, run);
      ReportedIsLogged(g, t, ClockOf(run, start), e);
      W.ReadNeverOvercounts(Reported(t.s, e), e.now, e.now);
      if InWindow(t.s, e).x < MIN_SAMPLES {
        LightTrafficNeverOpens(slowRatio, t.s, e.grant, e.outcome, e.now);
      }
    }
  }

  /** The write mark stays where the breaker opened: a recovered breaker's first
      report comes at least a cooldown after it. */
  lemma RecoveryLags(g: G.Timing, slowRatio: real, start: Time, run: seq<Event>, e: Event)
    requires ClockOrdered(run, start) && ClockOf(run, start) <= e.now
    requires var t := FollowAll(g, slowRatio, start, run);
             t.s.m.name == G.HalfOpen && Next(g, slowRatio, t.s, e).m.name == G.Closed && !e.Force?
    ensures var s := Next(g, slowRatio, FollowAll(g, slowRatio, start, run).s, e);
            && |s.window.log| == 0 && W.Sound(s.window, e.now)
            && W.LastWrite(s.window) + g.cooldown <= e.now
  {
    RunKeepsInv(g, slowRatio, start, run);
    var t := FollowAll(g, slowRatio, start, run);
    W.RunIsSound(t.from, t.fed, t.since);
  }

  // ---------------------------------------------------------------------
  // The skeleton's own guarantees
  // ---------------------------------------------------------------------

  /** An event as the shared skeleton sees it: reports with their verdict. */
  function Seen(slowRatio: real, s: State, e: Event): G.Event {
    match e
    case Call(now) => G.Event.Call(now)
    case Look(now) => G.Event.Read(now)
    case Tell(grant, outcome, now) => G.Event.Tell(grant, outcome, Trips(slowRatio, s.window, outcome, now), now)
    case Force(now) => G.Event.Force(now)
  }

  lemma SeenMovesAlike(g: G.Timing, slowRatio: real, s: State, t: G.Track, e: Event)
    requires G.Settled(s.m) && t.m == s.m
    ensures Next(g, slowRatio, s, e).m == G.Next(g, t, Seen(slowRatio, s, e)).m
    ensures Seen(slowRatio, s, e).now == e.now
  {
  }

  function Skeleton(g: G.Timing, slowRatio: real, start: Time, run: seq<Event>): seq<G.Event> {
    if |run| == 0 then []
    else
      var init := run[..|run| - 1];
      Skeleton(g, slowRatio, start, init) + [Seen(slowRatio, FollowAll(g, slowRatio, start, init).s, run[|run| - 1])]
  }

  lemma {:induction false} SkeletonFollows(g: G.Timing, slowRatio: real, start: Time, run: seq<Event>)
    requires ClockOrdered(run, start)
    ensures var seen := Skeleton(g, slowRatio, start, run);
            && FollowAll(g, slowRatio, start, run).s.m == G.NextAll(g, G.Start(), seen).m
            && |seen| == |run| && (forall i :: 0 <= i < |run| ==> seen[i].now == run[i].now)
  {
    if |run| > 0 {
      var init, e := run[..|run| - 1], run[|run| - 1];
      SkeletonFollows(g, slowRatio, start, init);
      RunKeepsInv(g, slowRatio, start, init);
      var before, all := Skeleton(g, slowRatio, start, init), Skeleton(g, slowRatio, start, run);
      assert all[..|all| - 1] == before;
      SeenMovesAlike(g, slowRatio, FollowAll(g, slowRatio, start, init).s, G.NextAll(g, G.Start(), before), e);
    }
  }

  /** So the probe discipline holds of every slow-call run: the slot is occupied
      only in half-open, an episode grants at most one probe, and admissions with no
      closed state between are a cooldown apart. */
  lemma ProbeDisciplineHolds(g: G.Timing, slowRatio: real, start: Time, run: seq<Event>)
    requires ClockOrdered(run, start)
    ensures var m := FollowAll(g, slowRatio, start, run).s.m; m.probe.Some? ==> m.name == G.HalfOpen
    ensures var t := G.NextAll(g, G.Start(), Skeleton(g, slowRatio, start, run));
            && t.episode <= 1
            && (|t.admissions| > 0 ==> t.admissions[|t.admissions| - 1] - t.admissions[0] >= (|t.admissions| - 1) * g.cooldown)
  {
    SkeletonFollows(g, slowRatio, start, run);
    G.ProbeDiscipline(g, Skeleton(g, slowRatio, start, run), start);
  }
}
