/** The first evidence after a recovery or an idle gap: the ring's mark is still
    where the breaker opened or the last completion was filed, and how far behind
    decides what the decisions miss. */
module SlowRecovery {
  import opened Basics
  import opened RollingWindow
  import opened SlowBreaker
  import G = Governor
  import SlowRuns

  // ---------------------------------------------------------------------
  // Every decision on steady evidence
  // ---------------------------------------------------------------------

  predicate Completion(a: Tally) { a.x == 1 && a.y <= 1 && a.z == 0 }

  /** Completions from t on, never more than forty buckets apart. */
  ghost predicate Steady(run: seq<Event>, t: Time) {
    && |run| > 0 && run[0].time == t && Ordered(run, t)
    && (forall i :: 0 <= i < |run| ==> Completion(run[i].amount))
    && (forall i :: 0 < i < |run| ==> run[i].time - run[i - 1].time <= BUCKETS * SPAN)
  }

  /** The last completion's report decides as the log of the last forty buckets
      says. */
  ghost predicate DecidedByLog(slowRatio: real, w: Window, run: seq<Event>)
    requires |run| > 0
  {
    var v, now := WriteAll(w, run), run[|run| - 1].time;
    Saturated(Read(v, now), slowRatio) <==> Saturated(Happened(w.base, v.log, Horizon(v, now)), slowRatio)
  }

  /** The mark stands on the bucket of the instant. */
  predicate Caught(w: Window, t: Time) { LastWrite(w) <= t < LastWrite(w) + SPAN }

  lemma WriteCatchesUp(w: Window, t: Time, amount: Tally)
    requires LastWrite(w) <= t && Lag(w, t) <= BUCKETS
    ensures Caught(Write(w, t, amount), t)
  {
  }

  lemma {:induction false} SteadyHasNoLongGap(w: Window, run: seq<Event>, t: Time)
    requires Steady(run, t) && LastWrite(w) <= t && Lag(w, t) <= BUCKETS
    ensures NoLongGap(w, run) && Caught(WriteAll(w, run), run[|run| - 1].time)
    decreases |run|
  {
    var n := |run| - 1;
    if n == 0 {
      assert run[..0] == [];
      WriteCatchesUp(w, t, run[0].amount);
    } else {
      SteadyHasNoLongGap(w, run[..n], t);
      var before := WriteAll(w, run[..n]);
      WriteCatchesUp(before, run[n].time, run[n].amount);
      NoLongGapYet(w, run);
    }
  }

  /** One slow completion at t, nine more just before it should leave the window. */
  function OneThenNine(t: Time): seq<Event> {
    [Event(t, Tally(1, 1, 0))] + seq(9, i => Event(MissedAt(t), Tally(1, 1, 0)))
  }

  lemma {:induction false} AllSlow(log: seq<Entry>, f: Filter)
    requires forall i :: 0 <= i < |log| ==> log[i].amount == Tally(1, 1, 0)
    ensures var s := Sum(log, f); s.x == s.y <= |log| && s.z == 0
    ensures (forall i :: 0 <= i < |log| ==> f.Takes(log[i])) ==> Sum(log, f).x == |log|
  {
    if |log| > 0 {
      AllSlow(log[..|log| - 1], f);
    }
  }

  lemma {:induction false} WriteAllExtends(w: Window, run: seq<Event>, i: nat)
    requires i <= |run|
    ensures |WriteAll(w, run).log| == |w.log| + |run|
    ensures WriteAll(w, run[..i]).log == WriteAll(w, run).log[..|w.log| + i]
    decreases |run|
  {
    if i < |run| {
      WriteAllExtends(w, run[..|run| - 1], i);
      assert run[..|run| - 1][..i] == run[..i];
    } else {
      assert run[..i] == run;
      if i > 0 {
        WriteAllExtends(w, run[..i - 1], i - 1);
      }
    }
  }

  lemma OneThenNineIsSteady(t: Time)
    ensures Steady(OneThenNine(t), t) && |OneThenNine(t)| == 10 && OneThenNine(t)[9].time == MissedAt(t)
    ensures forall i :: 0 <= i < 10 ==> OneThenNine(t)[i].amount == Tally(1, 1, 0)
  {
  }

  /** What the ring holds after slow completions that start too late: the first
      of them filed short, and nothing of the log before them in their way. */
  ghost predicate FirstShort(w: Window, v: Window, t: Time, n: nat) {
    && v.base == w.base && |v.log| == |w.log| + n && n > 0
    && v.log[..|w.log|] == w.log
    && (forall i :: |w.log| <= i < |v.log| ==> v.log[i].amount == Tally(1, 1, 0) && t <= v.log[i].time)
    && v.log[|w.log|].slot == w.mark + BUCKETS
  }

  lemma ShortOnRecord(w: Window, clock: Time, run: seq<Event>)
    requires Sound(w, clock) && |run| > 0 && Ordered(run, run[0].time) && clock <= run[0].time
    requires Lag(w, run[0].time) > BUCKETS && forall i :: 0 <= i < |run| ==> run[i].amount == Tally(1, 1, 0)
    ensures Sound(WriteAll(w, run), run[|run| - 1].time) && FirstShort(w, WriteAll(w, run), run[0].time, |run|)
  {
    var v := WriteAll(w, run);
    RunIsSound(w, run, clock);
    WriteAllExtends(w, run, 0);
    WriteAllExtends(w, run, 1);
    WriteAllOneMore(w, run, 0);
    assert run[..0] == [] && v.log[..|w.log|] == w.log;
    assert v.log[|w.log|] == v.log[..|w.log| + 1][|w.log|];
    forall i | |w.log| <= i < |v.log| ensures v.log[i].amount == Tally(1, 1, 0) && run[0].time <= v.log[i].time {
      assert run[i - |w.log|].time == v.log[|w.log| + (i - |w.log|)].time;
    }
  }

  /** The window at the tenth starts with the first one's bucket. */
  lemma WindowAtTheTenth(w: Window, v: Window, t: Time)
    requires LastWrite(w) <= t && v.base == w.base
    ensures Horizon(v, MissedAt(t)) == w.mark + Lag(w, t) - 1 == Ordinal(v.base, t) - 1
  {
    OrdinalOfLag(w, t);
    OrdinalLater(w.base, t, BUCKETS - 1);
  }

  lemma OrdinalMonotone(base: Time, a: Time, b: Time)
    requires a <= b
    ensures Ordinal(base, a) <= Ordinal(base, b)
  {
  }

  /** Ten slow completions of which one is filed short read as fewer than ten. */
  lemma OneShortOfTen(v: Window, now: Time, n: nat)
    requires Sound(v, now) && |v.log| == n + 10
    requires forall i :: 0 <= i < n ==> Ordinal(v.base, v.log[i].time) <= Horizon(v, now)
    requires forall i :: n <= i < n + 10 ==> v.log[i].amount == Tally(1, 1, 0) && Ordinal(v.base, v.log[i].time) > Horizon(v, now)
    requires v.log[n].slot <= Horizon(v, now)
    ensures Happened(v.base, v.log, Horizon(v, now)) == Tally(10, 10, 0)
    ensures Read(v, now).x < 10
  {
    var p, q := Filed(Horizon(v, now) + 1, v.mark + 1), After(v.base, Horizon(v, now));
    assert Misfiled(v, now, v.log[n]);
    MisfiledBreaksRead(v, now, now, n);
    ReadCountsSlots(v, now, now);
    SumFromFirstTaken(v.log, n, p);
    SumFromFirstTaken(v.log, n, q);
    AllSlow(v.log[n..], p);
    AllSlow(v.log[n..], q);
  }

  /** Starting one bucket too late, the first completion is missed by the tenth's
      report, so ten slow calls in ten seconds do not open the breaker. */
  lemma TenthMissesFirst(slowRatio: real, w: Window, clock: Time, t: Time)
    requires 0.0 < slowRatio <= 1.0
    requires Sound(w, clock) && FiledTruly(w) && clock <= t && Lag(w, t) > BUCKETS
    ensures !DecidedByLog(slowRatio, w, OneThenNine(t))
  {
    var v, now := WriteAll(w, OneThenNine(t)), MissedAt(t);
    OneThenNineIsSteady(t);
    ShortOnRecord(w, clock, OneThenNine(t));
    WindowAtTheTenth(w, v, t);
    forall i | |w.log| <= i < |w.log| + 10 ensures Ordinal(v.base, v.log[i].time) > Horizon(v, now) {
      OrdinalMonotone(v.base, t, v.log[i].time);
    }
    forall i | 0 <= i < |w.log| ensures Ordinal(v.base, v.log[i].time) <= Horizon(v, now) {
      assert v.log[i] == v.log[..|w.log|][i] && w.log[i] in w.log;
    }
    OneShortOfTen(v, now, |w.log|);
    AllOfThem(10, slowRatio);
  }

  lemma SteadyDecides(slowRatio: real, w: Window, clock: Time, run: seq<Event>)
    requires Sound(w, clock) && FiledTruly(w) && |run| > 0 && clock <= run[0].time
    requires Steady(run, run[0].time) && Lag(w, run[0].time) <= BUCKETS
    ensures DecidedByLog(slowRatio, w, run)
  {
    SteadyHasNoLongGap(w, run, run[0].time);
    RingRefinesLog(w, run, clock, run[|run| - 1].time);
  }

  /** From a ring filed truly, every decision on steady evidence agrees with the
      log of the calls exactly when the first of it comes less than forty-one
      buckets after the write mark: a recovery leaves the mark where the breaker
      opened, an idle gap where the last completion before it was filed. */
  lemma EvidenceDecidesIff(slowRatio: real, w: Window, clock: Time, t: Time)
    requires 0.0 < slowRatio <= 1.0
    requires Sound(w, clock) && FiledTruly(w) && clock <= t
    ensures (forall run :: Steady(run, t) ==> DecidedByLog(slowRatio, w, run)) <==> t - LastWrite(w) < (BUCKETS + 1) * SPAN
  {
    if t - LastWrite(w) < (BUCKETS + 1) * SPAN {
      forall run | Steady(run, t) ensures DecidedByLog(slowRatio, w, run) {
        SteadyDecides(slowRatio, w, clock, run);
      }
    } else {
      OneThenNineIsSteady(t);
      TenthMissesFirst(slowRatio, w, clock, t);
    }
  }

  /** The decisions on steady evidence from any completion of a run on. */
  ghost predicate AlwaysDecided(slowRatio: real, w: Window, run: seq<Event>) {
    forall i, more :: 0 <= i < |run| && Steady(more, run[i].time) ==> DecidedByLog(slowRatio, WriteAll(w, run[..i]), more)
  }

  /** So over a run of completions with any gaps, every such decision agrees with
      the log exactly when none of them comes more than forty whole buckets after
      the mark. */
  lemma AlwaysDecidedIffNoLongGap(slowRatio: real, w: Window, clock: Time, run: seq<Event>)
    requires 0.0 < slowRatio <= 1.0
    requires Sound(w, clock) && FiledTruly(w) && Ordered(run, clock)
    ensures AlwaysDecided(slowRatio, w, run) <==> NoLongGap(w, run)
  {
    if NoLongGap(w, run) {
      forall i, more | 0 <= i < |run| && Steady(more, run[i].time) ensures DecidedByLog(slowRatio, WriteAll(w, run[..i]), more) {
        TrueSoFar(w, clock, run, i);
        SteadyDecides(slowRatio, WriteAll(w, run[..i]), Clock(run[..i], clock), more);
      }
    } else {
      var i := FirstLongGap(w, run);
      PrefixIsOrdered(run, clock, i);
      TrueSoFar(w, clock, run[..i], i);
      assert run[..i][..i] == run[..i];
      OneThenNineIsSteady(run[i].time);
      TenthMissesFirst(slowRatio, WriteAll(w, run[..i]), Clock(run[..i], clock), run[i].time);
    }
  }

  lemma TrueSoFar(w: Window, clock: Time, run: seq<Event>, i: nat)
    requires Sound(w, clock) && FiledTruly(w) && Ordered(run, clock) && NoLongGap(w, run) && i <= |run|
    ensures Sound(WriteAll(w, run[..i]), Clock(run[..i], clock)) && FiledTruly(WriteAll(w, run[..i]))
  {
    PrefixIsOrdered(run, clock, i);
    PrefixHasNoLongGap(w, run, i);
    RunFilesTruly(w, run[..i], clock);
    RunIsSound(w, run[..i], clock);
  }

  lemma {:induction false} FirstLongGap(w: Window, run: seq<Event>) returns (i: nat)
    requires !NoLongGap(w, run)
    ensures i < |run| && NoLongGap(w, run[..i]) && Lag(WriteAll(w, run[..i]), run[i].time) > BUCKETS
    decreases |run|
  {
    var init := run[..|run| - 1];
    if NoLongGap(w, init) {
      NoLongGapYetUnless(w, run);
      i := |run| - 1;
    } else {
      i := FirstLongGap(w, init);
      assert init[..i] == run[..i];
    }
  }

  lemma NoLongGapYetUnless(w: Window, run: seq<Event>)
    requires |run| > 0 && NoLongGap(w, run[..|run| - 1]) && !NoLongGap(w, run)
    ensures Lag(WriteAll(w, run[..|run| - 1]), run[|run| - 1].time) > BUCKETS
  {
    if Lag(WriteAll(w, run[..|run| - 1]), run[|run| - 1].time) <= BUCKETS {
      NoLongGapYet(w, run);
    }
  }

  /** The same over any run of the breaker, from the completions it has counted
      since its evidence was last emptied. */
  lemma RunDecidesIff(g: G.Timing, slowRatio: real, start: Time, run: seq<SlowRuns.Event>, t: Time)
    requires 0.0 < slowRatio <= 1.0 && SlowRuns.ClockOrdered(run, start) && SlowRuns.ClockOf(run, start) <= t
    requires var h := SlowRuns.FollowAll(g, slowRatio, start, run); NoLongGap(h.from, h.fed)
    ensures var w := SlowRuns.FollowAll(g, slowRatio, start, run).s.window;
            (forall more :: Steady(more, t) ==> DecidedByLog(slowRatio, w, more)) <==> t - LastWrite(w) < (BUCKETS + 1) * SPAN
  {
    var h := SlowRuns.FollowAll(g, slowRatio, start, run);
    SlowRuns.RunKeepsInv(g, slowRatio, start, run);
    RunFilesTruly(h.from, h.fed, h.since);
    RunIsSound(h.from, h.fed, h.since);
    EvidenceDecidesIff(slowRatio, h.s.window, t, t);
  }

  // ---------------------------------------------------------------------
  // A burst after a gap
  // ---------------------------------------------------------------------

  /** n slow completions at one instant. */
  function Burst(w: Window, now: Time, n: nat): Window
    decreases n
  {
    if n == 0 then w else Write(Burst(w, now, n - 1), now, Tally(1, 1, 0))
  }

  /** How many of them the ring files out of its own reach. */
  function Lost(lag: nat): nat {
    if lag < 2 * BUCKETS then 0 else lag / BUCKETS - 1
  }

  /** What they are filed as: the mark makes up at most forty buckets a write. */
  function BurstLog(mark: nat, lag: nat, now: Time, n: nat): seq<Entry>
    decreases n
  {
    if n == 0 then [] else BurstLog(mark, lag, now, n - 1) + [Entry(now, mark + Min(BUCKETS * n, lag), Tally(1, 1, 0))]
  }

  lemma {:induction false} BurstShape(w: Window, now: Time, n: nat)
    requires LastWrite(w) <= now
    ensures var v, lag := Burst(w, now, n), Lag(w, now);
            && v == Window(w.base, w.mark + Min(BUCKETS * n, lag), w.log + BurstLog(w.mark, Lag(w, now), now, n))
            && LastWrite(v) <= now && Lag(v, now) == lag - Min(BUCKETS * n, lag)
    decreases n
  {
    if n > 0 {
      BurstShape(w, now, n - 1);
      assert w.log + BurstLog(w.mark, Lag(w, now), now, n) ==
             (w.log + BurstLog(w.mark, Lag(w, now), now, n - 1)) + [Entry(now, w.mark + Min(BUCKETS * n, Lag(w, now)), Tally(1, 1, 0))];
    } else {
      assert w.log + [] == w.log;
    }
  }

  /** The others. */
  function Reached(lag: nat, n: nat): nat { n - Min(n, Lost(lag)) }

  lemma ReachedStep(lag: nat, n: nat)
    requires n > 0
    ensures Reached(lag, n) == Reached(lag, n - 1) + if Min(BUCKETS * n, lag) >= lag - BUCKETS + 1 then 1 else 0
  {
  }

  lemma ReachedTen(lag: nat, n: nat)
    ensures Reached(lag, n) >= MIN_SAMPLES <==> n >= MIN_SAMPLES + Lost(lag)
  {
  }

  /** Nothing on record is within a read's reach at now. */
  ghost predicate Unread(w: Window, now: Time) {
    LastWrite(w) <= now && forall e :: e in w.log ==> e.slot <= w.mark && e.slot <= w.mark + Lag(w, now) - BUCKETS
  }

  /** Nothing on record happened in the last forty buckets: the window was
      emptied, or has been idle since. */
  ghost predicate Idle(w: Window, now: Time) {
    Sound(w, now) && forall e :: e in w.log ==> !After(w.base, Horizon(w, now)).Takes(e)
  }

  lemma IdleIsUnread(w: Window, now: Time)
    requires Idle(w, now)
    ensures Unread(w, now)
  {
    OrdinalOfLag(w, now);
  }

  /** An entry of the burst itself. */
  predicate OfBurst(e: Entry, now: Time, hi: int) { e.slot <= hi && e.time == now && e.amount == Tally(1, 1, 0) }

  lemma {:induction false} BurstEntries(mark: nat, lag: nat, now: Time, n: nat)
    ensures |BurstLog(mark, lag, now, n)| == n
    ensures forall e :: e in BurstLog(mark, lag, now, n) ==> OfBurst(e, now, mark + Min(BUCKETS * n, lag))
    decreases n
  {
    if n > 0 {
      BurstEntries(mark, lag, now, n - 1);
      forall e | e in BurstLog(mark, lag, now, n) ensures OfBurst(e, now, mark + Min(BUCKETS * n, lag)) {
        if e in BurstLog(mark, lag, now, n - 1) {
          assert OfBurst(e, now, mark + Min(BUCKETS * (n - 1), lag));
        }
      }
    }
  }

  lemma {:induction false} BurstSum(mark: nat, lag: nat, now: Time, n: nat)
    ensures var k := Reached(lag, n);
            Sum(BurstLog(mark, lag, now, n), Filed(mark + lag - BUCKETS + 1, mark + lag + 1)) == Tally(k, k, 0)
    decreases n
  {
    if n > 0 {
      BurstSum(mark, lag, now, n - 1);
      ReachedStep(lag, n);
      SumAppend(BurstLog(mark, lag, now, n - 1), Entry(now, mark + Min(BUCKETS * n, lag), Tally(1, 1, 0)),
                Filed(mark + lag - BUCKETS + 1, mark + lag + 1));
    }
  }

  /** What is on record already falls outside either count. */
  lemma SumOfBurst(w: Window, now: Time, n: nat, f: Filter)
    requires forall e :: e in w.log ==> !f.Takes(e)
    ensures Sum(w.log + BurstLog(w.mark, Lag(w, now), now, n), f) == Sum(BurstLog(w.mark, Lag(w, now), now, n), f)
  {
    var log := w.log + BurstLog(w.mark, Lag(w, now), now, n);
    forall i | 0 <= i < |w.log| ensures !f.Takes(log[i]) {
      assert log[i] == w.log[i];
    }
    SumFromFirstTaken(log, |w.log|, f);
    assert log[|w.log|..] == BurstLog(w.mark, Lag(w, now), now, n);
  }

  lemma BurstRead(w: Window, now: Time, n: nat)
    requires Unread(w, now)
    ensures var k := Reached(Lag(w, now), n); Read(Burst(w, now, n), now) == Tally(k, k, 0)
  {
    BurstReadsUpTo(w, now, n);
    SumOfBurst(w, now, n, Reach(w, now));
    BurstSum(w.mark, Lag(w, now), now, n);
  }

  /** The slots a read at now counts. */
  function Reach(w: Window, now: Time): Filter { Filed(w.mark + Lag(w, now) - BUCKETS + 1, w.mark + Lag(w, now) + 1) }

  lemma BurstReadsUpTo(w: Window, now: Time, n: nat)
    requires Unread(w, now)
    ensures Read(Burst(w, now, n), now) == Sum(w.log + BurstLog(w.mark, Lag(w, now), now, n), Reach(w, now))
  {
    BurstShape(w, now, n);
    BurstReach(w, now, n);
    ReadsUpTo(Burst(w, now, n), now, w.mark + Lag(w, now) + 1);
  }

  lemma BurstReach(w: Window, now: Time, n: nat)
    requires Unread(w, now)
    ensures forall e :: e in w.log + BurstLog(w.mark, Lag(w, now), now, n) ==> e.slot <= w.mark + Min(BUCKETS * n, Lag(w, now))
  {
    BurstEntries(w.mark, Lag(w, now), now, n);
    forall e | e in w.log + BurstLog(w.mark, Lag(w, now), now, n) ensures e.slot <= w.mark + Min(BUCKETS * n, Lag(w, now)) {
      assert e in w.log || OfBurst(e, now, w.mark + Min(BUCKETS * n, Lag(w, now)));
    }
  }

  lemma ReadsUpTo(v: Window, now: Time, hi: int)
    requires v.mark < hi && forall e :: e in v.log ==> e.slot <= v.mark
    ensures Read(v, now) == Sum(v.log, Filed(v.mark + Lag(v, now) - BUCKETS + 1, hi))
  {
    var lo := v.mark + Lag(v, now) - BUCKETS + 1;
    SlotsAreEntries(v.log, lo, v.mark + 1);
    SumEqual(v.log, Filed(lo, v.mark + 1), Filed(lo, hi));
  }

  function AfterBurst(slowRatio: real, s: State, now: Time, n: nat): State
    decreases n
  {
    if n == 0 then s else Fed(slowRatio, AfterBurst(slowRatio, s, now, n - 1), None, G.Slow, now)
  }

  /** What such a burst comes to: ten left after those the ring loses to the gap,
      one per forty buckets of it from the second on, open the breaker. */
  function BurstOutcome(s: State, now: Time, n: nat): State {
    var enough := MIN_SAMPLES + Lost(Lag(s.window, now));
    if n < enough then State(s.m, Burst(s.window, now, n))
    else State(G.Enter(s.m, G.Open, now), Burst(s.window, now, enough))
  }

  /** From closed, with nothing on record that a read still counts. */
  lemma {:induction false} BurstOpensIff(slowRatio: real, s: State, now: Time, n: nat)
    requires 0.0 < slowRatio <= 1.0
    requires s.m.name == G.Closed && Unread(s.window, now)
    ensures AfterBurst(slowRatio, s, now, n) == BurstOutcome(s, now, n)
    decreases n
  {
    if n > 0 {
      BurstOpensIff(slowRatio, s, now, n - 1);
      BurstStep(slowRatio, s, now, n);
    }
  }

  lemma BurstStep(slowRatio: real, s: State, now: Time, n: nat)
    requires 0.0 < slowRatio <= 1.0 && n > 0
    requires s.m.name == G.Closed && Unread(s.window, now)
    ensures Fed(slowRatio, BurstOutcome(s, now, n - 1), None, G.Slow, now) == BurstOutcome(s, now, n)
  {
    if n - 1 < MIN_SAMPLES + Lost(Lag(s.window, now)) {
      OneMoreSlow(slowRatio, s, now, n);
    }
  }

  lemma OneMoreSlow(slowRatio: real, s: State, now: Time, n: nat)
    requires 0.0 < slowRatio <= 1.0 && n > 0
    requires s.m.name == G.Closed && Unread(s.window, now)
    ensures var v := Burst(s.window, now, n);
            Fed(slowRatio, State(s.m, Burst(s.window, now, n - 1)), None, G.Slow, now) ==
            State(if n >= MIN_SAMPLES + Lost(Lag(s.window, now)) then G.Enter(s.m, G.Open, now) else s.m, v)
  {
    BurstRead(s.window, now, n);
    AllOfThem(Reached(Lag(s.window, now), n), slowRatio);
    ReachedTen(Lag(s.window, now), n);
  }

  lemma AllOfThem(k: nat, slowRatio: real)
    requires 0.0 < slowRatio <= 1.0
    ensures Saturated(Tally(k, k, 0), slowRatio) <==> k >= MIN_SAMPLES
  {
  }

  lemma BurstHappened(w: Window, v: Window, now: Time, n: nat)
    requires Idle(w, now) && v.base == w.base && v.log == w.log + BurstLog(w.mark, Lag(w, now), now, n)
    ensures Happened(v.base, v.log, Horizon(v, now)) == Tally(n, n, 0)
  {
    var recent, all := BurstLog(w.mark, Lag(w, now), now, n), After(w.base, Horizon(w, now));
    SumOfBurst(w, now, n, all);
    BurstIsRecent(w, now, n);
    AllSlow(recent, all);
  }

  lemma BurstIsRecent(w: Window, now: Time, n: nat)
    ensures var log := BurstLog(w.mark, Lag(w, now), now, n);
            |log| == n && forall i :: 0 <= i < n ==> log[i].amount == Tally(1, 1, 0) && After(w.base, Horizon(w, now)).Takes(log[i])
  {
    BurstEntries(w.mark, Lag(w, now), now, n);
    var log := BurstLog(w.mark, Lag(w, now), now, n);
    forall i | 0 <= i < n ensures log[i].amount == Tally(1, 1, 0) && log[i].time == now {
      assert log[i] in log && OfBurst(log[i], now, w.mark + Min(BUCKETS * n, Lag(w, now)));
    }
  }

  /** A mark twenty seconds behind costs the first ten slow completions: the
      breaker stays closed, although the log of the last ten seconds is ten slow
      out of ten. A closed breaker that idles gets there as a recovered one does. */
  lemma LaggingMarkMissesTheFirstTen(slowRatio: real, s: State, now: Time)
    requires 0.0 < slowRatio <= 1.0
    requires s.m.name == G.Closed && Idle(s.window, now) && now - LastWrite(s.window) >= 2 * BUCKETS * SPAN
    ensures var t := AfterBurst(slowRatio, s, now, MIN_SAMPLES);
            t.m.name == G.Closed && Saturated(Happened(t.window.base, t.window.log, Horizon(t.window, now)), slowRatio)
  {
    assert Lag(s.window, now) >= 2 * BUCKETS;
    IdleIsUnread(s.window, now);
    BurstOpensIff(slowRatio, s, now, MIN_SAMPLES);
    BurstShape(s.window, now, MIN_SAMPLES);
    BurstHappened(s.window, Burst(s.window, now, MIN_SAMPLES), now, MIN_SAMPLES);
    AllOfThem(MIN_SAMPLES, slowRatio);
  }

  lemma FirstCompletionPasses(slowRatio: real, s: State, outcome: G.Outcome, now: Time)
    requires s.m.name == G.Closed && |s.window.log| == 0 && LastWrite(s.window) <= now && outcome != G.GatewayTerminated
    ensures Fed(slowRatio, s, None, outcome, now) == State(s.m, Write(s.window, now, Amount(outcome)))
  {
    var v := Write(s.window, now, Amount(outcome));
    WriteKeepsSound(s.window, now, now, Amount(outcome));
    ReadCountsSlots(v, now, now);
    assert v.log == [v.log[0]] && v.log[..0] == [];
    LightTrafficNeverOpens(slowRatio, s, None, outcome, now);
  }

  /** For instance after one fast completion and thirty idle seconds. */
  lemma IdleGapMissesTheFirstTen(slowRatio: real, first: Time, now: Time)
    requires 0.0 < slowRatio <= 1.0 && now == first + 30_000_000_000
    ensures var s := SlowRuns.Opened(first).s;
            var fast := Fed(slowRatio, s, None, G.Success, first);
            var t := AfterBurst(slowRatio, fast, now, MIN_SAMPLES);
            && fast.m.name == G.Closed && |fast.window.log| == 1
            && t.m.name == G.Closed && Saturated(Happened(t.window.base, t.window.log, Horizon(t.window, now)), slowRatio)
  {
    var s := SlowRuns.Opened(first).s;
    FirstCompletionPasses(slowRatio, s, G.Success, first);
    var w := Write(s.window, first, Tally(1, 0, 0));
    assert w.log == [Entry(first, 0, Tally(1, 0, 0))];
    LaggingMarkMissesTheFirstTen(slowRatio, State(s.m, w), now);
  }

  /** With a cooldown of twenty seconds or more, and the default is thirty, the
      first ten slow completions after any recovery of any run leave the breaker
      closed, although the log of the last ten seconds is ten slow out of ten. */
  lemma RecoveryMissesTheFirstTen(g: G.Timing, slowRatio: real, start: Time, run: seq<SlowRuns.Event>, e: SlowRuns.Event, now: Time)
    requires 0.0 < slowRatio <= 1.0 && g.cooldown >= 2 * BUCKETS * SPAN
    requires SlowRuns.ClockOrdered(run, start) && SlowRuns.ClockOf(run, start) <= e.now <= now && !e.Force?
    requires var s := SlowRuns.FollowAll(g, slowRatio, start, run).s;
             s.m.name == G.HalfOpen && SlowRuns.Next(g, slowRatio, s, e).m.name == G.Closed
    ensures var s := SlowRuns.Next(g, slowRatio, SlowRuns.FollowAll(g, slowRatio, start, run).s, e);
            var v := AfterBurst(slowRatio, s, now, MIN_SAMPLES).window;
            && AfterBurst(slowRatio, s, now, MIN_SAMPLES).m.name == G.Closed
            && Saturated(Happened(v.base, v.log, Horizon(v, now)), slowRatio)
  {
    SlowRuns.RecoveryLags(g, slowRatio, start, run, e);
    LaggingMarkMissesTheFirstTen(slowRatio, SlowRuns.Next(g, slowRatio, SlowRuns.FollowAll(g, slowRatio, start, run).s, e), now);
  }

  /** A breaker opened by ten slow completions at instant 0 and recovered after
      the default thirty seconds needs twelve to open again. */
  lemma DefaultCooldownNeedsTwelve(slowRatio: real, probeTimeout: Time, first: nat, n: nat)
    requires 0.0 < slowRatio <= 1.0 && probeTimeout >= 0 && first == MIN_SAMPLES
    ensures var g, later := G.Timing(30_000_000_000, probeTimeout), 30_000_000_000;
            var tripped := AfterBurst(slowRatio, SlowRuns.Opened(0).s, 0, first);
            var probing := SlowRuns.Next(g, slowRatio, tripped, SlowRuns.Call(later));
            var closed := SlowRuns.Next(g, slowRatio, probing, SlowRuns.Tell(probing.m.probe, G.Success, later));
            && tripped.m.name == G.Open && probing.m.name == G.HalfOpen && closed.m.name == G.Closed
            && (AfterBurst(slowRatio, closed, later, n).m.name == G.Closed <==> n < 12)
  {
    var s := SlowRuns.Opened(0).s;
    BurstOpensIff(slowRatio, s, 0, first);
    BurstShape(s.window, 0, first);
    ReopensAt(slowRatio, AfterBurst(slowRatio, s, 0, first), probeTimeout, n);
  }

  /** The same from any breaker opened, and last written, at instant 0. */
  lemma ReopensAt(slowRatio: real, s: State, probeTimeout: Time, n: nat)
    requires 0.0 < slowRatio <= 1.0 && probeTimeout >= 0
    requires s.m.name == G.Open && s.m.openedAt == 0 && LastWrite(s.window) == 0
    ensures var g, later := G.Timing(30_000_000_000, probeTimeout), 30_000_000_000;
            var probing := SlowRuns.Next(g, slowRatio, s, SlowRuns.Call(later));
            var closed := SlowRuns.Next(g, slowRatio, probing, SlowRuns.Tell(probing.m.probe, G.Success, later));
            && probing.m.name == G.HalfOpen && closed.m.name == G.Closed
            && (AfterBurst(slowRatio, closed, later, n).m.name == G.Closed <==> n < 12)
  {
    var g, later := G.Timing(30_000_000_000, probeTimeout), 30_000_000_000;
    var probing := SlowRuns.Next(g, slowRatio, s, SlowRuns.Call(later));
    var closed := SlowRuns.Next(g, slowRatio, probing, SlowRuns.Tell(probing.m.probe, G.Success, later));
    assert Lag(closed.window, later) == 120;
    BurstOpensIff(slowRatio, closed, later, n);
  }
}
