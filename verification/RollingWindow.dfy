/** The forty-bucket ring both window strategies roll, and the time-stamped
    event log it stands in for. A bucket adds up tallies: success, failure and
    drop for the ratio strategy; total and slow for the slow-call one. */
module RollingWindow {
  import opened Basics

  const BUCKETS := 40
  const SPAN := 250_000_000

  datatype Tally = Tally(x: nat, y: nat, z: nat) {
    predicate Adds(a: Tally, b: Tally) { x == a.x + b.x && y == a.y + b.y && z == a.z + b.z }
    predicate AtMost(t: Tally) { x <= t.x && y <= t.y && z <= t.z }
  }

  /** One write: when it happened, which bucket ordinal received it. */
  datatype Entry = Entry(time: Time, slot: int, amount: Tally)

  /** The ring as a log: bucket ordinals count from the bucket starting at base,
      mark is the ordinal the cursor stands on. */
  datatype Window = Window(base: Time, mark: nat, log: seq<Entry>)

  // ---------------------------------------------------------------------
  // Counting a log
  // ---------------------------------------------------------------------

  /** Which entries to count: those filed in a range of ordinals, or those that
      happened above an ordinal. */
  datatype Filter = Filed(lo: int, hi: int) | After(base: Time, horizon: int) {
    predicate Takes(e: Entry) {
      match this
      case Filed(lo, hi) => lo <= e.slot < hi
      case After(base, horizon) => Ordinal(base, e.time) > horizon
    }
  }

  function Sum(log: seq<Entry>, f: Filter): Tally {
    if |log| == 0 then Tally(0, 0, 0)
    else
      var e, rest := log[|log| - 1], Sum(log[..|log| - 1], f);
      if f.Takes(e) then Tally(rest.x + e.amount.x, rest.y + e.amount.y, rest.z + e.amount.z) else rest
  }

  /** What the ring has put into one ordinal. */
  function InSlot(log: seq<Entry>, j: int): Tally {
    Sum(log, Filed(j, j + 1))
  }

  function SlotsFrom(log: seq<Entry>, lo: int, hi: int): Tally
    decreases hi - lo
  {
    if lo >= hi then Tally(0, 0, 0)
    else
      var rest, last := SlotsFrom(log, lo, hi - 1), InSlot(log, hi - 1);
      Tally(rest.x + last.x, rest.y + last.y, rest.z + last.z)
  }

  /** The bucket an instant belongs to. */
  function Ordinal(base: Time, t: Time): int { (t - base) / SPAN }

  /** Reference: what the log holds at ordinals above lo, by the instants the
      events really happened at. */
  function Happened(base: Time, log: seq<Entry>, lo: int): Tally {
    Sum(log, After(base, lo))
  }

  lemma {:induction false} SlotsFromEmpty(lo: int, hi: int)
    ensures SlotsFrom([], lo, hi) == Tally(0, 0, 0)
    decreases hi - lo
  {
    if lo < hi {
      SlotsFromEmpty(lo, hi - 1);
    }
  }

  /** The last entry adds its amount to its own ordinal. */
  lemma {:induction false} SlotsFromLast(log: seq<Entry>, lo: int, hi: int)
    requires |log| > 0
    ensures var e, rest := log[|log| - 1], SlotsFrom(log[..|log| - 1], lo, hi);
            if lo <= e.slot < hi then SlotsFrom(log, lo, hi).Adds(rest, e.amount) else SlotsFrom(log, lo, hi) == rest
    decreases hi - lo
  {
    if lo < hi {
      SlotsFromLast(log, lo, hi - 1);
    }
  }

  /** Adding up ordinals one by one is adding up the entries they received. */
  lemma {:induction false} SlotsAreEntries(log: seq<Entry>, lo: int, hi: int)
    ensures SlotsFrom(log, lo, hi) == Sum(log, Filed(lo, hi))
  {
    if |log| == 0 {
      SlotsFromEmpty(lo, hi);
    } else {
      SlotsAreEntries(log[..|log| - 1], lo, hi);
      SlotsFromLast(log, lo, hi);
    }
  }

  lemma SumAppend(log: seq<Entry>, e: Entry, f: Filter)
    ensures if f.Takes(e) then Sum(log + [e], f).Adds(Sum(log, f), e.amount) else Sum(log + [e], f) == Sum(log, f)
  {
    assert (log + [e])[..|log|] == log;
  }

  lemma {:induction false} SumNothing(log: seq<Entry>, p: Filter)
    requires forall e :: e in log ==> !p.Takes(e)
    ensures Sum(log, p) == Tally(0, 0, 0)
  {
    if |log| > 0 { SumNothing(log[..|log| - 1], p); }
  }

  /** Entries at the front that a filter leaves out do not count. */
  lemma {:induction false} SumFromFirstTaken(log: seq<Entry>, n: nat, f: Filter)
    requires n <= |log| && forall i :: 0 <= i < n ==> !f.Takes(log[i])
    ensures Sum(log, f) == Sum(log[n..], f)
    decreases |log|
  {
    if |log| == n {
      SumNothing(log, f);
    } else {
      var init := log[..|log| - 1];
      SumFromFirstTaken(init, n, f);
      assert log[n..][..|log[n..]| - 1] == init[n..];
    }
  }

  lemma {:induction false} SumMonotone(log: seq<Entry>, p: Filter, q: Filter)
    requires forall e :: e in log && p.Takes(e) ==> q.Takes(e)
    ensures Sum(log, p).AtMost(Sum(log, q))
  {
    if |log| > 0 {
      SumMonotone(log[..|log| - 1], p, q);
    }
  }

  lemma {:induction false} SumMisses(log: seq<Entry>, p: Filter, q: Filter, i: nat)
    requires forall e :: e in log && p.Takes(e) ==> q.Takes(e)
    requires i < |log| && q.Takes(log[i]) && !p.Takes(log[i]) && log[i].amount != Tally(0, 0, 0)
    ensures Sum(log, p) != Sum(log, q)
  {
    var init := log[..|log| - 1];
    SumMonotone(init, p, q);
    if i < |log| - 1 {
      assert init[i] == log[i];
      SumMisses(init, p, q, i);
    }
  }

  // ---------------------------------------------------------------------
  // Writing and reading
  // ---------------------------------------------------------------------

  function LastWrite(w: Window): Time { w.base + w.mark * SPAN }

  /** Whole buckets between the write mark and an instant. */
  function Lag(w: Window, now: Time): nat {
    if now <= LastWrite(w) then 0 else (now - LastWrite(w)) / SPAN
  }

  function Write(w: Window, now: Time, amount: Tally): Window {
    var mark := w.mark + Min(Lag(w, now), BUCKETS);
    Window(w.base, mark, w.log + [Entry(now, mark, amount)])
  }

  /** What a read at now adds up: the ordinals of the last forty buckets that
      the cursor has not passed. */
  function Read(w: Window, now: Time): Tally {
    SlotsFrom(w.log, w.mark + Lag(w, now) - BUCKETS + 1, w.mark + 1)
  }

  /** Everything emptied in place, the cursor left where it is. */
  function Cleared(w: Window): Window { Window(w.base, w.mark, []) }

  /** Emptied and the write mark moved to now. */
  function Restarted(w: Window, now: Time): Window { Window(now - w.mark * SPAN, w.mark, []) }

  /** The last ordinal before the forty buckets ending now. */
  function Horizon(w: Window, now: Time): int { Ordinal(w.base, now) - BUCKETS }

  ghost predicate Sound(w: Window, clock: Time) {
    && LastWrite(w) <= clock
    && forall e :: e in w.log ==>
         e.time <= clock && e.slot <= w.mark && e.slot <= Ordinal(w.base, e.time)
  }

  lemma OrdinalOfLag(w: Window, now: Time)
    requires LastWrite(w) <= now
    ensures Ordinal(w.base, now) == w.mark + Lag(w, now)
  {
    assert now - w.base == (now - LastWrite(w)) + w.mark * SPAN;
    assert (now - w.base) / SPAN == (now - LastWrite(w)) / SPAN + w.mark;
  }

  lemma WriteKeepsSound(w: Window, clock: Time, now: Time, amount: Tally)
    requires Sound(w, clock) && clock <= now
    ensures Sound(Write(w, now, amount), now)
  {
    OrdinalOfLag(w, now);
  }

  /** A read is the sum of the entries whose slot is recent enough. */
  lemma ReadCountsSlots(w: Window, clock: Time, now: Time)
    requires Sound(w, clock) && clock <= now
    ensures Read(w, now) == Sum(w.log, Filed(Horizon(w, now) + 1, w.mark + 1))
  {
    OrdinalOfLag(w, now);
    SlotsAreEntries(w.log, Horizon(w, now) + 1, w.mark + 1);
  }

  /** Whatever the gaps, a read counts no event from outside the window and no
      event twice: every counted entry happened inside it, and the totals never
      exceed the log's. */
  lemma ReadNeverOvercounts(w: Window, clock: Time, now: Time)
    requires Sound(w, clock) && clock <= now
    ensures forall e :: e in w.log && e.slot > Horizon(w, now) ==> Ordinal(w.base, e.time) > Horizon(w, now)
    ensures Read(w, now).AtMost(Happened(w.base, w.log, Horizon(w, now)))
  {
    ReadCountsSlots(w, clock, now);
    SumMonotone(w.log, Filed(Horizon(w, now) + 1, w.mark + 1), After(w.base, Horizon(w, now)));
  }

  /** An in-window event the ring filed too far back. */
  ghost predicate Misfiled(w: Window, now: Time, e: Entry) {
    e.slot <= Horizon(w, now) < Ordinal(w.base, e.time) && e.amount != Tally(0, 0, 0)
  }

  lemma MisfiledBreaksRead(w: Window, clock: Time, now: Time, i: nat)
    requires Sound(w, clock) && clock <= now && i < |w.log| && Misfiled(w, now, w.log[i])
    ensures Read(w, now) != Happened(w.base, w.log, Horizon(w, now))
  {
    ReadCountsSlots(w, clock, now);
    SumMisses(w.log, Filed(Horizon(w, now) + 1, w.mark + 1), After(w.base, Horizon(w, now)), i);
  }

  lemma FiledTrulyReadsTrue(w: Window, clock: Time, now: Time)
    requires Sound(w, clock) && clock <= now
    requires forall i :: 0 <= i < |w.log| ==> !Misfiled(w, now, w.log[i])
    ensures Read(w, now) == Happened(w.base, w.log, Horizon(w, now))
  {
    ReadCountsSlots(w, clock, now);
    SumEqual(w.log, Filed(Horizon(w, now) + 1, w.mark + 1), After(w.base, Horizon(w, now)));
  }

  /** A read agrees with the log exactly when no event was filed too far back. */
  lemma ReadExactIff(w: Window, clock: Time, now: Time)
    requires Sound(w, clock) && clock <= now
    ensures Read(w, now) == Happened(w.base, w.log, Horizon(w, now))
            <==> forall i :: 0 <= i < |w.log| ==> !Misfiled(w, now, w.log[i])
  {
    if i :| 0 <= i < |w.log| && Misfiled(w, now, w.log[i]) {
      MisfiledBreaksRead(w, clock, now, i);
    } else {
      FiledTrulyReadsTrue(w, clock, now);
    }
  }

  lemma {:induction false} SumEqual(log: seq<Entry>, p: Filter, q: Filter)
    requires forall e :: e in log ==> p.Takes(e) == q.Takes(e) || e.amount == Tally(0, 0, 0)
    ensures Sum(log, p) == Sum(log, q)
  {
    if |log| > 0 {
      SumEqual(log[..|log| - 1], p, q);
    }
  }

  // ---------------------------------------------------------------------
  // Whole runs
  // ---------------------------------------------------------------------

  datatype Event = Event(time: Time, amount: Tally)

  function WriteAll(w: Window, run: seq<Event>): Window
    decreases |run|
  {
    if |run| == 0 then w
    else
      var before := WriteAll(w, run[..|run| - 1]);
      Write(before, run[|run| - 1].time, run[|run| - 1].amount)
  }

  ghost predicate Ordered(run: seq<Event>, clock: Time) {
    && (forall i :: 0 <= i < |run| ==> clock <= run[i].time)
    && (forall i, j :: 0 <= i < j < |run| ==> run[i].time <= run[j].time)
  }

  /** No write came more than forty whole buckets after the write mark. */
  ghost predicate NoLongGap(w: Window, run: seq<Event>) {
    forall i :: 0 <= i < |run| ==> Lag(WriteAll(w, run[..i]), run[i].time) <= BUCKETS
  }

  function Clock(run: seq<Event>, start: Time): Time {
    if |run| == 0 then start else run[|run| - 1].time
  }

  lemma PrefixIsOrdered(run: seq<Event>, clock: Time, n: nat)
    requires Ordered(run, clock) && n <= |run|
    ensures Ordered(run[..n], clock) && (n < |run| ==> clock <= Clock(run[..n], clock) <= run[n].time)
  {
    forall i | 0 <= i < n ensures run[..n][i] == run[i] && clock <= run[i].time {
    }
  }

  lemma OneMoreIsOrdered(run: seq<Event>, clock: Time, e: Event)
    requires Ordered(run, clock) && Clock(run, clock) <= e.time && clock <= e.time
    ensures Ordered(run + [e], clock) && Clock(run + [e], clock) == e.time
  {
    forall i | 0 <= i < |run| ensures run[i].time <= e.time {
      assert run[i].time <= run[|run| - 1].time;
    }
  }

  lemma WriteOneMore(w: Window, run: seq<Event>, e: Event)
    ensures WriteAll(w, run + [e]) == Write(WriteAll(w, run), e.time, e.amount)
  {
    assert (run + [e])[..|run|] == run;
  }

  lemma {:induction false} RunIsSound(w: Window, run: seq<Event>, clock: Time)
    requires Sound(w, clock) && Ordered(run, clock)
    ensures Sound(WriteAll(w, run), Clock(run, clock))
    ensures WriteAll(w, run).base == w.base
    ensures |WriteAll(w, run).log| == |w.log| + |run|
    ensures forall i :: 0 <= i < |run| ==>
              WriteAll(w, run).log[|w.log| + i].time == run[i].time && WriteAll(w, run).log[|w.log| + i].amount == run[i].amount
    decreases |run|
  {
    if |run| > 0 {
      var init := run[..|run| - 1];
      PrefixIsOrdered(run, clock, |init|);
      RunIsSound(w, init, clock);
      var before := WriteAll(w, init);
      WriteKeepsSound(before, Clock(init, clock), run[|run| - 1].time, run[|run| - 1].amount);
      var after := WriteAll(w, run);
      assert after.log[..|before.log|] == before.log;
      forall i | 0 <= i < |run|
        ensures after.log[|w.log| + i].time == run[i].time && after.log[|w.log| + i].amount == run[i].amount
      {
        assert i < |init| ==> init[i] == run[i] && after.log[|w.log| + i] == before.log[|w.log| + i];
      }
    }
  }

  lemma PrefixHasNoLongGap(w: Window, run: seq<Event>, n: nat)
    requires NoLongGap(w, run) && n <= |run|
    ensures NoLongGap(w, run[..n])
  {
    forall i | 0 <= i < n ensures Lag(WriteAll(w, run[..n][..i]), run[..n][i].time) <= BUCKETS {
      assert run[..n][..i] == run[..i];
    }
  }

  lemma NoLongGapYet(w: Window, run: seq<Event>)
    requires |run| > 0 && NoLongGap(w, run[..|run| - 1])
    requires Lag(WriteAll(w, run[..|run| - 1]), run[|run| - 1].time) <= BUCKETS
    ensures NoLongGap(w, run)
  {
    var init := run[..|run| - 1];
    forall i | 0 <= i < |run| ensures Lag(WriteAll(w, run[..i]), run[i].time) <= BUCKETS {
      assert i < |init| ==> init[..i] == run[..i];
    }
  }

  /** Every entry sits in the bucket its instant belongs to. */
  ghost predicate FiledTruly(w: Window) {
    forall e :: e in w.log ==> e.slot == Ordinal(w.base, e.time)
  }

  lemma WriteFilesTruly(w: Window, clock: Time, now: Time, amount: Tally)
    requires Sound(w, clock) && clock <= now && FiledTruly(w) && Lag(w, now) <= BUCKETS
    ensures FiledTruly(Write(w, now, amount))
  {
    OrdinalOfLag(w, now);
  }

  lemma {:induction false} RunFilesTruly(w: Window, run: seq<Event>, clock: Time)
    requires Sound(w, clock) && FiledTruly(w) && Ordered(run, clock) && NoLongGap(w, run)
    ensures FiledTruly(WriteAll(w, run))
    decreases |run|
  {
    if |run| > 0 {
      var init, e := run[..|run| - 1], run[|run| - 1];
      PrefixIsOrdered(run, clock, |init|);
      PrefixHasNoLongGap(w, run, |init|);
      RunFilesTruly(w, init, clock);
      RunIsSound(w, init, clock);
      WriteFilesTruly(WriteAll(w, init), Clock(init, clock), e.time, e.amount);
    }
  }

  /** From a ring filed truly, an empty one for instance, and with no long gap,
      every read over the whole run equals the log counted over the last forty
      buckets. */
  lemma RingRefinesLog(w: Window, run: seq<Event>, clock: Time, now: Time)
    requires Sound(w, clock) && FiledTruly(w) && Ordered(run, clock) && NoLongGap(w, run)
    requires Clock(run, clock) <= now
    ensures var v := WriteAll(w, run);
            Read(v, now) == Happened(w.base, v.log, Horizon(v, now))
  {
    RunIsSound(w, run, clock);
    RunFilesTruly(w, run, clock);
    ReadExactIff(WriteAll(w, run), Clock(run, clock), now);
  }

  /** Reading at now, after these writes, is counting the log. */
  ghost predicate ReadsTrue(w: Window, run: seq<Event>, now: Time) {
    var v := WriteAll(w, run);
    Read(v, now) == Happened(w.base, v.log, Horizon(v, now))
  }

  /** Every read after any of the writes is true, then and at any later instant. */
  ghost predicate AlwaysTrue(w: Window, run: seq<Event>, clock: Time) {
    forall i, now :: 0 <= i <= |run| && Clock(run[..i], clock) <= now ==> ReadsTrue(w, run[..i], now)
  }

  /** The instant at which a write that came too late is already missed: one
      bucket before it should leave the window. */
  function MissedAt(t: Time): Time { t + (BUCKETS - 1) * SPAN }

  lemma OrdinalLater(base: Time, t: Time, k: int)
    ensures Ordinal(base, t + k * SPAN) == Ordinal(base, t) + k
  {
    assert t + k * SPAN - base == (t - base) + k * SPAN;
  }

  /** A write more than forty buckets after the mark is filed short of its own
      bucket, and missed while it is still in the window. */
  lemma LateWriteIsMissed(w: Window, clock: Time, t: Time, amount: Tally)
    requires Sound(w, clock) && clock <= t && Lag(w, t) > BUCKETS && amount != Tally(0, 0, 0)
    ensures var v := Write(w, t, amount);
            Read(v, MissedAt(t)) != Happened(v.base, v.log, Horizon(v, MissedAt(t)))
  {
    var v := Write(w, t, amount);
    WriteKeepsSound(w, clock, t, amount);
    OrdinalOfLag(w, t);
    OrdinalLater(w.base, t, BUCKETS - 1);
    MisfiledBreaksRead(v, t, MissedAt(t), |w.log|);
  }

  /** For writes that record something, every read is true exactly when no write
      comes more than forty whole buckets after the mark. */
  lemma AlwaysTrueIffNoLongGap(w: Window, run: seq<Event>, clock: Time)
    requires Sound(w, clock) && FiledTruly(w) && Ordered(run, clock)
    requires forall i :: 0 <= i < |run| ==> run[i].amount != Tally(0, 0, 0)
    ensures AlwaysTrue(w, run, clock) <==> NoLongGap(w, run)
  {
    if NoLongGap(w, run) {
      forall i, now | 0 <= i <= |run| && Clock(run[..i], clock) <= now ensures ReadsTrue(w, run[..i], now) {
        PrefixIsOrdered(run, clock, i);
        PrefixHasNoLongGap(w, run, i);
        RingRefinesLog(w, run[..i], clock, now);
      }
    } else {
      var i :| 0 <= i < |run| && Lag(WriteAll(w, run[..i]), run[i].time) > BUCKETS;
      LongGapShows(w, run, clock, i);
    }
  }

  lemma LongGapShows(w: Window, run: seq<Event>, clock: Time, i: nat)
    requires Sound(w, clock) && Ordered(run, clock) && i < |run| && run[i].amount != Tally(0, 0, 0)
    requires Lag(WriteAll(w, run[..i]), run[i].time) > BUCKETS
    ensures Clock(run[..i + 1], clock) <= MissedAt(run[i].time) && !ReadsTrue(w, run[..i + 1], MissedAt(run[i].time))
  {
    PrefixIsOrdered(run, clock, i);
    RunIsSound(w, run[..i], clock);
    LateWriteIsMissed(WriteAll(w, run[..i]), Clock(run[..i], clock), run[i].time, run[i].amount);
    WriteAllOneMore(w, run, i);
  }

  lemma WriteAllOneMore(w: Window, run: seq<Event>, i: nat)
    requires i < |run|
    ensures WriteAll(w, run[..i + 1]) == Write(WriteAll(w, run[..i]), run[i].time, run[i].amount)
  {
    assert run[..i + 1][..i] == run[..i];
  }

  /** With any gaps, every read is at most that. */
  lemma RingNeverExceedsLog(w: Window, run: seq<Event>, clock: Time, now: Time)
    requires Sound(w, clock) && Ordered(run, clock) && Clock(run, clock) <= now
    ensures var v := WriteAll(w, run);
            Read(v, now).AtMost(Happened(w.base, v.log, Horizon(v, now)))
  {
    RunIsSound(w, run, clock);
    ReadNeverOvercounts(WriteAll(w, run), Clock(run, clock), now);
  }

  /** After a long enough silence even the write's own event is filed out of
      reach: a read at the same instant sees it exactly when fewer than eighty
      whole buckets had passed. */
  lemma OwnWriteVisibleIff(w: Window, clock: Time, now: Time, amount: Tally)
    requires Sound(w, clock) && clock <= now && amount != Tally(0, 0, 0)
    ensures var v := Write(w, now, amount);
            v.log[|w.log|].slot > Horizon(v, now) <==> Lag(w, now) < 2 * BUCKETS
    ensures Lag(w, now) >= 2 * BUCKETS ==> Read(Write(w, now, amount), now) == Tally(0, 0, 0)
  {
    OrdinalOfLag(w, now);
    var v := Write(w, now, amount);
    WriteKeepsSound(w, clock, now, amount);
    ReadCountsSlots(v, now, now);
    if Lag(w, now) >= 2 * BUCKETS {
      SumNothing(v.log, Filed(Horizon(v, now) + 1, v.mark + 1));
    }
  }

  /** The gap condition cannot be dropped: one event after twenty-five idle
      seconds, read back at once, counts as nothing. */
  lemma LongGapLosesEvents(now: Time)
    requires now == 100 * SPAN
    ensures var w := Window(0, 0, []);
            var v := Write(w, now, Tally(1, 0, 0));
            && Sound(w, 0) && Ordered([Event(now, Tally(1, 0, 0))], 0)
            && Read(v, now) == Tally(0, 0, 0)
            && Happened(0, v.log, Horizon(v, now)) == Tally(1, 0, 0)
  {
    var w := Window(0, 0, []);
    OwnWriteVisibleIff(w, 0, now, Tally(1, 0, 0));
    var v := Write(w, now, Tally(1, 0, 0));
    assert v.log[..0] == [];
    assert After(0, Horizon(v, now)).Takes(v.log[0]);
    assert Sum([], After(0, Horizon(v, now))) == Tally(0, 0, 0);
  }
}
