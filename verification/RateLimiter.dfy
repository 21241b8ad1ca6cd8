/** The in-process token buckets: continuous refill, one request and an
    estimated token cost per call, refunds, and an idle sweep that no decision
    can notice. */
module RateLimiter {
  import opened Basics

  type Tenant = string

  const IDLE_TTL := 120_000_000_000
  const MILLISECOND := 1_000_000

  datatype Bucket = Bucket(tokens: real, last: Time)

  type Buckets = map<Tenant, Bucket>

  /** Per-minute ceilings; zero or less disables one. */
  datatype Limits = Limits(rpm: int, tpm: int)

  datatype Decision = Decision(allowed: bool, retryAfter: Time)

  function Seconds(d: Time): real { d as real / 1_000_000_000.0 }

  /** What a full minute's capacity earns in so many seconds. */
  function Gain(seconds: real, capacity: real): real { seconds * (capacity / 60.0) }

  function MinReal(a: real, b: real): real { if a < b then a else b }

  // ---------------------------------------------------------------------
  // One bucket
  // ---------------------------------------------------------------------

  function Find(bs: Buckets, t: Tenant): Option<Bucket> {
    if t in bs then Some(bs[t]) else None
  }

  /** The bucket brought up to now; a missing one starts full. */
  function Refilled(b: Option<Bucket>, capacity: int, now: Time): Bucket {
    match b
    case None => Bucket(capacity as real, now)
    case Some(b) =>
      if capacity > 0 then
        Bucket(MinReal(capacity as real, b.tokens + Gain(Seconds(now - b.last), capacity as real)), now)
      else Bucket(b.tokens, now)
  }

  lemma GainBasics(seconds: real, capacity: real)
    requires seconds >= 0.0 && capacity > 0.0
    ensures Gain(seconds, capacity) >= 0.0
    ensures seconds >= 120.0 ==> Gain(seconds, capacity) >= capacity
  {
    if seconds >= 120.0 {
      assert (seconds - 120.0) * (capacity / 60.0) >= 0.0;
      assert Gain(seconds, capacity) == (seconds - 120.0) * (capacity / 60.0) + 2.0 * capacity;
    }
  }

  lemma GainAdds(a: real, b: real, capacity: real)
    ensures Gain(a, capacity) + Gain(b, capacity) == Gain(a + b, capacity)
  {
  }

  /** A bucket's level never leaves the range between empty and full. */
  lemma RefilledBounds(b: Option<Bucket>, capacity: int, now: Time)
    requires capacity > 0 && (b.Some? ==> b.value.tokens >= 0.0 && b.value.last <= now)
    ensures 0.0 <= Refilled(b, capacity, now).tokens <= capacity as real
  {
    if b.Some? {
      GainBasics(Seconds(now - b.value.last), capacity as real);
    }
  }

  /** A bucket idle for the whole horizon refills exactly like a missing one. */
  lemma IdleIsFull(b: Bucket, capacity: int, now: Time)
    requires capacity > 0 && b.tokens >= 0.0 && now - b.last >= IDLE_TTL
    ensures Refilled(Some(b), capacity, now) == Refilled(None, capacity, now)
  {
    assert Seconds(now - b.last) >= 120.0;
    GainBasics(Seconds(now - b.last), capacity as real);
  }

  /** Exactly when sweeping an idle bucket goes unnoticed by the next call about
      its tenant: that call's ceiling is on, or the bucket already held what a
      disabled ceiling creates. */
  lemma IdleSweepUnnoticedIff(b: Bucket, capacity: int, now: Time)
    requires b.tokens >= 0.0 && now - b.last >= IDLE_TTL
    ensures Refilled(Some(b), capacity, now) == Refilled(None, capacity, now) <==> capacity > 0 || b.tokens == capacity as real
  {
    if capacity > 0 {
      IdleIsFull(b, capacity, now);
    }
  }

  // ---------------------------------------------------------------------
  // The limiter
  // ---------------------------------------------------------------------

  datatype Dimension = Rpm | Tpm

  datatype Limiter = Limiter(rpm: Buckets, tpm: Buckets)

  datatype Op =
    | Allow(tenant: Tenant, limits: Limits, tokens: int, now: Time, sweep: bool)
    | Refund(tenant: Tenant, limits: Limits, tokens: int, now: Time)

  function Of(l: Limiter, d: Dimension): Buckets { if d == Rpm then l.rpm else l.tpm }

  function Cap(limits: Limits, d: Dimension): int { if d == Rpm then limits.rpm else limits.tpm }

  /** What one admitted call costs in a dimension. */
  function Cost(op: Op, d: Dimension): real { if d == Rpm then 1.0 else op.tokens as real }

  function Kept(bs: Buckets, now: Time): Buckets {
    bs - set t | t in bs && bs[t].last <= now - IDLE_TTL
  }

  function Level(bs: Buckets, t: Tenant, capacity: int, now: Time): real {
    Refilled(Find(bs, t), capacity, now).tokens
  }

  predicate Fits(l: Limiter, op: Op, d: Dimension) {
    Cap(op.limits, d) <= 0 || Level(Of(l, d), op.tenant, Cap(op.limits, d), op.now) >= Cost(op, d)
  }

  /** The wait until a continuous refill covers a deficit. */
  function DeficitWait(deficit: real, capacity: int): Time {
    if capacity <= 0 || deficit <= 0.0 then 0
    else
      var nanos := deficit / (capacity as real / 60.0) * 1_000_000_000.0;
      if nanos >= MAX_INT64 as real then MAX_INT64
      else if nanos.Floor < MILLISECOND then MILLISECOND
      else nanos.Floor
  }

  function WaitFor(l: Limiter, op: Op, d: Dimension): Time {
    if Fits(l, op, d) then 0
    else DeficitWait(Cost(op, d) - Level(Of(l, d), op.tenant, Cap(op.limits, d), op.now), Cap(op.limits, d))
  }

  function Decide(l: Limiter, op: Op): Decision {
    if Fits(l, op, Rpm) && Fits(l, op, Tpm) then Decision(true, 0)
    else Decision(false, Max(WaitFor(l, op, Rpm), WaitFor(l, op, Tpm)))
  }

  /** A dimension's buckets after one operation. */
  function After(bs: Buckets, op: Op, d: Dimension, allowed: bool): Buckets {
    var b := Refilled(Find(bs, op.tenant), Cap(op.limits, d), op.now);
    match op
    case Allow(t, limits, _, _, _) =>
      bs[t := if allowed && Cap(limits, d) > 0 then b.(tokens := b.tokens - Cost(op, d)) else b]
    case Refund(t, limits, tokens, _) =>
      if tokens <= 0 || limits.tpm <= 0 then bs
      else bs[t := if d == Tpm then b.(tokens := MinReal(b.tokens + tokens as real, limits.tpm as real)) else b]
  }

  function Swept(l: Limiter, op: Op): Limiter {
    if op.Allow? && op.sweep then Limiter(Kept(l.rpm, op.now), Kept(l.tpm, op.now)) else l
  }

  function Step(l: Limiter, op: Op): (Limiter, Decision) {
    var l1 := Swept(l, op);
    var decision := if op.Allow? then Decide(l1, op) else Decision(true, 0);
    (Limiter(After(l1.rpm, op, Rpm, decision.allowed), After(l1.tpm, op, Tpm, decision.allowed)), decision)
  }

  function StepAll(l: Limiter, run: seq<Op>): Limiter {
    if |run| == 0 then l else Step(StepAll(l, run[..|run| - 1]), run[|run| - 1]).0
  }

  ghost predicate ClockOrdered(run: seq<Op>, clock: Time) {
    && (forall i :: 0 <= i < |run| ==> clock <= run[i].now)
    && (forall i, j :: 0 <= i < j < |run| ==> run[i].now <= run[j].now)
  }

  function Clock(run: seq<Op>, start: Time): Time {
    if |run| == 0 then start else run[|run| - 1].now
  }

  // ---------------------------------------------------------------------
  // The sweep is invisible
  // ---------------------------------------------------------------------

  /** A swept limiter's bucket against an unswept one's: the same, or gone where
      the other has been idle for the horizon. */
  ghost predicate Alike(a: Option<Bucket>, b: Option<Bucket>, now: Time) {
    && (b.Some? ==> b.value.tokens >= 0.0 && b.value.last <= now)
    && (a == b || (a.None? && b.Some? && now - b.value.last >= IDLE_TTL))
  }

  /** Alike for every tenant limited in this dimension. */
  ghost predicate AllAlike(a: Buckets, b: Buckets, limited: set<Tenant>, now: Time) {
    forall t :: t in limited ==> Alike(Find(a, t), Find(b, t), now)
  }

  lemma AlikeRefills(a: Option<Bucket>, b: Option<Bucket>, capacity: int, clock: Time, now: Time)
    requires Alike(a, b, clock) && clock <= now && capacity > 0
    ensures Refilled(a, capacity, now) == Refilled(b, capacity, now)
    ensures 0.0 <= Refilled(b, capacity, now).tokens <= capacity as real
  {
    RefilledBounds(b, capacity, now);
    if a != b {
      IdleIsFull(b.value, capacity, now);
    }
  }

  lemma KeptAlike(a: Buckets, b: Buckets, limited: set<Tenant>, clock: Time, now: Time)
    requires AllAlike(a, b, limited, clock) && clock <= now
    ensures AllAlike(Kept(a, now), b, limited, now) && AllAlike(a, b, limited, now)
  {
    forall t | t in limited ensures Alike(Find(Kept(a, now), t), Find(b, t), now) && Alike(Find(a, t), Find(b, t), now) {
      assert Alike(Find(a, t), Find(b, t), clock);
    }
  }

  /** A call that meets a disabled ceiling leaves nothing for a sweep to have
      changed: the bucket it finds is not idle, or holds what it would create. */
  predicate Unnoticed(b: Option<Bucket>, capacity: int, now: Time) {
    match b
    case None => capacity == 0
    case Some(b) => now - b.last < IDLE_TTL || b.tokens == capacity as real
  }

  /** In a dimension, tenants not named never have a ceiling; a named one's calls
      have theirs on, or go unnoticed. */
  ghost predicate Undisturbed(bs: Buckets, op: Op, d: Dimension, limited: set<Tenant>) {
    Cap(op.limits, d) > 0 || op.tenant !in limited || Unnoticed(Find(bs, op.tenant), Cap(op.limits, d), op.now)
  }

  ghost predicate NamesLimited(op: Op, d: Dimension, limited: set<Tenant>) {
    Cap(op.limits, d) > 0 ==> op.tenant in limited
  }

  ghost predicate Quiet(l: Limiter, op: Op, byRpm: set<Tenant>, byTpm: set<Tenant>) {
    && NamesLimited(op, Rpm, byRpm) && NamesLimited(op, Tpm, byTpm)
    && Undisturbed(l.rpm, op, Rpm, byRpm) && Undisturbed(l.tpm, op, Tpm, byTpm)
  }

  lemma AfterAlike(a: Buckets, b: Buckets, op: Op, d: Dimension, limited: set<Tenant>, allowed: bool, clock: Time)
    requires AllAlike(a, b, limited, clock) && clock <= op.now && NamesLimited(op, d, limited) && Undisturbed(b, op, d, limited)
    requires Cap(op.limits, d) > 0 && op.Allow? && allowed ==> Level(b, op.tenant, Cap(op.limits, d), op.now) >= Cost(op, d)
    ensures AllAlike(After(a, op, d, allowed), After(b, op, d, allowed), limited, op.now)
  {
    KeptAlike(a, b, limited, clock, op.now);
    forall t | t in limited
      ensures Alike(Find(After(a, op, d, allowed), t), Find(After(b, op, d, allowed), t), op.now)
    {
      assert Alike(Find(a, t), Find(b, t), op.now);
      if t == op.tenant && Cap(op.limits, d) > 0 {
        AlikeRefills(Find(a, t), Find(b, t), Cap(op.limits, d), clock, op.now);
      }
    }
  }

  lemma FitsAlike(a: Limiter, b: Limiter, op: Op, d: Dimension, limited: set<Tenant>, clock: Time)
    requires AllAlike(Of(a, d), Of(b, d), limited, clock) && clock <= op.now && NamesLimited(op, d, limited)
    ensures Fits(a, op, d) == Fits(b, op, d) && WaitFor(a, op, d) == WaitFor(b, op, d)
  {
    if Cap(op.limits, d) > 0 {
      assert Alike(Find(Of(a, d), op.tenant), Find(Of(b, d), op.tenant), clock);
      AlikeRefills(Find(Of(a, d), op.tenant), Find(Of(b, d), op.tenant), Cap(op.limits, d), clock, op.now);
    }
  }

  /** The same operation with no sweep. */
  function Unswept(op: Op): Op {
    if op.Allow? then op.(sweep := false) else op
  }

  function UnsweptAll(run: seq<Op>): seq<Op> {
    if |run| == 0 then [] else UnsweptAll(run[..|run| - 1]) + [Unswept(run[|run| - 1])]
  }

  lemma StepAlike(a: Limiter, b: Limiter, op: Op, byRpm: set<Tenant>, byTpm: set<Tenant>, clock: Time)
    requires AllAlike(a.rpm, b.rpm, byRpm, clock) && AllAlike(a.tpm, b.tpm, byTpm, clock) && clock <= op.now
    requires Quiet(b, op, byRpm, byTpm)
    ensures var (a', x) := Step(a, op);
            var (b', y) := Step(b, Unswept(op));
            && x == y
            && AllAlike(a'.rpm, b'.rpm, byRpm, op.now) && AllAlike(a'.tpm, b'.tpm, byTpm, op.now)
  {
    var a1 := Swept(a, op);
    KeptAlike(a.rpm, b.rpm, byRpm, clock, op.now);
    KeptAlike(a.tpm, b.tpm, byTpm, clock, op.now);
    FitsAlike(a1, b, op, Rpm, byRpm, op.now);
    FitsAlike(a1, b, op, Tpm, byTpm, op.now);
    DecisionIgnoresSweep(b, op);
    var allowed := if op.Allow? then Decide(a1, op).allowed else true;
    AfterAlike(a1.rpm, b.rpm, op, Rpm, byRpm, allowed, op.now);
    AfterAlike(a1.tpm, b.tpm, op, Tpm, byTpm, allowed, op.now);
    AfterIgnoresSweep(b.rpm, op, Rpm, allowed);
    AfterIgnoresSweep(b.tpm, op, Tpm, allowed);
  }

  lemma DecisionIgnoresSweep(l: Limiter, op: Op)
    ensures Decide(l, Unswept(op)) == Decide(l, op)
  {
  }

  lemma AfterIgnoresSweep(bs: Buckets, op: Op, d: Dimension, allowed: bool)
    ensures After(bs, Unswept(op), d, allowed) == After(bs, op, d, allowed)
  {
  }

  function Empty(): Limiter { Limiter(map[], map[]) }

  /** Every call of the run is quiet for a limiter that never sweeps. */
  ghost predicate QuietRun(run: seq<Op>, byRpm: set<Tenant>, byTpm: set<Tenant>) {
    forall i :: 0 <= i < |run| ==> Quiet(StepAll(Empty(), UnsweptAll(run[..i])), run[i], byRpm, byTpm)
  }

  lemma QuietPrefix(run: seq<Op>, n: nat, byRpm: set<Tenant>, byTpm: set<Tenant>)
    requires QuietRun(run, byRpm, byTpm) && n <= |run|
    ensures QuietRun(run[..n], byRpm, byTpm)
  {
    forall i | 0 <= i < n ensures Quiet(StepAll(Empty(), UnsweptAll(run[..n][..i])), run[..n][i], byRpm, byTpm) {
      assert run[..n][..i] == run[..i];
    }
  }

  lemma UnsweptOneMore(run: seq<Op>)
    requires |run| > 0
    ensures StepAll(Empty(), UnsweptAll(run)) ==
            Step(StepAll(Empty(), UnsweptAll(run[..|run| - 1])), Unswept(run[|run| - 1])).0
  {
    var u := UnsweptAll(run[..|run| - 1]);
    assert (u + [Unswept(run[|run| - 1])])[..|u|] == u;
  }

  lemma {:induction false} RunsAlike(run: seq<Op>, byRpm: set<Tenant>, byTpm: set<Tenant>, clock: Time)
    requires ClockOrdered(run, clock) && QuietRun(run, byRpm, byTpm)
    ensures var a, b := StepAll(Empty(), run), StepAll(Empty(), UnsweptAll(run));
            && AllAlike(a.rpm, b.rpm, byRpm, Clock(run, clock)) && AllAlike(a.tpm, b.tpm, byTpm, Clock(run, clock))
    decreases |run|
  {
    if |run| > 0 {
      var n := |run| - 1;
      QuietPrefix(run, n, byRpm, byTpm);
      RunsAlike(run[..n], byRpm, byTpm, clock);
      UnsweptOneMore(run);
      assert run[..n] == run[..|run| - 1];
      StepAlike(StepAll(Empty(), run[..n]), StepAll(Empty(), UnsweptAll(run[..n])), run[n], byRpm, byTpm, Clock(run[..n], clock));
    }
  }

  /** Over any run in which no call with a disabled ceiling meets a bucket a sweep
      could have taken: a limiter that sweeps at any calls it likes decides, waits
      included, exactly as one that never sweeps. */
  lemma SweepIsInvisible(run: seq<Op>, op: Op, byRpm: set<Tenant>, byTpm: set<Tenant>, clock: Time)
    requires ClockOrdered(run, clock) && Clock(run, clock) <= op.now
    requires QuietRun(run, byRpm, byTpm) && Quiet(StepAll(Empty(), UnsweptAll(run)), op, byRpm, byTpm)
    ensures Step(StepAll(Empty(), run), op).1 == Step(StepAll(Empty(), UnsweptAll(run)), Unswept(op)).1
  {
    RunsAlike(run, byRpm, byTpm, clock);
    StepAlike(StepAll(Empty(), run), StepAll(Empty(), UnsweptAll(run)), op, byRpm, byTpm, Clock(run, clock));
  }

  /** In a dimension each tenant is limited by every call or by none. */
  ghost predicate Consistent(op: Op, d: Dimension, limited: set<Tenant>) {
    Cap(op.limits, d) > 0 <==> op.tenant in limited
  }

  /** Whatever their values, ceilings never switched on or off make a run quiet. */
  lemma FixedCeilingsAreQuiet(run: seq<Op>, byRpm: set<Tenant>, byTpm: set<Tenant>)
    requires forall i :: 0 <= i < |run| ==> Consistent(run[i], Rpm, byRpm) && Consistent(run[i], Tpm, byTpm)
    ensures QuietRun(run, byRpm, byTpm)
  {
  }

  // ---------------------------------------------------------------------
  // A sweep that shows
  // ---------------------------------------------------------------------

  /** A call with its token ceiling switched off that meets an idle bucket holding
      a whole token: swept there or not, the next one-token call decides
      differently. */
  lemma NoisyCallShowsAtOnce(l: Limiter, t: Tenant, off: Limits, k: int, now: Time)
    requires off.tpm <= 0 && t in l.tpm && l.tpm[t].tokens >= 1.0 && now - l.tpm[t].last >= IDLE_TTL && k >= 1
    ensures var next := Allow(t, Limits(0, k), 1, now, false);
            && !Step(Step(l, Allow(t, off, 0, now, true)).0, next).1.allowed
            && Step(Step(l, Allow(t, off, 0, now, false)).0, next).1.allowed
  {
    NoTimeNoGain(k as real);
    assert Find(Kept(l.tpm, now), t) == None;
  }

  /** So from an empty limiter: spend part of a bucket, leave it a horizon, call
      once with the ceiling off. A sweep at that call makes the next one refused,
      none makes it admitted. */
  lemma SweepShowsAcrossADisabledCeiling(t: Tenant, capacity: int, spent: int, late: Time)
    requires 0 <= spent < capacity && late >= IDLE_TTL
    ensures var run := [Allow(t, Limits(0, capacity), spent, 0, false), Allow(t, Limits(0, 0), 0, late, true)];
            var op := Allow(t, Limits(0, capacity), 1, late, false);
            && ClockOrdered(run, 0)
            && !Step(StepAll(Empty(), run), op).1.allowed
            && Step(StepAll(Empty(), UnsweptAll(run)), Unswept(op)).1.allowed
  {
    var first, off := Allow(t, Limits(0, capacity), spent, 0, false), Allow(t, Limits(0, 0), 0, late, true);
    var l := Step(Empty(), first).0;
    assert l.tpm[t] == Bucket(capacity as real - spent as real, 0);
    NoisyCallShowsAtOnce(l, t, Limits(0, 0), capacity, late);
    TwoSteps(Empty(), first, off);
    TwoSteps(Empty(), first, Unswept(off));
    UnsweptTwo(first, off);
  }

  lemma OneMoreStep(l: Limiter, run: seq<Op>, op: Op)
    ensures StepAll(l, run + [op]) == Step(StepAll(l, run), op).0
  {
    assert (run + [op])[..|run|] == run;
  }

  lemma TwoSteps(l: Limiter, a: Op, b: Op)
    ensures StepAll(l, [a, b]) == Step(Step(l, a).0, b).0
  {
    OneMoreStep(l, [], a);
    OneMoreStep(l, [a], b);
    assert [] + [a] == [a] && [a] + [b] == [a, b];
  }

  lemma UnsweptMore(run: seq<Op>, op: Op)
    ensures UnsweptAll(run + [op]) == UnsweptAll(run) + [Unswept(op)]
  {
    assert (run + [op])[..|run|] == run;
  }

  lemma UnsweptTwo(a: Op, b: Op)
    ensures UnsweptAll([a, b]) == [Unswept(a), Unswept(b)]
  {
    UnsweptMore([], a);
    UnsweptMore([a], b);
    assert [] + [a] == [a] && [a] + [b] == [a, b];
  }

  lemma NoTimeNoGain(capacity: real)
    ensures Gain(Seconds(0), capacity) == 0.0
  {
  }

  // ---------------------------------------------------------------------
  // Every noisy call shows
  // ---------------------------------------------------------------------

  /** The nanoseconds in which a ceiling of one a minute earns its one. */
  const MINUTE := 60_000_000_000

  predicate Whole(x: real) { x == x.Floor as real }

  /** A level some whole number of one-a-minute nanoseconds earns. */
  predicate OnGrid(x: real) { Whole(x * 60_000_000_000.0) }

  ghost predicate AllOnGrid(bs: Buckets) {
    forall t :: t in bs ==> OnGrid(bs[t].tokens)
  }

  lemma IntIsWhole(x: real, n: int)
    requires x == n as real
    ensures Whole(x)
  {
  }

  lemma IntOnGrid(n: int)
    ensures OnGrid(n as real)
  {
    IntIsWhole(n as real * 60_000_000_000.0, n * MINUTE);
  }

  lemma SumOnGrid(a: real, b: real)
    requires OnGrid(a) && OnGrid(b)
    ensures OnGrid(a + b) && OnGrid(a - b)
  {
    var x, y := a * 60_000_000_000.0, b * 60_000_000_000.0;
    assert (a + b) * 60_000_000_000.0 == x + y && (a - b) * 60_000_000_000.0 == x - y;
    IntIsWhole(x + y, x.Floor + y.Floor);
    IntIsWhole(x - y, x.Floor - y.Floor);
  }

  lemma GainOnGrid(d: Time, capacity: int)
    ensures OnGrid(Gain(Seconds(d), capacity as real))
  {
    assert d as real * capacity as real == (d * capacity) as real;
    IntIsWhole(Gain(Seconds(d), capacity as real) * 60_000_000_000.0, d * capacity);
  }

  lemma RefilledOnGrid(b: Option<Bucket>, capacity: int, now: Time)
    requires b.Some? ==> OnGrid(b.value.tokens)
    ensures OnGrid(Refilled(b, capacity, now).tokens)
  {
    IntOnGrid(capacity);
    if b.Some? {
      GainOnGrid(now - b.value.last, capacity);
      SumOnGrid(b.value.tokens, Gain(Seconds(now - b.value.last), capacity as real));
    }
  }

  lemma AfterOnGrid(bs: Buckets, op: Op, d: Dimension, allowed: bool)
    requires AllOnGrid(bs)
    ensures AllOnGrid(After(bs, op, d, allowed))
  {
    var b := Refilled(Find(bs, op.tenant), Cap(op.limits, d), op.now);
    RefilledOnGrid(Find(bs, op.tenant), Cap(op.limits, d), op.now);
    IntOnGrid(op.tokens);
    IntOnGrid(op.limits.tpm);
    IntOnGrid(1);
    SumOnGrid(b.tokens, op.tokens as real);
    SumOnGrid(b.tokens, 1.0);
  }

  lemma {:induction false} RunStaysOnGrid(run: seq<Op>)
    ensures AllOnGrid(StepAll(Empty(), run).rpm) && AllOnGrid(StepAll(Empty(), run).tpm)
  {
    if |run| > 0 {
      var n := |run| - 1;
      RunStaysOnGrid(run[..n]);
      var l := Swept(StepAll(Empty(), run[..n]), run[n]);
      var allowed := if run[n].Allow? then Decide(l, run[n]).allowed else true;
      AfterOnGrid(l.rpm, run[n], Rpm, allowed);
      AfterOnGrid(l.tpm, run[n], Tpm, allowed);
    }
  }

  lemma GridGap(x: real, n: int)
    requires OnGrid(x) && x != n as real
    ensures x <= n as real - 1.0 / 60_000_000_000.0 || x >= n as real + 1.0 / 60_000_000_000.0
  {
    var f, g := (x * 60_000_000_000.0).Floor, n * 60_000_000_000;
    assert x == f as real / 60_000_000_000.0 && n as real == g as real / 60_000_000_000.0;
    assert f <= g - 1 || f >= g + 1;
  }

  function OneAMinute(d: Dimension): Limits { if d == Rpm then Limits(1, 0) else Limits(0, 1) }

  /** A call costing one, asked of a ceiling of one a minute just before the lower
      of two levels has earned it. */
  function Telltale(t: Tenant, d: Dimension, level: real, cap: int, now: Time): Op {
    Allow(t, OneAMinute(d), 1, now + (1 - cap) * MINUTE - (if level > cap as real then 1 else 0), false)
  }

  lemma EarnsOneIff(level: real, cap: int, now: Time, later: Time)
    ensures Refilled(Some(Bucket(level, now)), 1, later).tokens >= 1.0 <==> level + (later - now) as real / 60_000_000_000.0 >= 1.0
  {
  }

  /** The decision on such a call is by that one bucket alone. */
  lemma OneAMinuteDecides(l: Limiter, d: Dimension, t: Tenant, now: Time, later: Time)
    requires t in Of(l, d) && Of(l, d)[t].last == now
    ensures Step(l, Allow(t, OneAMinute(d), 1, later, false)).1.allowed <==>
              Of(l, d)[t].tokens + (later - now) as real / 60_000_000_000.0 >= 1.0
  {
    EarnsOneIff(Of(l, d)[t].tokens, 1, now, later);
  }

  lemma NoisyCallLeaves(l: Limiter, d: Dimension, t: Tenant, off: Limits, now: Time)
    requires Cap(off, d) <= 0 && t in Of(l, d) && now - Of(l, d)[t].last >= IDLE_TTL
    ensures var swept, kept := Step(l, Allow(t, off, 0, now, true)).0, Step(l, Allow(t, off, 0, now, false)).0;
            && t in Of(swept, d) && Of(swept, d)[t] == Bucket(Cap(off, d) as real, now)
            && t in Of(kept, d) && Of(kept, d)[t] == Bucket(Of(l, d)[t].tokens, now)
  {
    assert Find(Kept(Of(l, d), now), t) == None;
  }

  /** In any run, a call with its ceiling switched off that meets an idle bucket
      holding anything but what the disabled ceiling would create: swept there or
      not, a later call decides differently. */
  lemma NoisyCallShows(run: seq<Op>, d: Dimension, t: Tenant, off: Limits, now: Time)
    requires var l := StepAll(Empty(), run);
             && Cap(off, d) <= 0 && t in Of(l, d) && now - Of(l, d)[t].last >= IDLE_TTL
             && Of(l, d)[t].tokens != Cap(off, d) as real
    ensures var l := StepAll(Empty(), run);
            var next := Telltale(t, d, Of(l, d)[t].tokens, Cap(off, d), now);
            && next.now >= now
            && Step(Step(l, Allow(t, off, 0, now, true)).0, next).1.allowed != Step(Step(l, Allow(t, off, 0, now, false)).0, next).1.allowed
  {
    var l := StepAll(Empty(), run);
    var level, cap := Of(l, d)[t].tokens, Cap(off, d);
    var next := Telltale(t, d, level, cap, now);
    RunStaysOnGrid(run);
    GridGap(level, cap);
    NoisyCallLeaves(l, d, t, off, now);
    OneAMinuteDecides(Step(l, Allow(t, off, 0, now, true)).0, d, t, now, next.now);
    OneAMinuteDecides(Step(l, Allow(t, off, 0, now, false)).0, d, t, now, next.now);
  }

  // ---------------------------------------------------------------------
  // The rate bound
  // ---------------------------------------------------------------------

  /** What a refund really gives back: no more than the bucket still misses. */
  function Credited(bs: Buckets, op: Op): real {
    if op.tokens <= 0 || op.limits.tpm <= 0 then 0.0
    else MinReal(op.tokens as real, op.limits.tpm as real - Level(bs, op.tenant, op.limits.tpm, op.now))
  }

  /** What one operation takes from a tenant in a dimension, refunds negative. */
  function Net(l: Limiter, op: Op, t: Tenant, d: Dimension): real {
    if op.tenant != t then 0.0
    else if op.Refund? then (if d == Tpm then -Credited(l.tpm, op) else 0.0)
    else if Step(l, op).1.allowed then (if d == Rpm then 1.0 else op.tokens as real)
    else 0.0
  }

  function NetOver(l: Limiter, run: seq<Op>, t: Tenant, d: Dimension): real {
    if |run| == 0 then 0.0
    else NetOver(l, run[..|run| - 1], t, d) + Net(StepAll(l, run[..|run| - 1]), run[|run| - 1], t, d)
  }

  /** A bucket that has only ever been charged what it could afford. */
  ghost predicate Healthy(b: Option<Bucket>, clock: Time) {
    b.Some? ==> b.value.tokens >= 0.0 && b.value.last <= clock
  }

  lemma LevelRises(b: Option<Bucket>, capacity: int, clock: Time, now: Time)
    requires capacity > 0 && Healthy(b, clock) && clock <= now
    ensures Refilled(b, capacity, now).tokens
         <= Refilled(b, capacity, clock).tokens + Gain(Seconds(now - clock), capacity as real)
  {
    GainBasics(Seconds(now - clock), capacity as real);
    if b.Some? {
      GainAdds(Seconds(clock - b.value.last), Seconds(now - clock), capacity as real);
      assert Seconds(clock - b.value.last) + Seconds(now - clock) == Seconds(now - b.value.last);
    }
  }

  lemma SweepKeepsLevel(b: Bucket, capacity: int, now: Time)
    requires capacity > 0 && Healthy(Some(b), now)
    ensures now - b.last >= IDLE_TTL ==> Refilled(Some(b), capacity, now) == Refilled(None, capacity, now)
  {
    if now - b.last >= IDLE_TTL {
      IdleIsFull(b, capacity, now);
    }
  }

  /** Calls about a tenant use one positive ceiling, and ask for no negative
      amount. */
  ghost predicate Fixed(op: Op, t: Tenant, d: Dimension, capacity: int) {
    op.tenant == t ==> Cap(op.limits, d) == capacity && (op.Allow? ==> op.tokens >= 0)
  }

  lemma AfterLevel(bs: Buckets, op: Op, d: Dimension, allowed: bool, t: Tenant, capacity: int)
    requires capacity > 0 && Healthy(Find(bs, t), op.now) && Fixed(op, t, d, capacity)
    requires op.tenant == t && op.Allow? && allowed ==> Level(bs, t, capacity, op.now) >= Cost(op, d)
    ensures var net := if op.tenant != t then 0.0
                       else if op.Refund? then (if d == Tpm then -Credited(bs, op) else 0.0)
                       else if allowed then Cost(op, d) else 0.0;
            var after := After(bs, op, d, allowed);
            && Healthy(Find(after, t), op.now)
            && Level(after, t, capacity, op.now) + net == Level(bs, t, capacity, op.now)
  {
    NoTimeNoGain(capacity as real);
    RefilledBounds(Find(bs, t), capacity, op.now);
  }

  /** What was taken over a stretch came out of the level and the refill. */
  ghost predicate Accounted(l: Limiter, l': Limiter, net: real, d: Dimension, t: Tenant, capacity: int, start: Time, end: Time) {
    && Healthy(Find(Of(l', d), t), end)
    && Level(Of(l', d), t, capacity, end) + net
       <= Level(Of(l, d), t, capacity, start) + Gain(Seconds(end - start), capacity as real)
  }

  lemma Stretches(l0: Limiter, l1: Limiter, l2: Limiter, n1: real, n2: real, d: Dimension, t: Tenant, capacity: int,
                  start: Time, mid: Time, end: Time)
    requires Accounted(l0, l1, n1, d, t, capacity, start, mid) && Accounted(l1, l2, n2, d, t, capacity, mid, end)
    ensures Accounted(l0, l2, n1 + n2, d, t, capacity, start, end)
  {
    GainAdds(Seconds(mid - start), Seconds(end - mid), capacity as real);
    assert Seconds(mid - start) + Seconds(end - mid) == Seconds(end - start);
  }

  lemma NothingTaken(l: Limiter, d: Dimension, t: Tenant, capacity: int, clock: Time)
    requires Healthy(Find(Of(l, d), t), clock)
    ensures Accounted(l, l, 0.0, d, t, capacity, clock, clock)
  {
    NoTimeNoGain(capacity as real);
  }

  lemma StepLevel(l: Limiter, op: Op, d: Dimension, t: Tenant, capacity: int, clock: Time)
    requires capacity > 0 && Healthy(Find(Of(l, d), t), clock) && clock <= op.now && Fixed(op, t, d, capacity)
    ensures Accounted(l, Step(l, op).0, Net(l, op, t, d), d, t, capacity, clock, op.now)
  {
    LevelRises(Find(Of(l, d), t), capacity, clock, op.now);
    var l1 := Swept(l, op);
    if t in Of(l, d) {
      SweepKeepsLevel(Of(l, d)[t], capacity, op.now);
    }
    assert Level(Of(l1, d), t, capacity, op.now) == Level(Of(l, d), t, capacity, op.now);
    AfterLevel(Of(l1, d), op, d, if op.Allow? then Decide(l1, op).allowed else true, t, capacity);
  }

  lemma {:induction false} RunLevel(l: Limiter, run: seq<Op>, d: Dimension, t: Tenant, capacity: int, clock: Time)
    requires capacity > 0 && Healthy(Find(Of(l, d), t), clock) && ClockOrdered(run, clock)
    requires forall i :: 0 <= i < |run| ==> Fixed(run[i], t, d, capacity)
    ensures Accounted(l, StepAll(l, run), NetOver(l, run, t, d), d, t, capacity, clock, Clock(run, clock))
  {
    if |run| == 0 {
      NothingTaken(l, d, t, capacity, clock);
    } else {
      var n := |run| - 1;
      var mid, before, op := StepAll(l, run[..n]), Clock(run[..n], clock), run[n];
      RunLevel(l, run[..n], d, t, capacity, clock);
      StepLevel(mid, op, d, t, capacity, before);
      Stretches(l, mid, Step(mid, op).0, NetOver(l, run[..n], t, d), Net(mid, op, t, d), d, t, capacity, clock, before, op.now);
    }
  }

  /** Over any interval, from any reachable state and with sweeps anywhere, what
      a tenant is admitted less what refunds really gave back stays within one full bucket
      plus what the interval refills: requests against the request ceiling,
      tokens against the token ceiling. */
  lemma AdmissionWithinRate(l: Limiter, run: seq<Op>, d: Dimension, t: Tenant, capacity: int, clock: Time)
    requires capacity > 0 && Healthy(Find(Of(l, d), t), clock) && ClockOrdered(run, clock)
    requires forall i :: 0 <= i < |run| ==> Fixed(run[i], t, d, capacity)
    ensures NetOver(l, run, t, d)
         <= capacity as real + Gain(Seconds(Clock(run, clock) - clock), capacity as real)
  {
    RunLevel(l, run, d, t, capacity, clock);
    RefilledBounds(Find(Of(l, d), t), capacity, clock);
    RefilledBounds(Find(Of(StepAll(l, run), d), t), capacity, Clock(run, clock));
  }

  // ---------------------------------------------------------------------
  // When it sweeps
  // ---------------------------------------------------------------------

  /** At most one pass per horizon; a clock that stepped back re-arms it. */
  predicate Due(sweptAt: Option<Time>, now: Time) {
    sweptAt.None? || sweptAt.value <= now || sweptAt.value > now + IDLE_TTL
  }

  function Armed(sweptAt: Option<Time>, op: Op): Option<Time> {
    if op.Allow? && Due(sweptAt, op.now) then Some(op.now + IDLE_TTL) else sweptAt
  }

  function ArmedAfter(run: seq<Op>): Option<Time> {
    if |run| == 0 then None else Armed(ArmedAfter(run[..|run| - 1]), run[|run| - 1])
  }

  /** The run's sweeps are the timer's. */
  ghost predicate Scheduled(run: seq<Op>) {
    |run| > 0 ==>
      && Scheduled(run[..|run| - 1])
      && var op := run[|run| - 1]; op.Allow? ==> op.sweep == Due(ArmedAfter(run[..|run| - 1]), op.now)
  }

  /** The call swept, less than a horizon before the instant. */
  predicate SweptLately(op: Op, now: Time) { op.Allow? && op.sweep && now < op.now + IDLE_TTL }

  /** Whatever the clock did before, a call leaves the next sweep due within a
      horizon. */
  lemma ArmedAhead(run: seq<Op>)
    requires |run| > 0 && run[|run| - 1].Allow?
    ensures ArmedAfter(run).Some? && run[|run| - 1].now < ArmedAfter(run).value <= run[|run| - 1].now + IDLE_TTL
  {
  }

  lemma {:induction false} ArmedByTheLastSweep(run: seq<Op>, clock: Time, now: Time)
    requires ClockOrdered(run, clock) && Scheduled(run) && Clock(run, clock) <= now
    ensures Due(ArmedAfter(run), now) <==> forall j :: 0 <= j < |run| ==> !SweptLately(run[j], now)
    ensures ArmedAfter(run).Some? ==> ArmedAfter(run).value <= Clock(run, clock) + IDLE_TTL
    decreases |run|
  {
    if |run| > 0 {
      var init, op := run[..|run| - 1], run[|run| - 1];
      ArmedByTheLastSweep(init, clock, op.now);
      ArmedByTheLastSweep(init, clock, now);
      assert forall j :: 0 <= j < |init| ==> run[j] == init[j];
    }
  }

  /** A call sweeps exactly when none did within the last horizon. */
  lemma SweepsOncePerHorizon(run: seq<Op>, op: Op, clock: Time)
    requires ClockOrdered(run + [op], clock) && Scheduled(run + [op]) && op.Allow?
    ensures op.sweep <==> forall j :: 0 <= j < |run| ==> !SweptLately(run[j], op.now)
  {
    assert (run + [op])[..|run|] == run;
    assert forall j :: 0 <= j < |run| ==> (run + [op])[j] == run[j];
    assert (run + [op])[|run|] == op;
    ArmedByTheLastSweep(run, clock, op.now);
  }

  ghost predicate TouchedSince(l: Limiter, bound: Time) {
    forall t, d {:trigger t in Of(l, d)} :: t in Of(l, d) ==> Of(l, d)[t].last > bound
  }

  lemma StepTouches(l: Limiter, op: Op, bound: Time)
    requires TouchedSince(l, bound) && bound < op.now
    ensures TouchedSince(Step(l, op).0, bound)
  {
    forall t, d | t in Of(Step(l, op).0, d) ensures Of(Step(l, op).0, d)[t].last > bound {
      assert t in Of(l, d) ==> Of(l, d)[t].last > bound;
    }
  }

  lemma SweepTouches(l: Limiter, op: Op)
    requires op.Allow? && op.sweep
    ensures TouchedSince(Step(l, op).0, op.now - IDLE_TTL)
  {
    forall t, d | t in Of(Step(l, op).0, d) ensures Of(Step(l, op).0, d)[t].last > op.now - IDLE_TTL {
    }
  }

  lemma {:induction false} TouchedSinceLastSweep(run: seq<Op>, clock: Time)
    requires ClockOrdered(run, clock) && Scheduled(run)
    ensures ArmedAfter(run).Some? ==> TouchedSince(StepAll(Empty(), run), ArmedAfter(run).value - 2 * IDLE_TTL)
    decreases |run|
  {
    if |run| > 0 {
      var init, op := run[..|run| - 1], run[|run| - 1];
      var l := StepAll(Empty(), init);
      TouchedSinceLastSweep(init, clock);
      ArmedByTheLastSweep(init, clock, op.now);
      if op.Allow? && op.sweep {
        SweepTouches(l, op);
      } else if ArmedAfter(init).Some? {
        StepTouches(l, op, ArmedAfter(init).value - 2 * IDLE_TTL);
      }
    }
  }

  /** Memory is bounded by the traffic of two horizons: after a call every bucket
      was touched within them. */
  lemma BucketsOfTwoHorizons(run: seq<Op>, clock: Time)
    requires ClockOrdered(run, clock) && Scheduled(run) && |run| > 0 && run[|run| - 1].Allow?
    ensures TouchedSince(StepAll(Empty(), run), run[|run| - 1].now - 2 * IDLE_TTL)
  {
    TouchedSinceLastSweep(run, clock);
    ArmedAhead(run);
    var l := StepAll(Empty(), run);
    forall t, d | t in Of(l, d) ensures Of(l, d)[t].last > run[|run| - 1].now - 2 * IDLE_TTL {
    }
  }

  // ---------------------------------------------------------------------
  // The limiter in place
  // ---------------------------------------------------------------------

  class TokenBuckets {
    var rpm: Buckets
    var tpm: Buckets
    var sweptAt: Option<Time>

    ghost function Value(): Limiter
      reads this
    {
      Limiter(rpm, tpm)
    }

    constructor ()
      ensures Value() == Limiter(map[], map[]) && sweptAt == None
    {
      rpm, tpm, sweptAt := map[], map[], None;
    }

    method Allow(t: Tenant, limits: Limits, tokens: int, now: Time) returns (decision: Decision)
      modifies this
      ensures var op := Op.Allow(t, limits, tokens, now, Due(old(sweptAt), now));
              (Value(), decision) == Step(old(Value()), op) && sweptAt == Armed(old(sweptAt), op)
    {
      ghost var op := Op.Allow(t, limits, tokens, now, Due(sweptAt, now));
      SweepIfDue(now);
      ghost var l1 := Value();
      var r := Refill(Find(rpm, t), limits.rpm, now);
      var k := Refill(Find(tpm, t), limits.tpm, now);
      var rpmOK := limits.rpm <= 0 || r.tokens >= 1.0;
      var tpmOK := limits.tpm <= 0 || k.tokens >= tokens as real;
      if rpmOK && tpmOK {
        if limits.rpm > 0 {
          r := r.(tokens := r.tokens - 1.0);
        }
        if limits.tpm > 0 {
          k := k.(tokens := k.tokens - tokens as real);
        }
        rpm, tpm := rpm[t := r], tpm[t := k];
        return Decision(true, 0);
      }
      rpm, tpm := rpm[t := r], tpm[t := k];
      var wait := 0;
      if !rpmOK {
        wait := DeficitWait(1.0 - r.tokens, limits.rpm);
      }
      if !tpmOK {
        var tpmWait := DeficitWait(tokens as real - k.tokens, limits.tpm);
        if tpmWait > wait {
          wait := tpmWait;
        }
      }
      WaitNonNegative(1.0 - r.tokens, limits.rpm);
      decision := Decision(false, wait);
    }

    /** Unconsumed tokens go back, never past the capacity. */
    method Refund(t: Tenant, limits: Limits, tokens: int, now: Time)
      modifies this
      ensures Value() == Step(old(Value()), Op.Refund(t, limits, tokens, now)).0 && sweptAt == old(sweptAt)
    {
      if tokens <= 0 || limits.tpm <= 0 {
        return;
      }
      var r := Refill(Find(rpm, t), limits.rpm, now);
      var k := Refill(Find(tpm, t), limits.tpm, now);
      rpm, tpm := rpm[t := r], tpm[t := k.(tokens := MinReal(k.tokens + tokens as real, limits.tpm as real))];
    }

    method Refill(b: Option<Bucket>, capacity: int, now: Time) returns (r: Bucket)
      ensures r == Refilled(b, capacity, now)
    {
      match b {
        case None =>
          r := Bucket(capacity as real, now);
        case Some(b) =>
          var tokens := b.tokens;
          if capacity > 0 {
            tokens := MinReal(capacity as real, b.tokens + Gain(Seconds(now - b.last), capacity as real));
          }
          r := Bucket(tokens, now);
      }
    }

    method SweepIfDue(now: Time)
      modifies this
      ensures Value() == if Due(old(sweptAt), now) then Limiter(Kept(old(rpm), now), Kept(old(tpm), now)) else old(Value())
      ensures sweptAt == if Due(old(sweptAt), now) then Some(now + IDLE_TTL) else old(sweptAt)
    {
      if sweptAt.None? || sweptAt.value <= now || sweptAt.value > now + IDLE_TTL {
        rpm := SweepIdle(rpm, now - IDLE_TTL);
        tpm := SweepIdle(tpm, now - IDLE_TTL);
        sweptAt := Some(now + IDLE_TTL);
      }
    }

    static method SweepIdle(bs: Buckets, cutoff: Time) returns (kept: Buckets)
      ensures kept == bs - set t | t in bs && bs[t].last <= cutoff
    {
      kept := bs;
      var todo := bs.Keys;
      while todo != {}
        invariant todo <= kept.Keys && kept.Keys <= bs.Keys
        invariant forall t :: t in bs ==> (t in kept <==> t in todo || bs[t].last > cutoff)
        invariant forall t :: t in kept ==> kept[t] == bs[t]
        decreases todo
      {
        var t :| t in todo;
        todo := todo - {t};
        if !(bs[t].last > cutoff) {
          kept := kept - {t};
        }
      }
    }
  }

  lemma GainGrows(a: real, b: real, capacity: real)
    requires a <= b && capacity > 0.0
    ensures Gain(a, capacity) <= Gain(b, capacity)
  {
    assert (b - a) * (capacity / 60.0) >= 0.0;
    GainAdds(a, b - a, capacity);
    assert a + (b - a) == b;
  }

  lemma GainInverse(deficit: real, capacity: real)
    requires capacity > 0.0
    ensures Gain(deficit / (capacity / 60.0), capacity) == deficit
  {
  }

  /** The reported wait covers the deficit to within a nanosecond, unless it is
      saturated. */
  lemma WaitCoversDeficit(deficit: real, capacity: int)
    requires capacity > 0 && deficit > 0.0 && DeficitWait(deficit, capacity) < MAX_INT64
    ensures Gain(Seconds(DeficitWait(deficit, capacity) + 1), capacity as real) >= deficit
  {
    var seconds := deficit / (capacity as real / 60.0);
    GainInverse(deficit, capacity as real);
    var wait := DeficitWait(deficit, capacity);
    assert (wait + 1) as real >= seconds * 1_000_000_000.0;
    GainGrows(seconds, Seconds(wait + 1), capacity as real);
  }

  lemma WaitNonNegative(deficit: real, capacity: int)
    ensures DeficitWait(deficit, capacity) >= 0
  {
  }

  // ---------------------------------------------------------------------
  // Waiting as told
  // ---------------------------------------------------------------------

  /** The same call at another instant. */
  function Again(op: Op, now: Time, sweep: bool): Op
    requires op.Allow?
  {
    op.(now := now, sweep := sweep)
  }

  /** The call could ever be admitted: it costs no more than a full bucket. */
  predicate Affordable(op: Op) {
    (op.limits.rpm > 0 ==> Cost(op, Rpm) <= op.limits.rpm as real) && (op.limits.tpm > 0 ==> Cost(op, Tpm) <= op.limits.tpm as real)
  }

  /** What a refused call leaves of the bucket that decides a dimension. */
  lemma RefusedLeaves(l: Limiter, op: Op, d: Dimension)
    requires op.Allow? && !Step(l, op).1.allowed
    ensures Find(Of(Step(l, op).0, d), op.tenant) == Some(Bucket(Level(Of(Swept(l, op), d), op.tenant, Cap(op.limits, d), op.now), op.now))
  {
  }

  /** A bucket asked again later: what it held and what it earned, up to full; full
      at once if a sweep took it. */
  lemma LevelLater(l: Limiter, op: Op, d: Dimension, level: real, later: Time)
    requires op.Allow? && Cap(op.limits, d) > 0 && Find(Of(l, d), op.tenant) == Some(Bucket(level, op.now))
    ensures var again := Again(op, later, op.sweep);
            Level(Of(Swept(l, again), d), op.tenant, Cap(op.limits, d), later) ==
              if op.sweep && op.now <= later - IDLE_TTL then Cap(op.limits, d) as real
              else MinReal(Cap(op.limits, d) as real, level + Gain(Seconds(later - op.now), Cap(op.limits, d) as real))
  {
  }

  /** A dimension whose deficit the wait covers fits after it, and so does one that
      fitted already. */
  lemma FitsAfterWait(l: Limiter, l': Limiter, op: Op, d: Dimension, wait: Time, sweep: bool)
    requires op.Allow? && Affordable(op) && WaitFor(l, op, d) <= wait < MAX_INT64
    requires Find(Of(l', d), op.tenant) == Some(Bucket(Level(Of(l, d), op.tenant, Cap(op.limits, d), op.now), op.now))
    ensures Fits(Swept(l', Again(op, op.now + wait + 1, sweep)), Again(op, op.now + wait + 1, sweep), d)
  {
    var capacity, cost := Cap(op.limits, d), Cost(op, d);
    if capacity > 0 {
      var level := Level(Of(l, d), op.tenant, capacity, op.now);
      WaitNonNegative(cost - level, capacity);
      LevelLater(l', op.(sweep := sweep), d, level, op.now + wait + 1);
      GainBasics(Seconds(wait + 1), capacity as real);
      if !Fits(l, op, d) {
        WaitCoversDeficit(cost - level, capacity);
        GainGrows(Seconds(DeficitWait(cost - level, capacity) + 1), Seconds(wait + 1), capacity as real);
      }
    }
  }

  /** A refused call that a full bucket could pay for is admitted when it is asked
      again a nanosecond after the wait it was told, nothing asked in between, with
      or without a sweep; unless the wait is saturated. It is told to wait at least
      a millisecond, an admitted one not at all. */
  lemma WaitingSuffices(l: Limiter, op: Op, sweep: bool)
    requires op.Allow? && Affordable(op)
    ensures var (l', told) := Step(l, op);
            if told.allowed then told.retryAfter == 0
            else
              && MILLISECOND <= told.retryAfter <= MAX_INT64
              && (told.retryAfter < MAX_INT64 ==> Step(l', Again(op, op.now + told.retryAfter + 1, sweep)).1.allowed)
  {
    var (l', told) := Step(l, op);
    if !told.allowed {
      var l1 := Swept(l, op);
      RefusedLeaves(l, op, Rpm);
      RefusedLeaves(l, op, Tpm);
      if told.retryAfter < MAX_INT64 {
        FitsAfterWait(l1, l', op, Rpm, told.retryAfter, sweep);
        FitsAfterWait(l1, l', op, Tpm, told.retryAfter, sweep);
      }
    }
  }

  lemma GainGrowsStrictly(a: real, b: real, capacity: real)
    requires a < b && capacity > 0.0
    ensures Gain(a, capacity) < Gain(b, capacity)
  {
    assert (b - a) * (capacity / 60.0) > 0.0;
    GainAdds(a, b - a, capacity);
    assert a + (b - a) == b;
  }

  /** Above the floor the wait is no nanosecond too long. */
  lemma WaitIsTight(deficit: real, capacity: int)
    requires capacity > 0 && deficit > 0.0 && DeficitWait(deficit, capacity) > MILLISECOND
    ensures Gain(Seconds(DeficitWait(deficit, capacity) - 1), capacity as real) < deficit
  {
    var seconds := deficit / (capacity as real / 60.0);
    GainInverse(deficit, capacity as real);
    GainGrowsStrictly(Seconds(DeficitWait(deficit, capacity) - 1), seconds, capacity as real);
  }

  /** Where a full bucket suffices and none is in debt, no wait reaches the horizon
      of the sweep. */
  lemma WaitIsShort(deficit: real, capacity: int)
    requires capacity > 0 && 0.0 < deficit <= capacity as real
    ensures DeficitWait(deficit, capacity) < IDLE_TTL
  {
    var seconds := deficit / (capacity as real / 60.0);
    GainInverse(deficit, capacity as real);
    if seconds > 60.0 {
      GainGrowsStrictly(60.0, seconds, capacity as real);
    }
  }

  lemma MissesBeforeWait(l: Limiter, l': Limiter, op: Op, d: Dimension, sweep: bool)
    requires op.Allow? && !Fits(l, op, d) && WaitFor(l, op, d) > MILLISECOND
    requires Level(Of(l, d), op.tenant, Cap(op.limits, d), op.now) >= 0.0
    requires Find(Of(l', d), op.tenant) == Some(Bucket(Level(Of(l, d), op.tenant, Cap(op.limits, d), op.now), op.now))
    ensures var again := Again(op, op.now + WaitFor(l, op, d) - 1, sweep); !Fits(Swept(l', again), again, d)
  {
    var capacity, cost := Cap(op.limits, d), Cost(op, d);
    var level, wait := Level(Of(l, d), op.tenant, capacity, op.now), WaitFor(l, op, d);
    LevelLater(l', op.(sweep := sweep), d, level, op.now + wait - 1);
    WaitIsTight(cost - level, capacity);
    if cost <= capacity as real {
      WaitIsShort(cost - level, capacity);
    }
  }

  /** And the wait is not a nanosecond too long: told more than a millisecond, the
      same call one nanosecond before its time is refused again. */
  lemma WaitingLessDoesNot(l: Limiter, op: Op, sweep: bool)
    requires op.Allow? && !Step(l, op).1.allowed && Step(l, op).1.retryAfter > MILLISECOND
    requires Healthy(Find(l.rpm, op.tenant), op.now) && Healthy(Find(l.tpm, op.tenant), op.now)
    ensures var (l', told) := Step(l, op);
            !Step(l', Again(op, op.now + told.retryAfter - 1, sweep)).1.allowed
  {
    var (l', told) := Step(l, op);
    var l1 := Swept(l, op);
    var d := if WaitFor(l1, op, Rpm) >= WaitFor(l1, op, Tpm) then Rpm else Tpm;
    RefusedLeaves(l, op, d);
    RefilledBounds(Find(Of(l1, d), op.tenant), Cap(op.limits, d), op.now);
    MissesBeforeWait(l1, l', op, d, sweep);
  }
}
