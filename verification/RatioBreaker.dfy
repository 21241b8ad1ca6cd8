/** The ratio strategy: a deny probability over the rolling window, and the
    forced pass that is meant to keep traffic trickling through. */
module RatioBreaker {
  import opened Basics
  import opened RollingWindow
  import opened BucketRing
  import G = Governor

  const PROTECTION := 5
  const FORCE_PASS := 1_000_000_000

  datatype LastPass = Never | At(time: Time)

  /** One upstream's guard as a value. */
  datatype Guard = Guard(window: Window, lastPass: LastPass)

  function Opened(now: Time): Guard { Guard(Window(now, 0, []), Never) }

  datatype History = History(total: nat, accepts: nat, failing: nat, working: nat)

  // ---------------------------------------------------------------------
  // Reading the window
  // ---------------------------------------------------------------------

  /** Failure-only buckets since the last bucket with a healthy answer. */
  function FailingRun(log: seq<Entry>, lo: int, hi: int): (n: nat)
    ensures n <= Max(hi - lo, 0)
    decreases hi - lo
  {
    if lo >= hi || InSlot(log, hi - 1).x > 0 then 0
    else FailingRun(log, lo, hi - 1) + if InSlot(log, hi - 1).y > 0 then 1 else 0
  }

  /** Buckets with healthy answers since the last bucket with a failure. */
  function WorkingRun(log: seq<Entry>, lo: int, hi: int): (n: nat)
    ensures n <= Max(hi - lo, 0)
    decreases hi - lo
  {
    if lo >= hi || InSlot(log, hi - 1).y > 0 then 0
    else WorkingRun(log, lo, hi - 1) + if InSlot(log, hi - 1).x > 0 then 1 else 0
  }

  function Observed(w: Window, now: Time): (h: History)
    ensures h.failing <= BUCKETS && h.working <= BUCKETS && h.accepts <= h.total
  {
    var lo, hi := w.mark + Lag(w, now) - BUCKETS + 1, w.mark + 1;
    var t := Read(w, now);
    History(t.x + t.y + t.z, t.x, FailingRun(w.log, lo, hi), WorkingRun(w.log, lo, hi))
  }

  method ReadHistory(ring: Ring, now: Time) returns (h: History)
    requires ring.Valid()
    ensures h == Observed(ring.window, now)
  {
    var span := if now - ring.lastWrite < 0 then 0 else (now - ring.lastWrite) / SPAN;
    var diff := BUCKETS - span;
    var total, accepts, failing, working := 0, 0, 0, 0;
    if diff > 0 {
      var start := (ring.offset + span + 1) % BUCKETS;
      ghost var w := ring.window;
      ghost var lo := w.mark + span - BUCKETS + 1;
      var i := 0;
      while i < diff
        invariant 0 <= i <= diff
        invariant (var t := SlotsFrom(w.log, lo, lo + i); total == t.x + t.y + t.z && accepts == t.x)
        invariant failing == FailingRun(w.log, lo, lo + i)
        invariant working == WorkingRun(w.log, lo, lo + i)
      {
        CursorOrdinal(w.mark, span, i);
        assert ring.Holds(lo + i);
        var b := ring.buckets[(start + i) % BUCKETS];
        total := total + b.x + b.y + b.z;
        accepts := accepts + b.x;
        if b.y > 0 {
          working := 0;
        } else if b.x > 0 {
          working := working + 1;
        }
        if b.x > 0 {
          failing := 0;
        } else if b.y > 0 {
          failing := failing + 1;
        }
        i := i + 1;
      }
    }
    h := History(total, accepts, failing, working);
  }

  // ---------------------------------------------------------------------
  // Admission
  // ---------------------------------------------------------------------

  function Weight(failing: nat): real {
    var w := 1.5 - (1.5 - 1.1) * (failing as real / BUCKETS as real);
    if w > 1.1 then w else 1.1
  }

  function DropRatio(h: History): real {
    ((h.total - PROTECTION) as real - Weight(h.failing) * h.accepts as real) / (h.total + 1) as real
  }

  /** The deny probability once working buckets have diluted it. */
  function DenyChance(h: History): real {
    DropRatio(h) * ((BUCKETS - h.working) as real / BUCKETS as real)
  }

  predicate ForcedPassDue(g: Guard, now: Time) {
    g.lastPass.At? && now - g.lastPass.time >= FORCE_PASS
  }

  /** The decision for a given ratio, its diluted chance and a uniform draw: the
      new guard and whether the call may proceed. */
  function Decide(g: Guard, now: Time, draw: real, ratio: real, chance: real): (Guard, bool) {
    if ratio <= 0.0 then (g, true)
    else if ForcedPassDue(g, now) then (Guard(g.window, At(now)), true)
    else if draw < chance then (Guard(Write(g.window, now, Tally(0, 0, 1)), g.lastPass), false)
    else (Guard(g.window, At(now)), true)
  }

  /** One admission. */
  function Admit(g: Guard, now: Time, draw: real): (Guard, bool) {
    var h := Observed(g.window, now);
    Decide(g, now, draw, DropRatio(h), DenyChance(h))
  }

  function Told(g: Guard, now: Time, outcome: G.Outcome): Guard {
    match outcome
    case Success | ClientFault | Slow => g.(window := Write(g.window, now, Tally(1, 0, 0)))
    case ServerFault => g.(window := Write(g.window, now, Tally(0, 1, 0)))
    case GatewayTerminated => g
  }

  /** One admitted call, to be reported once. */
  class Permission {
    var reported: bool

    constructor ()
      ensures !reported
    {
      reported := false;
    }
  }

  class RatioGuard {
    const ring: Ring
    var lastPass: LastPass

    ghost predicate Valid()
      reads this, ring, ring.buckets
    {
      ring.Valid()
    }

    ghost function Value(): Guard
      reads this, ring
    {
      Guard(ring.window, lastPass)
    }

    constructor (now: Time)
      ensures Valid() && Value() == Opened(now) && fresh(ring) && fresh(ring.buckets)
    {
      ring := new Ring(now);
      lastPass := Never;
    }

    method Allow(now: Time, draw: real) returns (p: Permission?)
      requires Valid()
      modifies this, ring, ring.buckets
      ensures Valid() && ring.buckets == old(ring.buckets)
      ensures (Value(), p != null) == Admit(old(Value()), now, draw)
      ensures p != null ==> fresh(p) && !p.reported
    {
      var h := ReadHistory(ring, now);
      var admitted := Judge(now, draw, DropRatio(h), DenyChance(h));
      p := null;
      if admitted {
        p := new Permission();
      }
    }

    method Judge(now: Time, draw: real, ratio: real, chance: real) returns (admitted: bool)
      requires Valid()
      modifies this, ring, ring.buckets
      ensures Valid() && ring.buckets == old(ring.buckets)
      ensures (Value(), admitted) == Decide(old(Value()), now, draw, ratio, chance)
    {
      if ratio <= 0.0 {
        return true;
      }
      if lastPass.At? && now - lastPass.time >= FORCE_PASS {
        lastPass := At(now);
        return true;
      }
      if draw < chance {
        ring.Add(now, Tally(0, 0, 1));
        return false;
      }
      lastPass := At(now);
      return true;
    }

    /** The first report counts; a second one is absorbed. */
    method Report(p: Permission, now: Time, outcome: G.Outcome)
      requires Valid()
      modifies ring, ring.buckets, p
      ensures Valid() && ring.buckets == old(ring.buckets) && p.reported
      ensures Value() == if old(p.reported) then old(Value()) else Told(old(Value()), now, outcome)
    {
      if p.reported {
        return;
      }
      p.reported := true;
      match outcome {
        case Success | ClientFault | Slow => ring.Add(now, Tally(1, 0, 0));
        case ServerFault => ring.Add(now, Tally(0, 1, 0));
        case GatewayTerminated =>
      }
    }

    /** An operator clearing the guard. */
    method Reset(now: Time)
      requires Valid()
      modifies this, ring, ring.buckets
      ensures Valid() && ring.buckets == old(ring.buckets)
      ensures Value() == Opened(now)
    {
      ring.Reinit(now);
      lastPass := Never;
    }
  }

  // ---------------------------------------------------------------------
  // What the guard promises
  // ---------------------------------------------------------------------

  lemma Quotient(a: real, b: real)
    requires b > 0.0
    ensures a <= 0.0 ==> a / b <= 0.0
    ensures a < b ==> a / b < 1.0
    ensures a > 0.0 ==> a / b > 0.0
  {
    var q := a / b;
    assert q * b == a;
    assert (q - 1.0) * b == a - b;
    if q >= 1.0 {
      ProductSign(q - 1.0, b);
    }
    if q <= 0.0 {
      ProductSign(0.0 - q, b);
      assert (0.0 - q) * b == 0.0 - a;
    }
    if a <= 0.0 && q > 0.0 {
      ProductPositive(q, b);
    }
  }

  lemma ProductPositive(a: real, b: real)
    requires a > 0.0 && b > 0.0
    ensures a * b > 0.0
  {
  }

  lemma RatioSign(over: real, weighted: real, b: real)
    requires b > 0.0 && weighted >= 0.0 && over < b
    ensures (over - weighted) / b > 0.0 <==> over > weighted
    ensures (over - weighted) / b < 1.0
  {
    Quotient(over - weighted, b);
  }

  lemma ProductSign(a: real, b: real)
    requires a >= 0.0 && b >= 0.0
    ensures a * b >= 0.0
  {
  }

  /** The ratio is positive exactly when the events beyond the protection
      outnumber the weighted healthy answers, and always below one. */
  lemma DropRatioSign(h: History)
    ensures DropRatio(h) > 0.0 <==> (h.total - PROTECTION) as real > Weight(h.failing) * h.accepts as real
    ensures DropRatio(h) < 1.0
  {
    ProductSign(Weight(h.failing), h.accepts as real);
    var weighted := Weight(h.failing) * h.accepts as real;
    var over, b := (h.total - PROTECTION) as real, (h.total + 1) as real;
    RatioSign(over, weighted, b);
    assert DropRatio(h) == (over - weighted) / b;
  }

  lemma SmallHistory(h: History)
    requires h.total <= PROTECTION
    ensures DropRatio(h) <= 0.0
  {
    ProductSign(Weight(h.failing), h.accepts as real);
    DropRatioSign(h);
  }

  /** Five or fewer recorded events never deny, whatever the draw. */
  lemma SmallWindowAdmits(g: Guard, now: Time, draw: real)
    requires Observed(g.window, now).total <= PROTECTION
    ensures Admit(g, now, draw) == (g, true)
  {
    SmallHistory(Observed(g.window, now));
  }

  /** Idle time keeps no grudge: nothing in the last forty buckets admits. */
  lemma IdleWindowAdmits(g: Guard, clock: Time, now: Time, draw: real)
    requires Sound(g.window, clock) && clock <= now
    requires Happened(g.window.base, g.window.log, Horizon(g.window, now)) == Tally(0, 0, 0)
    ensures Admit(g, now, draw) == (g, true)
  {
    ReadNeverOvercounts(g.window, clock, now);
    SmallWindowAdmits(g, now, draw);
  }

  lemma Diluted(r: real, share: real)
    requires r < 1.0 && 0.0 <= share <= 1.0
    ensures r * share < 1.0
  {
    if r > 0.0 {
      assert r * share <= r * 1.0;
    }
  }

  /** The deny chance stays below one, so a high enough draw always passes. */
  lemma DenyChanceBelowOne(h: History)
    requires h.working <= BUCKETS
    ensures DenyChance(h) < 1.0
  {
    DropRatioSign(h);
    Diluted(DropRatio(h), (BUCKETS - h.working) as real / BUCKETS as real);
  }

  /** The weight of a healthy answer falls evenly from one and a half to one and a
      tenth as the run of failing buckets grows to the whole window. */
  lemma WeightFalls(failing: nat)
    requires failing <= 40
    ensures Weight(failing) == 1.5 - failing as real / 100.0
  {
    assert 0.4 * (failing as real / 40.0) == failing as real / 100.0;
  }

  /** A bucket with a failure, and no healthy answer from it on. */
  ghost predicate FailsSince(log: seq<Entry>, j: int, hi: int) {
    InSlot(log, j).y > 0 && forall k :: j <= k < hi ==> InSlot(log, k).x == 0
  }

  /** A bucket with a healthy answer, and no failure from it on. */
  ghost predicate WorksSince(log: seq<Entry>, j: int, hi: int) {
    InSlot(log, j).x > 0 && forall k :: j <= k < hi ==> InSlot(log, k).y == 0
  }

  ghost function FailingBuckets(log: seq<Entry>, lo: int, hi: int): set<int> {
    set j | lo <= j < hi && FailsSince(log, j, hi)
  }

  ghost function WorkingBuckets(log: seq<Entry>, lo: int, hi: int): set<int> {
    set j | lo <= j < hi && WorksSince(log, j, hi)
  }

  lemma OneBucketMore(log: seq<Entry>, j: int, hi: int)
    requires j < hi
    ensures FailsSince(log, j, hi) <==> InSlot(log, hi - 1).x == 0 && if j == hi - 1 then InSlot(log, j).y > 0 else FailsSince(log, j, hi - 1)
    ensures WorksSince(log, j, hi) <==> InSlot(log, hi - 1).y == 0 && if j == hi - 1 then InSlot(log, j).x > 0 else WorksSince(log, j, hi - 1)
  {
  }

  lemma {:induction false} FailingRunCounts(log: seq<Entry>, lo: int, hi: int)
    ensures FailingRun(log, lo, hi) == |FailingBuckets(log, lo, hi)|
    decreases hi - lo
  {
    var all := FailingBuckets(log, lo, hi);
    if lo < hi {
      FailingRunCounts(log, lo, hi - 1);
      FailingNext(log, lo, hi);
    } else {
      assert all == {};
    }
  }

  lemma FailingNext(log: seq<Entry>, lo: int, hi: int)
    requires lo < hi
    ensures FailingBuckets(log, lo, hi) ==
              if InSlot(log, hi - 1).x > 0 then {}
              else FailingBuckets(log, lo, hi - 1) + if InSlot(log, hi - 1).y > 0 then {hi - 1} else {}
  {
    forall j | lo <= j < hi ensures j in FailingBuckets(log, lo, hi) <==> FailsSince(log, j, hi) {
      OneBucketMore(log, j, hi);
    }
  }

  lemma {:induction false} WorkingRunCounts(log: seq<Entry>, lo: int, hi: int)
    ensures WorkingRun(log, lo, hi) == |WorkingBuckets(log, lo, hi)|
    decreases hi - lo
  {
    var all := WorkingBuckets(log, lo, hi);
    if lo < hi {
      WorkingRunCounts(log, lo, hi - 1);
      WorkingNext(log, lo, hi);
    } else {
      assert all == {};
    }
  }

  lemma WorkingNext(log: seq<Entry>, lo: int, hi: int)
    requires lo < hi
    ensures WorkingBuckets(log, lo, hi) ==
              if InSlot(log, hi - 1).y > 0 then {}
              else WorkingBuckets(log, lo, hi - 1) + if InSlot(log, hi - 1).x > 0 then {hi - 1} else {}
  {
    forall j | lo <= j < hi ensures j in WorkingBuckets(log, lo, hi) <==> WorksSince(log, j, hi) {
      OneBucketMore(log, j, hi);
    }
  }

  /** How far the recorded events, five protected, outnumber the weighted healthy
      answers, of all events and one; diluted by the share of the window since the
      last failure that answered well. */
  function ChanceOf(total: nat, accepts: nat, failing: nat, working: nat): real {
    ((total - 5) as real - (1.5 - failing as real / 100.0) * accepts as real) / (total + 1) as real * ((40 - working) as real / 40.0)
  }

  lemma ChanceOfHistory(h: History)
    requires h.failing <= 40
    ensures DenyChance(h) == ChanceOf(h.total, h.accepts, h.failing, h.working)
  {
    WeightFalls(h.failing);
  }

  /** The chance a call is denied, by what the window holds. */
  ghost function Chance(w: Window, now: Time): real {
    var t := Read(w, now);
    var lo, hi := w.mark + Lag(w, now) - 40 + 1, w.mark + 1;
    ChanceOf(t.x + t.y + t.z, t.x, |FailingBuckets(w.log, lo, hi)|, |WorkingBuckets(w.log, lo, hi)|)
  }

  lemma ChanceIsDenyChance(w: Window, now: Time)
    ensures Chance(w, now) == DenyChance(Observed(w, now))
  {
    var lo, hi := w.mark + Lag(w, now) - BUCKETS + 1, w.mark + 1;
    FailingRunCounts(w.log, lo, hi);
    WorkingRunCounts(w.log, lo, hi);
    ChanceOfHistory(Observed(w, now));
  }

  lemma SignOfProduct(a: real, b: real)
    requires b >= 0.0
    ensures a <= 0.0 ==> a * b <= 0.0
  {
  }

  /** A call is denied exactly when it draws below the chance and no pass a second
      old or older is on record; denied it is recorded, let through against a
      positive ratio it is the new last pass. */
  lemma DeniedIff(g: Guard, now: Time, draw: real)
    requires draw >= 0.0
    ensures !Admit(g, now, draw).1 <==> draw < Chance(g.window, now) && !(g.lastPass.At? && now - g.lastPass.time >= 1_000_000_000)
    ensures !Admit(g, now, draw).1 ==> Admit(g, now, draw).0 == Guard(Write(g.window, now, Tally(0, 0, 1)), g.lastPass)
    ensures Admit(g, now, draw).1 ==>
              Admit(g, now, draw).0 == Guard(g.window, if DropRatio(Observed(g.window, now)) > 0.0 then At(now) else g.lastPass)
  {
    var h := Observed(g.window, now);
    ChanceIsDenyChance(g.window, now);
    SignOfProduct(DropRatio(h), (BUCKETS - h.working) as real / BUCKETS as real);
  }

  /** A report counts as healthy or as a failure, a gateway cut as neither. */
  lemma ToldCounts(g: Guard, now: Time, outcome: G.Outcome)
    ensures Told(g, now, outcome).lastPass == g.lastPass
    ensures Told(g, now, outcome).window ==
              if outcome == G.GatewayTerminated then g.window
              else Write(g.window, now, if outcome == G.ServerFault then Tally(0, 1, 0) else Tally(1, 0, 0))
  {
  }

  /** A denial comes less than one interval after the last pass made against
      the guard, if there ever was one. */
  lemma DenialFollowsRecentPass(g: Guard, now: Time, draw: real)
    ensures !Admit(g, now, draw).1 && g.lastPass.At? ==> now - g.lastPass.time < FORCE_PASS
    ensures ForcedPassDue(g, now) ==> Admit(g, now, draw).1
  {
  }

  /** With no pass in the last interval, a call is let through whatever the draw
      exactly when a pass is on record or the deny chance is nothing: the forced
      pass needs an earlier pass to be forced from. */
  lemma IntervalPassIff(g: Guard, now: Time)
    requires g.lastPass.At? ==> now - g.lastPass.time >= FORCE_PASS
    ensures (forall draw :: 0.0 <= draw < 1.0 ==> Admit(g, now, draw).1) <==>
              g.lastPass.At? || DropRatio(Observed(g.window, now)) <= 0.0 || DenyChance(Observed(g.window, now)) <= 0.0
  {
    if g.lastPass.Never? && DropRatio(Observed(g.window, now)) > 0.0 && DenyChance(Observed(g.window, now)) > 0.0 {
      assert !Admit(g, now, 0.0).1;
    }
  }

  // ---------------------------------------------------------------------
  // Whole runs
  // ---------------------------------------------------------------------

  datatype Call = Ask(now: Time, draw: real) | Tell(now: Time, outcome: G.Outcome) | Clear(now: Time)

  function Step(g: Guard, c: Call): Guard {
    match c
    case Ask(now, draw) => Admit(g, now, draw).0
    case Tell(now, outcome) => Told(g, now, outcome)
    case Clear(now) => Opened(now)
  }

  function StepAll(g: Guard, calls: seq<Call>): Guard {
    if |calls| == 0 then g else Step(StepAll(g, calls[..|calls| - 1]), calls[|calls| - 1])
  }

  ghost predicate Admitted(g: Guard, calls: seq<Call>, i: nat)
    requires i < |calls|
  {
    calls[i].Ask? && Admit(StepAll(g, calls[..i]), calls[i].now, calls[i].draw).1
  }

  lemma OnlyAPassIsStamped(g: Guard, c: Call)
    requires Step(g, c).lastPass.At? && Step(g, c).lastPass != g.lastPass
    ensures c.Ask? && Admit(g, c.now, c.draw).1 && Step(g, c).lastPass.time == c.now
  {
  }

  lemma AdmittedBefore(g: Guard, calls: seq<Call>, n: nat, k: nat)
    requires k < n <= |calls|
    ensures Admitted(g, calls[..n], k) == Admitted(g, calls, k)
  {
    assert calls[..n][..k] == calls[..k];
  }

  lemma {:induction false} PassIsOnRecord(g: Guard, calls: seq<Call>)
    requires g.lastPass.Never?
    ensures StepAll(g, calls).lastPass.At? ==>
              exists k :: 0 <= k < |calls| && Admitted(g, calls, k) && calls[k].now == StepAll(g, calls).lastPass.time
    decreases |calls|
  {
    if |calls| > 0 {
      var n := |calls| - 1;
      var init := calls[..n];
      PassIsOnRecord(g, init);
      var before, after := StepAll(g, init), StepAll(g, calls);
      if after.lastPass.At? {
        if after.lastPass == before.lastPass {
          var k :| 0 <= k < |init| && Admitted(g, init, k) && init[k].now == before.lastPass.time;
          AdmittedBefore(g, calls, n, k);
        } else {
          OnlyAPassIsStamped(before, calls[n]);
          assert Admitted(g, calls, n);
        }
      }
    }
  }

  /** Over any run: once a call has passed against a positive ratio, every denial comes
      within one interval of an admitted call. */
  lemma DeniedOnlyNearAPass(g: Guard, calls: seq<Call>, i: nat)
    requires g.lastPass.Never? && i < |calls| && calls[i].Ask? && !Admitted(g, calls, i)
    requires StepAll(g, calls[..i]).lastPass.At?
    ensures exists k :: 0 <= k < i && Admitted(g, calls, k) && calls[i].now - calls[k].now < FORCE_PASS
  {
    var init := calls[..i];
    PassIsOnRecord(g, init);
    DenialFollowsRecentPass(StepAll(g, init), calls[i].now, calls[i].draw);
    var k :| 0 <= k < |init| && Admitted(g, init, k) && init[k].now == StepAll(g, init).lastPass.time;
    AdmittedBefore(g, calls, i, k);
  }

  // ---------------------------------------------------------------------
  // Starvation before the first pass
  // ---------------------------------------------------------------------

  function FailureLog(n: nat): seq<Entry> {
    if n == 0 then [] else FailureLog(n - 1) + [Entry(0, 0, Tally(0, 1, 0))]
  }

  function DenialLog(n: nat, k: nat): seq<Entry> {
    if k == 0 then FailureLog(n) else DenialLog(n, k - 1) + [Entry(k * FORCE_PASS, 4 * k, Tally(0, 0, 1))]
  }

  /** n failures at instant 0, then one denied call a second for k seconds. */
  function Starving(n: nat, k: nat): Window {
    Window(0, 4 * k, DenialLog(n, k))
  }

  /** The window really gets there by reporting n failures. */
  lemma FailuresReachStarving(n: nat)
    ensures Told(Guard(Starving(n, 0), Never), 0, G.ServerFault) == Guard(Starving(n + 1, 0), Never)
  {
    assert Lag(Starving(n, 0), 0) == 0;
  }

  lemma {:induction false} FailuresCount(n: nat)
    ensures Sum(FailureLog(n), Filed(0, 1)) == Tally(0, n, 0)
    ensures forall e :: e in FailureLog(n) ==> e == Entry(0, 0, Tally(0, 1, 0))
  {
    if n > 0 {
      FailuresCount(n - 1);
      SumAppend(FailureLog(n - 1), Entry(0, 0, Tally(0, 1, 0)), Filed(0, 1));
    }
  }

  ghost predicate OnGrid(e: Entry, k: nat) {
    e.amount.x == 0 && 0 <= e.slot <= 4 * k && e.time == e.slot * SPAN && e.time <= k * FORCE_PASS
  }

  lemma {:induction false} DenialLogShape(n: nat, k: nat)
    ensures forall e :: e in DenialLog(n, k) ==> OnGrid(e, k)
  {
    if k == 0 {
      FailuresCount(n);
    } else {
      DenialLogShape(n, k - 1);
      forall e | e in DenialLog(n, k) ensures OnGrid(e, k) {
        if e in DenialLog(n, k - 1) {
          assert OnGrid(e, k - 1);
        }
      }
    }
  }

  lemma {:induction false} FailuresStay(n: nat, k: nat)
    ensures Sum(DenialLog(n, k), Filed(0, 1)).y == n
  {
    if k == 0 {
      FailuresCount(n);
    } else {
      FailuresStay(n, k - 1);
      SumAppend(DenialLog(n, k - 1), Entry(k * FORCE_PASS, 4 * k, Tally(0, 0, 1)), Filed(0, 1));
    }
  }

  /** Four buckets pass between two calls. */
  lemma FourBuckets(k: nat)
    ensures ((k + 1) * FORCE_PASS - (0 + 4 * k * SPAN)) / SPAN == 4
    ensures (k + 1) * FORCE_PASS > 0 + 4 * k * SPAN
  {
  }

  /** The last m denials are all on record above an ordinal they were filed at
      or after. */
  lemma {:induction false} DenialsOnRecord(n: nat, k: nat, m: nat, lo: int, hi: int)
    requires m <= k && lo <= 4 * (k - m + 1) && 4 * k < hi
    ensures Sum(DenialLog(n, k), Filed(lo, hi)).z >= m
    decreases m
  {
    if m > 0 {
      DenialsOnRecord(n, k - 1, m - 1, lo, hi);
      SumAppend(DenialLog(n, k - 1), Entry(k * FORCE_PASS, 4 * k, Tally(0, 0, 1)), Filed(lo, hi));
    }
  }

  lemma {:induction false} NoAccepts(log: seq<Entry>, f: Filter)
    requires forall e :: e in log ==> e.amount.x == 0
    ensures Sum(log, f).x == 0
  {
    if log != [] {
      NoAccepts(log[..|log| - 1], f);
    }
  }

  lemma NoHealth(n: nat, k: nat)
    ensures forall e :: e in DenialLog(n, k) ==> e.amount.x == 0
  {
    DenialLogShape(n, k);
    forall e | e in DenialLog(n, k) ensures e.amount.x == 0 {
      assert OnGrid(e, k);
    }
  }

  lemma StarvingRead(n: nat, k: nat)
    ensures Read(Starving(n, k), (k + 1) * FORCE_PASS) == Sum(DenialLog(n, k), Filed(4 * k - 35, 4 * k + 1))
  {
    FourBuckets(k);
    SlotsAreEntries(DenialLog(n, k), 4 * k - 35, 4 * k + 1);
  }

  lemma StarvingTotal(n: nat, k: nat)
    requires n > PROTECTION
    ensures var t := Read(Starving(n, k), (k + 1) * FORCE_PASS); t.x == 0 && t.x + t.y + t.z > PROTECTION
  {
    StarvingRead(n, k);
    NoHealth(n, k);
    NoAccepts(DenialLog(n, k), Filed(4 * k - 35, 4 * k + 1));
    if k >= 9 {
      DenialsOnRecord(n, k, 9, 4 * k - 35, 4 * k + 1);
    } else {
      FailuresStay(n, k);
      SumMonotone(DenialLog(n, k), Filed(0, 1), Filed(4 * k - 35, 4 * k + 1));
    }
  }

  lemma {:induction false} NothingWorking(log: seq<Entry>, lo: int, hi: int)
    requires forall e :: e in log ==> e.amount.x == 0
    ensures WorkingRun(log, lo, hi) == 0
    decreases hi - lo
  {
    if lo < hi {
      NoAccepts(log, Filed(hi - 1, hi));
      NothingWorking(log, lo, hi - 1);
    }
  }

  lemma NoHealthMeansDenial(h: History)
    requires h.total > PROTECTION && h.accepts == 0 && h.working == 0
    ensures DropRatio(h) > 0.0 && DenyChance(h) > 0.0
  {
    assert Weight(h.failing) * h.accepts as real == 0.0;
    DropRatioSign(h);
    assert DenyChance(h) == DropRatio(h) * 1.0;
  }

  lemma StarvesOnceMore(n: nat, k: nat)
    requires n > PROTECTION
    ensures Admit(Guard(Starving(n, k), Never), (k + 1) * FORCE_PASS, 0.0) == (Guard(Starving(n, k + 1), Never), false)
  {
    var w, now := Starving(n, k), (k + 1) * FORCE_PASS;
    StarvingTotal(n, k);
    NoHealth(n, k);
    NothingWorking(w.log, w.mark + Lag(w, now) - BUCKETS + 1, w.mark + 1);
    NoHealthMeansDenial(Observed(w, now));
    FourBuckets(k);
  }

  /** n failures reported at instant 0, then a call a second, each drawing zero. */
  function Starve(n: nat, k: nat): seq<Call>
    decreases k, n
  {
    if k > 0 then Starve(n, k - 1) + [Ask(k * FORCE_PASS, 0.0)]
    else if n > 0 then Starve(n - 1, 0) + [Tell(0, G.ServerFault)]
    else []
  }

  lemma OneMoreCall(g: Guard, calls: seq<Call>, c: Call)
    ensures StepAll(g, calls + [c]) == Step(StepAll(g, calls), c)
  {
    assert (calls + [c])[..|calls|] == calls;
  }

  lemma {:induction false} FailuresReach(n: nat)
    ensures |Starve(n, 0)| == n && StepAll(Opened(0), Starve(n, 0)) == Guard(Starving(n, 0), Never)
  {
    if n > 0 {
      FailuresReach(n - 1);
      FailuresReachStarving(n - 1);
      OneMoreCall(Opened(0), Starve(n - 1, 0), Tell(0, G.ServerFault));
    }
  }

  lemma {:induction false} StarveReaches(n: nat, k: nat)
    requires n > PROTECTION
    ensures |Starve(n, k)| == n + k && StepAll(Opened(0), Starve(n, k)) == Guard(Starving(n, k), Never)
    decreases k
  {
    if k > 0 {
      StarveReaches(n, k - 1);
      StarvesOnceMore(n, k - 1);
      OneMoreCall(Opened(0), Starve(n, k - 1), Ask(k * FORCE_PASS, 0.0));
    } else {
      FailuresReach(n);
    }
  }

  /** A guard that has never passed a call against a positive ratio has no forced
      pass to fall back on: after more than five failures, a call a second that
      draws zero is denied every time, for as long as it goes on. */
  lemma {:induction false} StarvedForever(n: nat, k: nat, i: nat)
    requires n > PROTECTION && n <= i < n + k
    ensures var calls := Starve(n, k);
            && |calls| == n + k && calls[i] == Ask((i - n + 1) * FORCE_PASS, 0.0)
            && !Admitted(Opened(0), calls, i)
    decreases k
  {
    var before := Starve(n, k - 1);
    StarveReaches(n, k - 1);
    StarvesOnceMore(n, k - 1);
    assert Starve(n, k)[..|before|] == before;
    if i < n + k - 1 {
      StarvedForever(n, k - 1, i);
      assert Starve(n, k)[..i] == before[..i];
    }
  }
}
