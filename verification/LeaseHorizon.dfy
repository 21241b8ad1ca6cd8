/** How long a reservation may live: the configured or derived horizon under
    64-bit durations, and what it means for the sweep. */
module LeaseHorizon {
  import opened Basics
  import opened QuotaLedger

  const TWO_64 := 18_446_744_073_709_551_616
  const HEADROOM := 60_000_000_000
  const UNBOUNDED := 86_400_000_000_000

  /** The durations that bound a request, zero for none, and the configured
      lease horizon, zero for derived. */
  datatype Config = Config(overallDeadline: int, streamTimeout: int, leaseTTL: int)

  /** 64-bit two's complement. */
  function Wrapped(x: int): int { (x + MAX_INT64 + 1) % TWO_64 - MAX_INT64 - 1 }

  function AddDuration(a: int, b: int): int {
    var sum := Wrapped(a + b);
    if sum < 0 then MAX_INT64 else sum
  }

  function RequestBudget(c: Config): Option<int> {
    if c.overallDeadline <= 0 || c.streamTimeout <= 0 then None
    else Some(AddDuration(c.overallDeadline, c.streamTimeout))
  }

  function LeaseTTL(c: Config): int {
    if c.leaseTTL > 0 then c.leaseTTL
    else match RequestBudget(c)
         case Some(budget) => AddDuration(budget, HEADROOM)
         case None => UNBOUNDED
  }

  /** What loading the configuration lets through. */
  predicate Accepted(c: Config) {
    && 0 <= c.overallDeadline <= MAX_INT64 && 0 <= c.streamTimeout <= MAX_INT64 && 0 <= c.leaseTTL <= MAX_INT64
    && !(RequestBudget(c).Some? && c.leaseTTL > 0 && c.leaseTTL <= RequestBudget(c).value)
  }

  lemma AddDurationSaturates(a: int, b: int)
    requires 0 <= a <= MAX_INT64 && 0 <= b <= MAX_INT64
    ensures AddDuration(a, b) == if a + b <= MAX_INT64 then a + b else MAX_INT64
  {
    if a + b <= MAX_INT64 {
      assert Wrapped(a + b) == a + b;
    } else {
      assert Wrapped(a + b) == a + b - TWO_64;
    }
  }

  /** With both request bounds set the horizon is never below the budget, and
      neither wraps. */
  lemma HorizonCoversBudget(c: Config)
    requires Accepted(c) && RequestBudget(c).Some?
    ensures 0 < RequestBudget(c).value <= LeaseTTL(c) <= MAX_INT64
    ensures c.overallDeadline + c.streamTimeout <= MAX_INT64 ==>
              RequestBudget(c).value == c.overallDeadline + c.streamTimeout < LeaseTTL(c) || LeaseTTL(c) == MAX_INT64
  {
    AddDurationSaturates(c.overallDeadline, c.streamTimeout);
    AddDurationSaturates(RequestBudget(c).value, HEADROOM);
  }

  /** The horizon itself: the configured one; else the request's bounds and a
      minute's headroom, cut at the largest duration; else a day. */
  lemma HorizonMeans(c: Config)
    requires 0 <= c.overallDeadline <= MAX_INT64 && 0 <= c.streamTimeout <= MAX_INT64 && 0 <= c.leaseTTL <= MAX_INT64
    ensures LeaseTTL(c) ==
              if c.leaseTTL > 0 then c.leaseTTL
              else if c.overallDeadline > 0 && c.streamTimeout > 0 then
                Min(c.overallDeadline + c.streamTimeout + 60 * 1_000_000_000, MAX_INT64)
              else 24 * 60 * 60 * 1_000_000_000
  {
    AddDurationSaturates(c.overallDeadline, c.streamTimeout);
    AddDurationSaturates(Min(c.overallDeadline + c.streamTimeout, MAX_INT64), HEADROOM);
  }

  /** Loading refuses exactly a negative duration and a configured horizon that a
      request's bounds could outlast. */
  lemma AcceptedIff(c: Config)
    requires c.overallDeadline <= MAX_INT64 && c.streamTimeout <= MAX_INT64 && c.leaseTTL <= MAX_INT64
    ensures !Accepted(c) <==>
              || c.overallDeadline < 0 || c.streamTimeout < 0 || c.leaseTTL < 0
              || (&& c.overallDeadline > 0 && c.streamTimeout > 0 && c.leaseTTL > 0
                  && c.leaseTTL <= Min(c.overallDeadline + c.streamTimeout, MAX_INT64))
  {
    if c.overallDeadline >= 0 && c.streamTimeout >= 0 {
      AddDurationSaturates(c.overallDeadline, c.streamTimeout);
    }
  }

  // ---------------------------------------------------------------------
  // No early reclaim
  // ---------------------------------------------------------------------

  /** An operation that leaves a request's own lease to the request: sweeps come
      within the budget, nobody else settles or cancels it. */
  ghost predicate Within(c: Config, op: Op, id: LeaseId, createdAt: Time, budget: int) {
    match op
    case Sweep(now, _, _, ttl) => ttl == LeaseTTL(c) && now <= createdAt + budget
    case Settle(other, _, _) => other != id
    case Cancel(other, _) => other != id
    case Reserve(_, _, other, _) => other != id
    case SetBalance(_, _) => true
    case EnsureBalance(_, _) => true
  }

  lemma {:induction false} SweepSpares(b: Book, order: seq<LeaseId>, now: Time, limit: int, ttl: Time, id: LeaseId)
    requires Live(b, id) && now <= b.leases[id].createdAt + ttl
    ensures var d := VisitAll(b, order, now, limit, ttl).0; Live(d, id) && d.leases[id] == b.leases[id]
  {
    if |order| > 0 {
      SweepSpares(b, order[..|order| - 1], now, limit, ttl, id);
    }
  }

  /** In every run, a request that settles within its budget finds its lease
      still live: no sweep reclaimed it, so the settlement pays back exactly what
      was not used. */
  lemma {:induction false} LeaseOutlivesRequest(c: Config, b: Book, run: seq<Op>, id: LeaseId)
    requires Accepted(c) && RequestBudget(c).Some? && Live(b, id)
    requires forall i :: 0 <= i < |run| ==> Within(c, run[i], id, b.leases[id].createdAt, RequestBudget(c).value)
    ensures Live(ApplyAll(b, run), id) && ApplyAll(b, run).leases[id] == b.leases[id]
  {
    if |run| > 0 {
      var n := |run| - 1;
      LeaseOutlivesRequest(c, b, run[..n], id);
      var d := ApplyAll(b, run[..n]);
      assert Within(c, run[n], id, b.leases[id].createdAt, RequestBudget(c).value);
      if run[n].Sweep? {
        HorizonCoversBudget(c);
        SweepSpares(d, run[n].order, run[n].now, run[n].limit, run[n].ttl, id);
      }
    }
  }

  /** Without that bound the sweep does reclaim: past the horizon a visited live
      lease is paid back whole. */
  lemma SweepReclaimsPastHorizon(b: Book, id: LeaseId, now: Time, limit: int, ttl: Time)
    requires Live(b, id) && limit >= 1
    ensures (VisitAll(b, [id], now, limit, ttl).1 == 1) <==> now > b.leases[id].createdAt + ttl
    ensures now > b.leases[id].createdAt + ttl ==>
              VisitAll(b, [id], now, limit, ttl).0 == Close(b, id, Expired, b.leases[id].amount, now)
  {
    assert [id][..0] == [];
    assert VisitAll(b, [id][..0], now, limit, ttl) == (b, 0);
  }
}
