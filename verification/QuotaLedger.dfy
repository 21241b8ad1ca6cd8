/** The in-process quota ledger: leases reserve balance, reach one terminal
    state, and give back what they did not spend. */
module QuotaLedger {
  import opened Basics

  type Tenant = string
  type LeaseId = string

  const SCAN_BATCH := 8192
  const AUDIT_TTL := 3_600_000_000_000

  datatype LeaseState = Reserved | Settled | Expired | Cancelled

  datatype Lease = Lease(tenant: Tenant, amount: int, state: LeaseState, createdAt: Time, terminalAt: Time)

  datatype Outcome = Done | UnknownTenant | InsufficientBalance | UnknownLease

  /** What has moved on one tenant's account since the start. */
  datatype Totals = Totals(granted: int, consumed: int, debited: int, refunded: int, epoch: nat)

  /** The ledger and its history: totals per tenant, lease ids ever issued, and
      how often each lease was paid back. */
  datatype Book = Book(
    balances: map<Tenant, int>,
    leases: map<LeaseId, Lease>,
    totals: map<Tenant, Totals>,
    issued: set<LeaseId>,
    credits: map<LeaseId, nat>)

  datatype Op =
    | SetBalance(tenant: Tenant, balance: int)
    | EnsureBalance(tenant: Tenant, balance: int)
    | Reserve(tenant: Tenant, amount: int, id: LeaseId, now: Time)
    | Settle(id: LeaseId, used: int, now: Time)
    | Cancel(id: LeaseId, now: Time)
    | Sweep(now: Time, order: seq<LeaseId>, limit: int, ttl: Time)

  // ---------------------------------------------------------------------
  // The operations
  // ---------------------------------------------------------------------

  function TotalsOf(b: Book, t: Tenant): Totals {
    if t in b.totals then b.totals[t] else Totals(0, 0, 0, 0, 0)
  }

  function CreditsOf(b: Book, id: LeaseId): nat {
    if id in b.credits then b.credits[id] else 0
  }


  /** A correction replaces the balance and counts as a new epoch. */
  function Corrected(b: Book, t: Tenant, balance: int): Book {
    var was := if t in b.balances then b.balances[t] else 0;
    var x := TotalsOf(b, t);
    b.(balances := b.balances[t := balance],
       totals := b.totals[t := x.(granted := x.granted + balance - was, epoch := x.epoch + 1)])
  }

  /** Closing a lease: its state, and what goes back to the balance. */
  function Close(b: Book, id: LeaseId, state: LeaseState, refund: int, now: Time): Book
    requires id in b.leases && b.leases[id].tenant in b.balances
  {
    var lease := b.leases[id];
    var t := lease.tenant;
    var x := TotalsOf(b, t);
    b.(balances := b.balances[t := b.balances[t] + refund],
       leases := b.leases[id := lease.(state := state, terminalAt := now)],
       totals := b.totals[t := x.(refunded := x.refunded + refund, consumed := x.consumed + lease.amount - refund)],
       credits := b.credits[id := CreditsOf(b, id) + 1])
  }

  predicate Live(b: Book, id: LeaseId) {
    id in b.leases && b.leases[id].state == Reserved && b.leases[id].tenant in b.balances
  }

  /** One lease met by a sweep pass that has reclaimed n so far. */
  function Visit(b: Book, id: LeaseId, now: Time, limit: int, ttl: Time, n: nat): (Book, nat) {
    if id !in b.leases then (b, n)
    else if b.leases[id].state != Reserved then
      (if b.leases[id].terminalAt < now - AUDIT_TTL then b.(leases := b.leases - {id}) else b, n)
    else if n >= limit || b.leases[id].createdAt >= now - ttl || !Live(b, id) then (b, n)
    else (Close(b, id, Expired, b.leases[id].amount, now), n + 1)
  }

  function VisitAll(b: Book, order: seq<LeaseId>, now: Time, limit: int, ttl: Time): (Book, nat) {
    if |order| == 0 then (b, 0)
    else
      var (c, n) := VisitAll(b, order[..|order| - 1], now, limit, ttl);
      Visit(c, order[|order| - 1], now, limit, ttl, n)
  }

  function Apply(b: Book, op: Op): (Book, Outcome) {
    match op
    case SetBalance(t, balance) => (Corrected(b, t, balance), Done)
    case EnsureBalance(t, balance) => (if t in b.balances then b else Corrected(b, t, balance), Done)
    case Reserve(t, amount, id, now) =>
      if t !in b.balances then (b, UnknownTenant)
      else if b.balances[t] < amount then (b, InsufficientBalance)
      else
        var x := TotalsOf(b, t);
        (b.(balances := b.balances[t := b.balances[t] - amount],
            leases := b.leases[id := Lease(t, amount, Reserved, now, 0)],
            totals := b.totals[t := x.(debited := x.debited + amount)],
            issued := b.issued + {id}), Done)
    case Settle(id, used, now) =>
      if id !in b.leases then (b, UnknownLease)
      else if !Live(b, id) then (b, Done)
      else (Close(b, id, Settled, Max(b.leases[id].amount - Max(used, 0), 0), now), Done)
    case Cancel(id, now) =>
      if id !in b.leases then (b, UnknownLease)
      else if !Live(b, id) then (b, Done)
      else (Close(b, id, Cancelled, b.leases[id].amount, now), Done)
    case Sweep(now, order, limit, ttl) => (VisitAll(b, order, now, limit, ttl).0, Done)
  }

  // ---------------------------------------------------------------------
  // Adding up live reservations
  // ---------------------------------------------------------------------

  function Weight(lease: Lease, t: Tenant): int {
    if lease.tenant == t && lease.state == Reserved then lease.amount else 0
  }

  ghost function HeldIn(leases: map<LeaseId, Lease>, ids: set<LeaseId>, t: Tenant): int
    requires ids <= leases.Keys
  {
    if ids == {} then 0
    else
      var id :| id in ids;
      Weight(leases[id], t) + HeldIn(leases, ids - {id}, t)
  }

  ghost function Held(leases: map<LeaseId, Lease>, t: Tenant): int {
    HeldIn(leases, leases.Keys, t)
  }

  lemma {:induction false} HeldPick(leases: map<LeaseId, Lease>, ids: set<LeaseId>, id: LeaseId, t: Tenant)
    requires ids <= leases.Keys && id in ids
    ensures HeldIn(leases, ids, t) == Weight(leases[id], t) + HeldIn(leases, ids - {id}, t)
  {
    var first :| first in ids && HeldIn(leases, ids, t) == Weight(leases[first], t) + HeldIn(leases, ids - {first}, t);
    if first != id {
      HeldPick(leases, ids - {first}, id, t);
      HeldPick(leases, ids - {id}, first, t);
      assert ids - {first} - {id} == ids - {id} - {first};
    }
  }

  lemma {:induction false} HeldAgrees(a: map<LeaseId, Lease>, b: map<LeaseId, Lease>, ids: set<LeaseId>, t: Tenant)
    requires ids <= a.Keys && ids <= b.Keys && forall id :: id in ids ==> a[id] == b[id]
    ensures HeldIn(a, ids, t) == HeldIn(b, ids, t)
  {
    if ids != {} {
      var id :| id in ids;
      HeldPick(a, ids, id, t);
      HeldPick(b, ids, id, t);
      HeldAgrees(a, b, ids - {id}, t);
    }
  }

  lemma HeldPut(leases: map<LeaseId, Lease>, id: LeaseId, lease: Lease, t: Tenant)
    ensures Held(leases[id := lease], t)
         == Held(leases, t) - (if id in leases then Weight(leases[id], t) else 0) + Weight(lease, t)
  {
    var after := leases[id := lease];
    HeldPick(after, after.Keys, id, t);
    assert after.Keys - {id} == leases.Keys - {id};
    HeldAgrees(after, leases, leases.Keys - {id}, t);
    if id in leases {
      HeldPick(leases, leases.Keys, id, t);
    } else {
      assert leases.Keys - {id} == leases.Keys;
    }
  }

  lemma HeldDrop(leases: map<LeaseId, Lease>, id: LeaseId, t: Tenant)
    requires id in leases
    ensures Held(leases - {id}, t) == Held(leases, t) - Weight(leases[id], t)
  {
    HeldPick(leases, leases.Keys, id, t);
    assert (leases - {id}).Keys == leases.Keys - {id};
    HeldAgrees(leases, leases - {id}, leases.Keys - {id}, t);
  }

  // ---------------------------------------------------------------------
  // What every run keeps
  // ---------------------------------------------------------------------

  function BalanceOf(b: Book, t: Tenant): int {
    if t in b.balances then b.balances[t] else 0
  }

  /** Nothing is made or lost: what was granted is still there, held by live
      leases, or consumed; and the balance is what the paired movements say. */
  ghost predicate Conserved(b: Book, t: Tenant) {
    var x := TotalsOf(b, t);
    && BalanceOf(b, t) + Held(b.leases, t) + x.consumed == x.granted
    && BalanceOf(b, t) == x.granted - x.debited + x.refunded
  }

  /** A live lease was never paid back, any lease at most once. */
  ghost predicate PaidOnce(b: Book) {
    && (forall id :: CreditsOf(b, id) <= 1)
    && (forall id :: id in b.leases ==> id in b.issued && b.leases[id].tenant in b.balances)
    && (forall id :: id in b.leases && b.leases[id].state == Reserved ==> CreditsOf(b, id) == 0)
    && (forall id :: id !in b.issued ==> CreditsOf(b, id) == 0)
  }

  ghost predicate NonNegative(b: Book) {
    && (forall t :: t in b.balances ==> b.balances[t] >= 0)
    && (forall id :: id in b.leases ==> b.leases[id].amount >= 0)
    && (forall t :: TotalsOf(b, t).consumed >= 0)
  }

  /** Amounts the callers may pass, and lease ids drawn fresh. */
  ghost predicate Fair(b: Book, op: Op) {
    match op
    case SetBalance(_, balance) => balance >= 0
    case EnsureBalance(_, balance) => balance >= 0
    case Reserve(_, amount, id, _) => amount >= 0 && id !in b.issued
    case Settle(_, _, _) => true
    case Cancel(_, _) => true
    case Sweep(_, order, _, _) => |order| <= SCAN_BATCH
  }

  ghost predicate Sound(b: Book) {
    PaidOnce(b) && NonNegative(b) && forall t :: Conserved(b, t)
  }

  lemma CloseKeepsSound(b: Book, id: LeaseId, state: LeaseState, refund: int, now: Time)
    requires Sound(b) && Live(b, id) && state != Reserved && 0 <= refund <= b.leases[id].amount
    ensures Sound(Close(b, id, state, refund, now))
  {
    var c := Close(b, id, state, refund, now);
    forall i ensures CreditsOf(c, i) == if i == id then 1 else CreditsOf(b, i) {
    }
    forall t ensures TotalsOf(c, t).consumed >= 0 {
      assert TotalsOf(b, t).consumed >= 0;
    }
    forall t ensures Conserved(c, t) {
      assert Conserved(b, t);
      HeldPut(b.leases, id, c.leases[id], t);
    }
  }

  lemma VisitKeepsSound(b: Book, id: LeaseId, now: Time, limit: int, ttl: Time, n: nat)
    requires Sound(b)
    ensures Sound(Visit(b, id, now, limit, ttl, n).0)
  {
    if id in b.leases && b.leases[id].state != Reserved && b.leases[id].terminalAt < now - AUDIT_TTL {
      var c := b.(leases := b.leases - {id});
      forall i ensures CreditsOf(c, i) == CreditsOf(b, i) {
      }
      forall t ensures TotalsOf(c, t).consumed >= 0 {
        assert TotalsOf(b, t).consumed >= 0;
      }
      forall t ensures Conserved(c, t) {
        assert Conserved(b, t);
        HeldDrop(b.leases, id, t);
      }
    } else if id in b.leases && Live(b, id) {
      CloseKeepsSound(b, id, Expired, b.leases[id].amount, now);
    }
  }

  lemma {:induction false} VisitAllKeepsSound(b: Book, order: seq<LeaseId>, now: Time, limit: int, ttl: Time)
    requires Sound(b)
    ensures Sound(VisitAll(b, order, now, limit, ttl).0)
  {
    if |order| > 0 {
      var init := order[..|order| - 1];
      VisitAllKeepsSound(b, init, now, limit, ttl);
      var (c, n) := VisitAll(b, init, now, limit, ttl);
      VisitKeepsSound(c, order[|order| - 1], now, limit, ttl, n);
    }
  }

  lemma CorrectedKeepsSound(b: Book, t: Tenant, balance: int)
    requires Sound(b) && balance >= 0
    ensures Sound(Corrected(b, t, balance))
  {
    var c := Corrected(b, t, balance);
    forall u ensures Conserved(c, u) {
      assert Conserved(b, u);
    }
    forall i ensures CreditsOf(c, i) == CreditsOf(b, i) {
    }
    forall u ensures TotalsOf(c, u).consumed >= 0 {
      assert TotalsOf(b, u).consumed >= 0;
    }
  }

  lemma ReserveKeepsSound(b: Book, t: Tenant, amount: int, id: LeaseId, now: Time)
    requires Sound(b) && Fair(b, Reserve(t, amount, id, now))
    ensures Sound(Apply(b, Reserve(t, amount, id, now)).0)
  {
    var c := Apply(b, Reserve(t, amount, id, now)).0;
    forall u ensures Conserved(c, u) {
      assert Conserved(b, u);
      HeldPut(b.leases, id, Lease(t, amount, Reserved, now, 0), u);
    }
    forall i ensures CreditsOf(c, i) == CreditsOf(b, i) {
    }
    forall u ensures TotalsOf(c, u).consumed >= 0 {
      assert TotalsOf(b, u).consumed >= 0;
    }
  }

  lemma ApplyKeepsSound(b: Book, op: Op)
    requires Sound(b) && Fair(b, op)
    ensures Sound(Apply(b, op).0)
  {
    match op
    case SetBalance(t, balance) => CorrectedKeepsSound(b, t, balance);
    case EnsureBalance(t, balance) => CorrectedKeepsSound(b, t, balance);
    case Reserve(t, amount, id, now) => ReserveKeepsSound(b, t, amount, id, now);
    case Settle(id, used, now) =>
      if Live(b, id) {
        CloseKeepsSound(b, id, Settled, Max(b.leases[id].amount - Max(used, 0), 0), now);
      }
    case Cancel(id, now) =>
      if Live(b, id) {
        CloseKeepsSound(b, id, Cancelled, b.leases[id].amount, now);
      }
    case Sweep(now, order, limit, ttl) => VisitAllKeepsSound(b, order, now, limit, ttl);
  }

  function ApplyAll(b: Book, run: seq<Op>): Book {
    if |run| == 0 then b else Apply(ApplyAll(b, run[..|run| - 1]), run[|run| - 1]).0
  }

  ghost predicate FairRun(b: Book, run: seq<Op>) {
    forall i :: 0 <= i < |run| ==> Fair(ApplyAll(b, run[..i]), run[i])
  }

  function Opened(): Book { Book(map[], map[], map[], {}, map[]) }

  lemma OpenedIsSound()
    ensures Sound(Opened())
  {
    forall t ensures Conserved(Opened(), t) {
    }
  }

  /** Over any run of any operations in any order, sweeps included: balances stay
      non-negative, every tenant's balance plus live reservations plus consumption
      is what was granted, and every lease is paid back at most once. */
  lemma {:induction false} LedgerConserves(run: seq<Op>)
    requires FairRun(Opened(), run)
    ensures Sound(ApplyAll(Opened(), run))
  {
    if |run| == 0 {
      OpenedIsSound();
    } else {
      var n := |run| - 1;
      assert forall i :: 0 <= i < n ==> run[..n][..i] == run[..i];
      LedgerConserves(run[..n]);
      ApplyKeepsSound(ApplyAll(Opened(), run[..n]), run[n]);
    }
  }

  // ---------------------------------------------------------------------
  // What moves the totals
  // ---------------------------------------------------------------------

  function CorrectedTenant(op: Op, t: Tenant): bool {
    (op.SetBalance? || op.EnsureBalance?) && op.tenant == t
  }

  /** The consumption one operation adds: only settling a live lease does, by
      what was used up to what was reserved. */
  function Consumption(b: Book, op: Op, t: Tenant): int {
    if op.Settle? && Live(b, op.id) && b.leases[op.id].tenant == t then Min(b.leases[op.id].amount, Max(op.used, 0)) else 0
  }

  lemma {:induction false} SweepMovesNoGrant(b: Book, order: seq<LeaseId>, now: Time, limit: int, ttl: Time, t: Tenant)
    ensures var c := VisitAll(b, order, now, limit, ttl).0;
            && TotalsOf(c, t).granted == TotalsOf(b, t).granted
            && TotalsOf(c, t).epoch == TotalsOf(b, t).epoch
            && TotalsOf(c, t).consumed == TotalsOf(b, t).consumed
  {
    if |order| > 0 {
      SweepMovesNoGrant(b, order[..|order| - 1], now, limit, ttl, t);
    }
  }

  /** What was granted moves only at a correction, consumption only at a settle,
      and corrections show in the epoch. */
  lemma OnlyCorrectionsGrant(b: Book, op: Op, t: Tenant)
    ensures var c := Apply(b, op).0;
            && (!CorrectedTenant(op, t) ==>
                  TotalsOf(c, t).granted == TotalsOf(b, t).granted && TotalsOf(c, t).epoch == TotalsOf(b, t).epoch)
            && TotalsOf(c, t).consumed == TotalsOf(b, t).consumed + Consumption(b, op, t)
            && TotalsOf(c, t).epoch >= TotalsOf(b, t).epoch
            && (op.SetBalance? && op.tenant == t ==> TotalsOf(c, t).epoch > TotalsOf(b, t).epoch)
            && (TotalsOf(c, t).epoch == TotalsOf(b, t).epoch ==> TotalsOf(c, t).granted == TotalsOf(b, t).granted)
  {
    if op.Sweep? {
      SweepMovesNoGrant(b, op.order, op.now, op.limit, op.ttl, t);
    }
  }

  /** A reservation is granted exactly when what was granted covers it beside what
      is held and consumed; granted, it is held, and nothing else moves. */
  lemma ReserveGrantsIff(b: Book, t: Tenant, amount: int, id: LeaseId, now: Time)
    requires Sound(b) && Fair(b, Reserve(t, amount, id, now))
    ensures var (c, answer) := Apply(b, Reserve(t, amount, id, now));
            if t !in b.balances then answer == UnknownTenant && c == b
            else if Held(b.leases, t) + TotalsOf(b, t).consumed + amount > TotalsOf(b, t).granted then
              answer == InsufficientBalance && c == b
            else
              && answer == Done && c.balances == b.balances[t := b.balances[t] - amount]
              && c.leases == b.leases[id := Lease(t, amount, Reserved, now, 0)]
              && Held(c.leases, t) == Held(b.leases, t) + amount
  {
    assert Conserved(b, t);
    HeldPut(b.leases, id, Lease(t, amount, Reserved, now, 0), t);
  }

  /** Settling or cancelling a live lease ends it and pays back what was not used,
      all of it for a cancel; a lease already ended is left alone, an unknown one
      is an error. */
  lemma ClosesOnce(b: Book, id: LeaseId, used: int, now: Time)
    requires Sound(b)
    ensures var (c, answer) := Apply(b, Settle(id, used, now));
            && answer == (if id in b.leases then Done else UnknownLease)
            && (id !in b.leases || b.leases[id].state != Reserved ==> c == b)
            && (id in b.leases && b.leases[id].state == Reserved ==>
                  var lease := b.leases[id];
                  && c.leases == b.leases[id := Lease(lease.tenant, lease.amount, Settled, lease.createdAt, now)]
                  && c.balances == b.balances[lease.tenant := b.balances[lease.tenant] + lease.amount - Min(Max(used, 0), lease.amount)])
    ensures var (c, answer) := Apply(b, Cancel(id, now));
            && answer == (if id in b.leases then Done else UnknownLease)
            && (id !in b.leases || b.leases[id].state != Reserved ==> c == b)
            && (id in b.leases && b.leases[id].state == Reserved ==>
                  var lease := b.leases[id];
                  && c.leases == b.leases[id := Lease(lease.tenant, lease.amount, Cancelled, lease.createdAt, now)]
                  && c.balances == b.balances[lease.tenant := b.balances[lease.tenant] + lease.amount])
  {
  }

  /** A lease a sweep at now may reclaim. */
  predicate Overdue(b: Book, id: LeaseId, now: Time, ttl: Time) { Live(b, id) && now - b.leases[id].createdAt > ttl }

  function OverdueAmong(b: Book, order: seq<LeaseId>, now: Time, ttl: Time): nat {
    if |order| == 0 then 0
    else OverdueAmong(b, order[..|order| - 1], now, ttl) + if Overdue(b, order[|order| - 1], now, ttl) then 1 else 0
  }

  ghost predicate Distinct(order: seq<LeaseId>) { forall i, j :: 0 <= i < j < |order| ==> order[i] != order[j] }

  /** What a sweep leaves of the lease it meets after so many overdue ones: the
      first up to the limit expire, leases ended more than an hour ago are
      forgotten, any other stays. */
  ghost predicate LeftBySweep(b: Book, c: Book, id: LeaseId, now: Time, limit: int, ttl: Time, before: nat) {
    if id !in b.leases then id !in c.leases
    else
      var lease := b.leases[id];
      if lease.state != Reserved && now - lease.terminalAt > 3_600_000_000_000 then id !in c.leases
      else
        && id in c.leases
        && c.leases[id] == if Overdue(b, id, now, ttl) && before < limit then lease.(state := Expired, terminalAt := now) else lease
  }

  lemma {:induction false} SweepSkips(b: Book, order: seq<LeaseId>, now: Time, limit: int, ttl: Time, id: LeaseId)
    requires id !in order
    ensures var c := VisitAll(b, order, now, limit, ttl).0;
            (id in c.leases <==> id in b.leases) && (id in b.leases ==> c.leases[id] == b.leases[id])
    ensures VisitAll(b, order, now, limit, ttl).0.balances.Keys == b.balances.Keys
  {
    if |order| > 0 {
      SweepSkips(b, order[..|order| - 1], now, limit, ttl, id);
    }
  }

  lemma {:induction false} SweepCounts(b: Book, order: seq<LeaseId>, now: Time, limit: int, ttl: Time)
    requires Distinct(order)
    ensures VisitAll(b, order, now, limit, ttl).1 == Min(OverdueAmong(b, order, now, ttl), Max(limit, 0))
  {
    if |order| > 0 {
      var n := |order| - 1;
      SweepCounts(b, order[..n], now, limit, ttl);
      SweepSkips(b, order[..n], now, limit, ttl, order[n]);
    }
  }

  /** One sweep, for every lease in the order it ranged: up to the limit of the
      overdue ones expire, first met first. */
  lemma {:induction false} SweepDecides(b: Book, order: seq<LeaseId>, now: Time, limit: int, ttl: Time, i: nat)
    requires Distinct(order) && i < |order|
    ensures LeftBySweep(b, VisitAll(b, order, now, limit, ttl).0, order[i], now, limit, ttl, OverdueAmong(b, order[..i], now, ttl))
  {
    var n := |order| - 1;
    if i < n {
      assert order[..n][..i] == order[..i];
      SweepDecides(b, order[..n], now, limit, ttl, i);
      VisitSkips(VisitAll(b, order[..n], now, limit, ttl).0, order[n], now, limit, ttl, VisitAll(b, order[..n], now, limit, ttl).1, order[i]);
    } else {
      SweepCounts(b, order[..n], now, limit, ttl);
      SweepSkips(b, order[..n], now, limit, ttl, order[n]);
    }
  }

  lemma VisitSkips(b: Book, id: LeaseId, now: Time, limit: int, ttl: Time, n: nat, other: LeaseId)
    requires id != other
    ensures var c := Visit(b, id, now, limit, ttl, n).0;
            (other in c.leases <==> other in b.leases) && (other in b.leases ==> c.leases[other] == b.leases[other])
  {
  }

  /** No balance exceeds what was granted, so if that fits the integer width no
      refund can wrap. */
  lemma BalanceNeverExceedsGrant(b: Book, t: Tenant)
    requires Sound(b)
    ensures BalanceOf(b, t) <= TotalsOf(b, t).granted
  {
    assert Conserved(b, t);
    HeldNonNegative(b.leases, b.leases.Keys, t);
  }

  lemma {:induction false} HeldNonNegative(leases: map<LeaseId, Lease>, ids: set<LeaseId>, t: Tenant)
    requires ids <= leases.Keys && forall id :: id in leases ==> leases[id].amount >= 0
    ensures HeldIn(leases, ids, t) >= 0
  {
    if ids != {} {
      var id :| id in ids;
      HeldPick(leases, ids, id, t);
      HeldNonNegative(leases, ids - {id}, t);
    }
  }

  /** What a run's corrections granted a tenant, net. */
  function GrantedOver(run: seq<Op>, t: Tenant): int {
    if |run| == 0 then 0
    else
      var n := |run| - 1;
      var b := ApplyAll(Opened(), run[..n]);
      GrantedOver(run[..n], t) +
        if CorrectedTenant(run[n], t) && (run[n].SetBalance? || t !in b.balances) then run[n].balance - BalanceOf(b, t) else 0
  }

  function ConsumedOver(run: seq<Op>, t: Tenant): int {
    if |run| == 0 then 0
    else
      var n := |run| - 1;
      ConsumedOver(run[..n], t) + Consumption(ApplyAll(Opened(), run[..n]), run[n], t)
  }

  lemma {:induction false} RunTotals(run: seq<Op>, t: Tenant)
    ensures TotalsOf(ApplyAll(Opened(), run), t).granted == GrantedOver(run, t)
    ensures TotalsOf(ApplyAll(Opened(), run), t).consumed == ConsumedOver(run, t)
  {
    if |run| > 0 {
      var n := |run| - 1;
      RunTotals(run[..n], t);
      OnlyCorrectionsGrant(ApplyAll(Opened(), run[..n]), run[n], t);
    }
  }

  /** The conservation law over a whole run: what a tenant has, free or held, is
      what corrections granted less what its settled requests used, each up to
      its reservation. */
  lemma RunConserves(run: seq<Op>, t: Tenant)
    requires FairRun(Opened(), run)
    ensures var b := ApplyAll(Opened(), run);
            BalanceOf(b, t) + Held(b.leases, t) + ConsumedOver(run, t) == GrantedOver(run, t)
  {
    LedgerConserves(run);
    RunTotals(run, t);
    assert Conserved(ApplyAll(Opened(), run), t);
  }

  // ---------------------------------------------------------------------
  // The ledger in place
  // ---------------------------------------------------------------------

  class Ledger {
    var balances: map<Tenant, int>
    var leases: map<LeaseId, Lease>
    const leaseTTL: Time
    /** The ledger's value with its history. */
    ghost var book: Book

    ghost predicate Valid()
      reads this
    {
      book.balances == balances && book.leases == leases && PaidOnce(book)
    }

    constructor (leaseTTL: Time)
      ensures Valid() && book == Opened() && this.leaseTTL == leaseTTL
    {
      this.leaseTTL := leaseTTL;
      balances, leases, book := map[], map[], Opened();
    }

    method SetBalance(t: Tenant, balance: int)
      requires Valid()
      modifies this
      ensures Valid() && book == Apply(old(book), Op.SetBalance(t, balance)).0
    {
      balances := balances[t := balance];
      CorrectionPaysNothing(book, t, balance);
      book := Apply(book, Op.SetBalance(t, balance)).0;
    }

    method EnsureBalance(t: Tenant, initial: int) returns (created: bool)
      requires Valid()
      modifies this
      ensures Valid() && book == Apply(old(book), Op.EnsureBalance(t, initial)).0
      ensures created == (t !in old(balances))
    {
      if t in balances {
        return false;
      }
      balances := balances[t := initial];
      CorrectionPaysNothing(book, t, initial);
      book := Apply(book, Op.EnsureBalance(t, initial)).0;
      created := true;
    }

    /** The id is the caller's draw, fresh by assumption. */
    method Reserve(t: Tenant, amount: int, id: LeaseId, now: Time) returns (outcome: Outcome)
      requires Valid() && id !in book.issued
      modifies this
      ensures Valid() && (book, outcome) == Apply(old(book), Op.Reserve(t, amount, id, now))
    {
      if t !in balances {
        return UnknownTenant;
      }
      var balance := balances[t];
      if balance < amount {
        return InsufficientBalance;
      }
      ReservePaysNothing(book, t, amount, id, now);
      book := Apply(book, Op.Reserve(t, amount, id, now)).0;
      balances := balances[t := balance - amount];
      leases := leases[id := Lease(t, amount, Reserved, now, 0)];
      outcome := Done;
    }

    method Settle(id: LeaseId, used: int, now: Time) returns (outcome: Outcome)
      requires Valid()
      modifies this
      ensures Valid() && (book, outcome) == Apply(old(book), Op.Settle(id, used, now))
    {
      if id !in leases {
        return UnknownLease;
      }
      var lease := leases[id];
      if lease.state != Reserved {
        return Done;
      }
      var refund := lease.amount - Max(used, 0);
      if refund < 0 {
        refund := 0;
      }
      Finish(id, Settled, refund, now);
      outcome := Done;
    }

    method Cancel(id: LeaseId, now: Time) returns (outcome: Outcome)
      requires Valid()
      modifies this
      ensures Valid() && (book, outcome) == Apply(old(book), Op.Cancel(id, now))
    {
      if id !in leases {
        return UnknownLease;
      }
      var lease := leases[id];
      if lease.state != Reserved {
        return Done;
      }
      Finish(id, Cancelled, lease.amount, now);
      outcome := Done;
    }

    method Finish(id: LeaseId, state: LeaseState, refund: int, now: Time)
      requires Valid() && Live(book, id) && state != Reserved
      modifies this
      ensures Valid() && book == Close(old(book), id, state, refund, now)
    {
      var lease := leases[id];
      ClosePaysOnce(book, id, state, refund, now);
      book := Close(book, id, state, refund, now);
      balances := balances[lease.tenant := balances[lease.tenant] + refund];
      leases := leases[id := lease.(state := state, terminalAt := now)];
    }

    /** One bounded pass over the leases in any order; the order it took comes
        back as a ghost. */
    method SweepOnce(now: Time, limit: int) returns (expired: nat, ghost order: seq<LeaseId>)
      requires Valid()
      modifies this
      ensures Valid() && |order| <= SCAN_BATCH
      ensures (book, expired) == VisitAll(old(book), order, now, limit, leaseTTL)
      ensures expired <= Max(limit, 0)
      ensures |old(leases)| <= SCAN_BATCH ==> forall id :: id in old(leases) ==> id in order
    {
      var todo := leases.Keys;
      var scanned := 0;
      expired, order := 0, [];
      while todo != {} && scanned < SCAN_BATCH
        invariant Valid() && |order| == scanned <= SCAN_BATCH
        invariant (book, expired) == VisitAll(old(book), order, now, limit, leaseTTL)
        invariant expired <= Max(limit, 0)
        invariant todo <= old(leases.Keys) && scanned + |todo| == |old(leases)|
        invariant forall id :: id in old(leases) && id !in todo ==> id in order
        invariant forall id :: id in todo ==> id in leases
        decreases todo
      {
        var id :| id in todo;
        todo := todo - {id};
        scanned := scanned + 1;
        expired := VisitOne(id, now, limit, expired);
        assert (order + [id])[..|order|] == order;
        order := order + [id];
      }
    }

    method VisitOne(id: LeaseId, now: Time, limit: int, expired: nat) returns (n: nat)
      requires Valid() && id in leases && expired <= Max(limit, 0)
      modifies this
      ensures Valid() && (book, n) == Visit(old(book), id, now, limit, leaseTTL, expired)
      ensures n <= Max(limit, 0)
      ensures forall i :: i in old(leases) && i != id ==> i in leases
    {
      var lease := leases[id];
      n := expired;
      if lease.state != Reserved {
        if lease.terminalAt < now - AUDIT_TTL {
          leases := leases - {id};
          book := book.(leases := book.leases - {id});
          assert forall i :: CreditsOf(book, i) == CreditsOf(old(book), i);
        }
        return;
      }
      if n >= limit || lease.createdAt >= now - leaseTTL {
        return;
      }
      Finish(id, Expired, lease.amount, now);
      n := n + 1;
    }
  }

  lemma ClosePaysOnce(b: Book, id: LeaseId, state: LeaseState, refund: int, now: Time)
    requires PaidOnce(b) && Live(b, id) && state != Reserved
    ensures PaidOnce(Close(b, id, state, refund, now))
  {
    var c := Close(b, id, state, refund, now);
    forall i ensures CreditsOf(c, i) == if i == id then 1 else CreditsOf(b, i) {
    }
  }

  lemma CorrectionPaysNothing(b: Book, t: Tenant, balance: int)
    requires PaidOnce(b)
    ensures PaidOnce(Corrected(b, t, balance))
  {
    forall i ensures CreditsOf(Corrected(b, t, balance), i) == CreditsOf(b, i) {
    }
  }

  lemma ReservePaysNothing(b: Book, t: Tenant, amount: int, id: LeaseId, now: Time)
    requires PaidOnce(b) && id !in b.issued
    ensures PaidOnce(Apply(b, Reserve(t, amount, id, now)).0)
  {
    forall i ensures CreditsOf(Apply(b, Reserve(t, amount, id, now)).0, i) == CreditsOf(b, i) {
    }
  }
}
