/** Diffing consecutive ledger snapshots against the balance identity. */
module Reconcile {
  import opened Basics
  import opened QuotaLedger

  datatype Snapshot = Snapshot(tenant: Tenant, balance: int, refunded: int, debited: int, epoch: nat)

  datatype TenantDrift = TenantDrift(tenant: Tenant, drift: int)

  function DebitedDelta(prev: Snapshot, snap: Snapshot): int { snap.debited - prev.debited }

  function RefundedDelta(prev: Snapshot, snap: Snapshot): int { snap.refunded - prev.refunded }

  function BalanceDrop(prev: Snapshot, snap: Snapshot): int { prev.balance - snap.balance }

  function Drift(prev: Snapshot, snap: Snapshot): int {
    DebitedDelta(prev, snap) - RefundedDelta(prev, snap) - BalanceDrop(prev, snap)
  }

  // ---------------------------------------------------------------------
  // The identity on a real ledger
  // ---------------------------------------------------------------------

  function Taken(b: Book, t: Tenant): Snapshot {
    var x := TotalsOf(b, t);
    Snapshot(t, BalanceOf(b, t), x.refunded, x.debited, x.epoch)
  }

  /** Between any two sound states the drift is what corrections granted. */
  lemma DriftIsGrantDelta(b: Book, c: Book, t: Tenant)
    requires Conserved(b, t) && Conserved(c, t)
    ensures Drift(Taken(b, t), Taken(c, t)) == TotalsOf(c, t).granted - TotalsOf(b, t).granted
  {
  }

  lemma {:induction false} EpochPinsGrant(run: seq<Op>, i: nat, t: Tenant)
    requires i <= |run|
    ensures var b, c := ApplyAll(Opened(), run[..i]), ApplyAll(Opened(), run);
            && TotalsOf(b, t).epoch <= TotalsOf(c, t).epoch
            && (TotalsOf(b, t).epoch == TotalsOf(c, t).epoch ==> TotalsOf(b, t).granted == TotalsOf(c, t).granted)
    decreases |run|
  {
    if i == |run| {
      assert run[..i] == run;
    } else {
      var n := |run| - 1;
      assert run[..n][..i] == run[..i];
      EpochPinsGrant(run[..n], i, t);
      OnlyCorrectionsGrant(ApplyAll(Opened(), run[..n]), run[n], t);
    }
  }

  lemma BothConserve(run: seq<Op>, i: nat, t: Tenant)
    requires FairRun(Opened(), run) && i <= |run|
    ensures Conserved(ApplyAll(Opened(), run[..i]), t) && Conserved(ApplyAll(Opened(), run), t)
  {
    assert forall j :: 0 <= j < i ==> run[..i][..j] == run[..j];
    LedgerConserves(run[..i]);
    LedgerConserves(run);
  }

  /** Over any run, two snapshots with no correction between them never drift:
      in-flight reservations, overage settles, sweeps and purges included. */
  lemma NoDriftBetweenCorrections(run: seq<Op>, i: nat, t: Tenant)
    requires FairRun(Opened(), run) && i <= |run|
    requires Taken(ApplyAll(Opened(), run[..i]), t).epoch == Taken(ApplyAll(Opened(), run), t).epoch
    ensures Drift(Taken(ApplyAll(Opened(), run[..i]), t), Taken(ApplyAll(Opened(), run), t)) == 0
  {
    BothConserve(run, i, t);
    EpochPinsGrant(run, i, t);
    DriftIsGrantDelta(ApplyAll(Opened(), run[..i]), ApplyAll(Opened(), run), t);
  }

  /** So after any such run a balance moved past the ledger by an amount drifts by
      exactly that amount. */
  lemma UnpairedMovementIsTheDrift(run: seq<Op>, i: nat, t: Tenant, moved: int)
    requires FairRun(Opened(), run) && i <= |run|
    requires Taken(ApplyAll(Opened(), run[..i]), t).epoch == Taken(ApplyAll(Opened(), run), t).epoch
    ensures Drift(Taken(ApplyAll(Opened(), run[..i]), t), Moved(Taken(ApplyAll(Opened(), run), t), moved)) == moved
  {
    BothConserve(run, i, t);
    EpochPinsGrant(run, i, t);
    DriftIsGrantDelta(ApplyAll(Opened(), run[..i]), ApplyAll(Opened(), run), t);
    MovementAddsUp(Taken(ApplyAll(Opened(), run[..i]), t), Taken(ApplyAll(Opened(), run), t), moved);
  }

  /** A snapshot of a balance something else than the ledger has moved. */
  function Moved(s: Snapshot, moved: int): Snapshot { s.(balance := s.balance + moved) }

  lemma MovementAddsUp(prev: Snapshot, snap: Snapshot, moved: int)
    ensures Drift(prev, Moved(snap, moved)) == Drift(prev, snap) + moved
  {
  }

  // ---------------------------------------------------------------------
  // One round
  // ---------------------------------------------------------------------

  /** How one tenant's source and store behave in this round. */
  datatype Reading =
    | SourceFails
    | NoLedger
    | Reads(snap: Snapshot, latestFails: bool, appendFails: bool)

  /** The stored history, the latest snapshot last. */
  type History = map<Tenant, seq<Snapshot>>

  function Latest(h: History, t: Tenant): Option<Snapshot> {
    if t in h && h[t] != [] then Some(h[t][|h[t]| - 1]) else None
  }

  function Appended(h: History, t: Tenant, snap: Snapshot): History {
    h[t := (if t in h then h[t] else []) + [snap]]
  }

  predicate Fails(r: Reading) {
    r.SourceFails? || (r.Reads? && (r.latestFails || r.appendFails))
  }

  predicate Stores(r: Reading) { r.Reads? && !r.latestFails && !r.appendFails }

  /** Whether a tenant's interval is checked, from its own reading and its own
      previous snapshot alone. */
  predicate Checks(prev: Option<Snapshot>, r: Reading) {
    Stores(r) && prev.Some? && prev.value.epoch == r.snap.epoch
  }

  class SnapshotStore {
    var history: History

    method Append(t: Tenant, snap: Snapshot)
      modifies this
      ensures history == Appended(old(history), t, snap)
    {
      history := history[t := (if t in history then history[t] else []) + [snap]];
    }
  }

  /** The history after the first n tenants of a round. */
  function HistoryAfter(h: History, tenants: seq<Tenant>, rs: seq<Reading>, n: nat): History
    requires n <= |tenants| == |rs|
  {
    if n == 0 then h
    else
      var before := HistoryAfter(h, tenants, rs, n - 1);
      if Stores(rs[n - 1]) then Appended(before, tenants[n - 1], rs[n - 1].snap) else before
  }

  /** The snapshot the n-th tenant of the round is judged against. */
  function Previous(h: History, tenants: seq<Tenant>, rs: seq<Reading>, n: nat): Option<Snapshot>
    requires n < |tenants| == |rs|
  {
    Latest(HistoryAfter(h, tenants, rs, n), tenants[n])
  }

  /** The tenants of a prefix whose interval is checked and drifted, in order. */
  function Drifted(h: History, tenants: seq<Tenant>, rs: seq<Reading>, n: nat): seq<TenantDrift>
    requires n <= |tenants| == |rs|
  {
    if n == 0 then []
    else
      var r, prev := rs[n - 1], Previous(h, tenants, rs, n - 1);
      Drifted(h, tenants, rs, n - 1) +
        if Checks(prev, r) && Drift(prev.value, r.snap) != 0 then [TenantDrift(tenants[n - 1], Drift(prev.value, r.snap))]
        else []
  }

  function Checked(h: History, tenants: seq<Tenant>, rs: seq<Reading>, n: nat): nat
    requires n <= |tenants| == |rs|
  {
    if n == 0 then 0
    else Checked(h, tenants, rs, n - 1) + if Checks(Previous(h, tenants, rs, n - 1), rs[n - 1]) then 1 else 0
  }

  function Failed(tenants: seq<Tenant>, rs: seq<Reading>, n: nat): seq<Tenant>
    requires n <= |tenants| == |rs|
  {
    if n == 0 then []
    else Failed(tenants, rs, n - 1) + if Fails(rs[n - 1]) then [tenants[n - 1]] else []
  }

  /** One tenant: stored if nothing failed, then judged against the snapshot
      before it. */
  method ReconcileTenant(store: SnapshotStore, t: Tenant, r: Reading) returns (failed: bool, checks: bool, drift: int)
    modifies store
    ensures failed == Fails(r) && checks == Checks(Latest(old(store.history), t), r)
    ensures drift == if checks then Drift(Latest(old(store.history), t).value, r.snap) else 0
    ensures store.history == if Stores(r) then Appended(old(store.history), t, r.snap) else old(store.history)
  {
    failed, checks, drift := false, false, 0;
    match r {
      case SourceFails =>
        failed := true;
      case NoLedger =>
      case Reads(snap, latestFails, appendFails) =>
        if latestFails || appendFails {
          failed := true;
          return;
        }
        var prev := Latest(store.history, t);
        store.Append(t, snap);
        if prev.Some? && prev.value.epoch == snap.epoch {
          checks, drift := true, Drift(prev.value, snap);
        }
    }
  }

  /** One round over the tenants in order. */
  method ReconcileOnce(store: SnapshotStore, tenants: seq<Tenant>, rs: seq<Reading>)
    returns (checked: nat, drifted: nat, drifts: seq<TenantDrift>, failures: seq<Tenant>)
    requires |tenants| == |rs|
    modifies store
    ensures store.history == HistoryAfter(old(store.history), tenants, rs, |tenants|)
    ensures drifts == Drifted(old(store.history), tenants, rs, |tenants|) && drifted == |drifts|
    ensures checked == Checked(old(store.history), tenants, rs, |tenants|)
    ensures failures == Failed(tenants, rs, |tenants|)
  {
    checked, drifted, drifts, failures := 0, 0, [], [];
    var i := 0;
    while i < |tenants|
      invariant 0 <= i <= |tenants|
      invariant store.history == HistoryAfter(old(store.history), tenants, rs, i)
      invariant drifts == Drifted(old(store.history), tenants, rs, i) && drifted == |drifts|
      invariant checked == Checked(old(store.history), tenants, rs, i)
      invariant failures == Failed(tenants, rs, i)
    {
      var failed, checks, drift := ReconcileTenant(store, tenants[i], rs[i]);
      if failed {
        failures := failures + [tenants[i]];
      }
      if checks {
        checked := checked + 1;
        if drift != 0 {
          drifted := drifted + 1;
          drifts := drifts + [TenantDrift(tenants[i], drift)];
        }
      }
      i := i + 1;
    }
  }

  lemma {:induction false} OthersDoNotMatter(h: History, tenants: seq<Tenant>, rs: seq<Reading>, n: nat, t: Tenant)
    requires n <= |tenants| == |rs| && forall i :: 0 <= i < n ==> tenants[i] != t
    ensures Latest(HistoryAfter(h, tenants, rs, n), t) == Latest(h, t)
  {
    if n > 0 {
      OthersDoNotMatter(h, tenants, rs, n - 1, t);
    }
  }

  lemma {:induction false} DriftedMember(h: History, tenants: seq<Tenant>, rs: seq<Reading>, n: nat, d: TenantDrift)
    requires n <= |tenants| == |rs|
    ensures d in Drifted(h, tenants, rs, n) <==>
              exists i :: 0 <= i < n && tenants[i] == d.tenant && Checks(Previous(h, tenants, rs, i), rs[i])
                && Drift(Previous(h, tenants, rs, i).value, rs[i].snap) == d.drift && d.drift != 0
  {
    if n > 0 {
      DriftedMember(h, tenants, rs, n - 1, d);
    }
  }

  /** A tenant's verdict depends on its own reading and its own previous snapshot
      alone: whatever failed or drifted elsewhere, it is reported exactly when its
      ledger was read and stored, the snapshot before it is of the same epoch, and
      the debits since, less the refunds, are not what the balance fell by. */
  lemma VerdictIsTheTenantsOwn(h: History, tenants: seq<Tenant>, rs: seq<Reading>, i: nat, drift: int)
    requires i < |tenants| == |rs| && forall j :: 0 <= j < |tenants| && j != i ==> tenants[j] != tenants[i]
    ensures TenantDrift(tenants[i], drift) in Drifted(h, tenants, rs, |tenants|) <==>
              && rs[i].Reads? && !rs[i].latestFails && !rs[i].appendFails
              && tenants[i] in h && h[tenants[i]] != []
              && var prev, snap := h[tenants[i]][|h[tenants[i]]| - 1], rs[i].snap;
                 && prev.epoch == snap.epoch && drift != 0
                 && drift == (snap.debited - prev.debited) - (snap.refunded - prev.refunded) - (prev.balance - snap.balance)
  {
    DriftedMember(h, tenants, rs, |tenants|, TenantDrift(tenants[i], drift));
    OthersDoNotMatter(h, tenants, rs, i, tenants[i]);
  }

  /** The tenants of a prefix whose interval is checked, by place. */
  function CheckedAt(h: History, tenants: seq<Tenant>, rs: seq<Reading>, n: nat): set<nat>
    requires n <= |tenants| == |rs|
  {
    set i: nat | i < n && Checks(Previous(h, tenants, rs, i), rs[i])
  }

  lemma CheckedAtNext(h: History, tenants: seq<Tenant>, rs: seq<Reading>, n: nat)
    requires n < |tenants| == |rs|
    ensures CheckedAt(h, tenants, rs, n + 1) ==
              CheckedAt(h, tenants, rs, n) + if Checks(Previous(h, tenants, rs, n), rs[n]) then {n} else {}
  {
  }

  lemma {:induction false} CheckedMembers(h: History, tenants: seq<Tenant>, rs: seq<Reading>, n: nat)
    requires n <= |tenants| == |rs|
    ensures Checked(h, tenants, rs, n) == |CheckedAt(h, tenants, rs, n)|
    decreases n
  {
    if n > 0 {
      CheckedMembers(h, tenants, rs, n - 1);
      CheckedAtNext(h, tenants, rs, n - 1);
    } else {
      assert CheckedAt(h, tenants, rs, n) == {};
    }
  }

  /** A tenant whose snapshot was read and stored, and whose stored snapshot before
      it is of the same epoch. */
  predicate Comparable(h: History, t: Tenant, r: Reading) {
    && r.Reads? && !r.latestFails && !r.appendFails
    && t in h && h[t] != [] && h[t][|h[t]| - 1].epoch == r.snap.epoch
  }

  /** A round over distinct tenants counts exactly the comparable ones. */
  lemma CheckedCounts(h: History, tenants: seq<Tenant>, rs: seq<Reading>)
    requires |tenants| == |rs| && forall i, j :: 0 <= i < j < |tenants| ==> tenants[i] != tenants[j]
    ensures Checked(h, tenants, rs, |tenants|) == |set i: nat | i < |tenants| && Comparable(h, tenants[i], rs[i])|
  {
    CheckedMembers(h, tenants, rs, |tenants|);
    forall i: nat | i < |tenants| ensures Checks(Previous(h, tenants, rs, i), rs[i]) <==> Comparable(h, tenants[i], rs[i]) {
      OthersDoNotMatter(h, tenants, rs, i, tenants[i]);
    }
    assert CheckedAt(h, tenants, rs, |tenants|) == set i: nat | i < |tenants| && Comparable(h, tenants[i], rs[i]);
  }

  /** A tenant fails exactly when its source, or reading or writing its history,
      failed, and its snapshot joins its history exactly when it was read and
      neither did. */
  lemma {:induction false} FailedIff(tenants: seq<Tenant>, rs: seq<Reading>, n: nat, t: Tenant)
    requires n <= |tenants| == |rs|
    ensures t in Failed(tenants, rs, n) <==>
              exists i :: 0 <= i < n && tenants[i] == t
                && (rs[i] == SourceFails || (rs[i].Reads? && (rs[i].latestFails || rs[i].appendFails)))
  {
    if n > 0 {
      FailedIff(tenants, rs, n - 1, t);
    }
  }

  lemma {:induction false} HistoryGrowsBy(h: History, tenants: seq<Tenant>, rs: seq<Reading>, i: nat, n: nat)
    requires i < n <= |tenants| == |rs| && forall j :: 0 <= j < n && j != i ==> tenants[j] != tenants[i]
    ensures var t, after := tenants[i], HistoryAfter(h, tenants, rs, n);
            if rs[i].Reads? && !rs[i].latestFails && !rs[i].appendFails
            then t in after && after[t] == (if t in h then h[t] else []) + [rs[i].snap]
            else if t in h then t in after && after[t] == h[t] else t !in after
    decreases n
  {
    if i < n - 1 {
      HistoryGrowsBy(h, tenants, rs, i, n - 1);
    } else {
      OthersStay(h, tenants, rs, i, tenants[i]);
    }
  }

  lemma {:induction false} OthersStay(h: History, tenants: seq<Tenant>, rs: seq<Reading>, n: nat, t: Tenant)
    requires n <= |tenants| == |rs| && forall i :: 0 <= i < n ==> tenants[i] != t
    ensures var after := HistoryAfter(h, tenants, rs, n);
            (t in after <==> t in h) && (t in h ==> after[t] == h[t])
  {
    if n > 0 {
      OthersStay(h, tenants, rs, n - 1, t);
    }
  }
}
