/** Runs of picks against the clock: what is still in the index was used lately,
    and what was used lately is still in the index. */
module AffinityRuns {
  import opened Basics
  import opened Affinity

  /** The index after a run from the empty one. */
  function After(ttl: Time, run: seq<Request>): Index { PickAll(EmptyIndex(), ttl, run) }

  function PickNow(x: Index, ttl: Time, q: Request): (Index, int) {
    Pick(x, ttl, q.model, q.chunks, q.ids, q.now)
  }

  lemma {:induction false} PickAllLast(x: Index, ttl: Time, run: seq<Request>)
    requires |run| > 0
    ensures PickAll(x, ttl, run) == PickNow(PickAll(x, ttl, run[..|run| - 1]), ttl, run[|run| - 1]).0
    decreases |run|
  {
    if |run| > 1 {
      PickAllLast(PickNow(x, ttl, run[0]).0, ttl, run[1..]);
      assert run[1..][..|run| - 2] == run[..|run| - 1][1..];
    } else {
      assert run[..0] == [] && run[1..] == [];
    }
  }

  /** The upstream the k-th request of a run came down to. */
  function ServedBy(ttl: Time, run: seq<Request>, k: nat): Id
    requires k < |run| && run[k].ids != []
  {
    var q := run[k];
    PickServesOne(After(ttl, run[..k]), ttl, q);
    Chosen(q.ids, PickNow(After(ttl, run[..k]), ttl, q).1)
  }

  lemma PickServesOne(x: Index, ttl: Time, q: Request)
    ensures q.ids != [] ==> -1 <= PickNow(x, ttl, q).1 < |q.ids|
  {
  }

  /** A request routed through a prefix of a model's prompts. */
  predicate Uses(q: Request, model: string, p: Path) { q.ids != [] && q.model == model && p <= q.chunks }

  /** Some request used the prefix at most a window before the instant. */
  ghost predicate UsedNear(run: seq<Request>, model: string, p: Path, t: Time, window: Time) {
    exists j :: 0 <= j < |run| && Uses(run[j], model, p) && t - window <= run[j].now <= t
  }

  ghost predicate Warm(run: seq<Request>, model: string, p: Path, from: Time, until: Time, window: Time) {
    forall t {:trigger UsedNear(run, model, p, t, window)} :: from <= t <= until ==> UsedNear(run, model, p, t, window)
  }

  /** An upstream the run recorded on the prefix, warm ever since. */
  ghost predicate Recorded(ttl: Time, run: seq<Request>, model: string, p: Path, id: Id, until: Time) {
    exists k :: 0 <= k < |run| && RecordedBy(ttl, run, k, model, p, id, until)
  }

  ghost predicate RecordedBy(ttl: Time, run: seq<Request>, k: nat, model: string, p: Path, id: Id, until: Time)
    requires k < |run|
  {
    Uses(run[k], model, p) && ServedBy(ttl, run, k) == id && Warm(run, model, p, run[k].now, until, ttl + ttl / 2)
  }

  /** A node's touch is a use, and every upstream it holds was recorded there. */
  ghost predicate Traced(ttl: Time, run: seq<Request>, model: string, p: Path, i: Info) {
    && (exists j :: 0 <= j < |run| && Uses(run[j], model, p) && run[j].now == i.touched)
    && (forall id :: id in i.endpoints ==> Recorded(ttl, run, model, p, id, i.touched))
  }

  /** No node older than a TTL before the last sweep. */
  ghost predicate SweptUp(x: Index, ttl: Time) {
    && (x.sweptAt.Never? ==> x.models == map[])
    && (x.sweptAt.At? ==> forall m, p :: m in x.models && p in x.models[m] && p != [] ==> x.models[m][p].touched >= x.sweptAt.time - ttl)
  }

  ghost predicate AllTraced(ttl: Time, run: seq<Request>, x: Index) {
    forall m, p :: m in x.models && p in x.models[m] && p != [] ==> Traced(ttl, run, m, p, x.models[m][p])
  }

  // ---------------------------------------------------------------------
  // A longer run
  // ---------------------------------------------------------------------

  lemma UsedNearStays(run: seq<Request>, q: Request, model: string, p: Path, t: Time, window: Time)
    requires UsedNear(run, model, p, t, window)
    ensures UsedNear(run + [q], model, p, t, window)
  {
    var j :| 0 <= j < |run| && Uses(run[j], model, p) && t - window <= run[j].now <= t;
    assert (run + [q])[j] == run[j];
  }

  lemma WarmStays(run: seq<Request>, q: Request, model: string, p: Path, from: Time, until: Time, window: Time)
    requires Warm(run, model, p, from, until, window)
    ensures Warm(run + [q], model, p, from, until, window)
  {
    forall t {:trigger UsedNear(run + [q], model, p, t, window)} | from <= t <= until
      ensures UsedNear(run + [q], model, p, t, window)
    {
      assert UsedNear(run, model, p, t, window);
      UsedNearStays(run, q, model, p, t, window);
    }
  }

  /** Warm until a use is warm until a window after it. */
  lemma WarmOn(run: seq<Request>, model: string, p: Path, from: Time, j: nat, mid: Time, until: Time, window: Time)
    requires j < |run| && Uses(run[j], model, p) && run[j].now == mid && Warm(run, model, p, from, mid, window)
    requires until <= mid + window
    ensures Warm(run, model, p, from, until, window)
  {
    forall t {:trigger UsedNear(run, model, p, t, window)} | from <= t <= until
      ensures UsedNear(run, model, p, t, window)
    {
      assert t <= mid ==> UsedNear(run, model, p, t, window);
    }
  }

  lemma RecordedStays(ttl: Time, run: seq<Request>, q: Request, model: string, p: Path, id: Id, until: Time)
    requires Recorded(ttl, run, model, p, id, until)
    ensures Recorded(ttl, run + [q], model, p, id, until)
  {
    var k :| 0 <= k < |run| && RecordedBy(ttl, run, k, model, p, id, until);
    assert (run + [q])[..k] == run[..k] && (run + [q])[k] == run[k];
    WarmStays(run, q, model, p, run[k].now, until, ttl + ttl / 2);
    assert RecordedBy(ttl, run + [q], k, model, p, id, until);
  }

  lemma TracedStays(ttl: Time, run: seq<Request>, q: Request, model: string, p: Path, i: Info)
    requires Traced(ttl, run, model, p, i)
    ensures Traced(ttl, run + [q], model, p, i)
  {
    var j :| 0 <= j < |run| && Uses(run[j], model, p) && run[j].now == i.touched;
    assert (run + [q])[j] == run[j];
    forall id | id in i.endpoints ensures Recorded(ttl, run + [q], model, p, id, i.touched) {
      RecordedStays(ttl, run, q, model, p, id, i.touched);
    }
  }

  lemma RecordedByOn(ttl: Time, run: seq<Request>, k: nat, model: string, p: Path, id: Id, j: nat, mid: Time, until: Time)
    requires k < |run| && RecordedBy(ttl, run, k, model, p, id, mid)
    requires j < |run| && Uses(run[j], model, p) && run[j].now == mid && until <= mid + ttl + ttl / 2
    ensures RecordedBy(ttl, run, k, model, p, id, until)
  {
    WarmOn(run, model, p, run[k].now, j, mid, until, ttl + ttl / 2);
  }

  /** A use that comes within the window of the last one keeps the prefix warm. */
  lemma RecordedOn(ttl: Time, run: seq<Request>, q: Request, model: string, p: Path, i: Info, id: Id)
    requires Traced(ttl, run, model, p, i) && id in i.endpoints && i.touched <= q.now <= i.touched + ttl + ttl / 2
    ensures Recorded(ttl, run, model, p, id, q.now)
  {
    var j :| 0 <= j < |run| && Uses(run[j], model, p) && run[j].now == i.touched;
    var k :| 0 <= k < |run| && RecordedBy(ttl, run, k, model, p, id, i.touched);
    RecordedByOn(ttl, run, k, model, p, id, j, i.touched, q.now);
  }

  lemma WarmNow(run: seq<Request>, model: string, p: Path, k: nat, window: Time)
    requires k < |run| && Uses(run[k], model, p) && window >= 0
    ensures Warm(run, model, p, run[k].now, run[k].now, window)
  {
    assert UsedNear(run, model, p, run[k].now, window);
  }

  lemma RecordedNow(ttl: Time, run: seq<Request>, q: Request, p: Path)
    requires ttl >= 0 && q.ids != [] && p <= q.chunks
    ensures var id := (PickServesOne(After(ttl, run), ttl, q); Chosen(q.ids, PickNow(After(ttl, run), ttl, q).1));
            Recorded(ttl, run + [q], q.model, p, id, q.now)
  {
    var all, k := run + [q], |run|;
    assert all[..k] == run && all[k] == q;
    PickServesOne(After(ttl, run), ttl, q);
    WarmNow(all, q.model, p, k, ttl + ttl / 2);
    assert RecordedBy(ttl, all, k, q.model, p, Chosen(q.ids, PickNow(After(ttl, run), ttl, q).1), q.now);
  }

  // ---------------------------------------------------------------------
  // One pick
  // ---------------------------------------------------------------------

  /** What the sweep before a pick leaves was touched lately. */
  lemma PreparedIsRecent(x: Index, ttl: Time, now: Time, m: string, p: Path)
    requires SweptUp(x, ttl) && ttl >= 0
    requires m in Prepared(x, ttl, now).models && p in Prepared(x, ttl, now).models[m] && p != []
    ensures m in x.models && p in x.models[m] && Prepared(x, ttl, now).models[m][p] == x.models[m][p]
    ensures now <= x.models[m][p].touched + ttl + ttl / 2
  {
  }

  lemma PreparedIsSwept(x: Index, ttl: Time, now: Time)
    requires SweptUp(x, ttl) && ttl >= 0
    ensures SweptUp(Prepared(x, ttl, now), ttl) && Prepared(x, ttl, now).sweptAt.At?
  {
    forall m, p | m in Prepared(x, ttl, now).models && p in Prepared(x, ttl, now).models[m] && p != []
      ensures Prepared(x, ttl, now).models[m][p].touched >= Prepared(x, ttl, now).sweptAt.time - ttl
    {
      PreparedIsRecent(x, ttl, now, m, p);
    }
  }

  /** The matched model's nodes after a pick. */
  lemma PickedNode(ttl: Time, run: seq<Request>, x: Index, q: Request, p: Path)
    requires ttl >= 0 && x == After(ttl, run) && AllTraced(ttl, run, x) && SweptUp(x, ttl)
    requires forall m, r :: m in x.models && r in x.models[m] ==> x.models[m][r].touched <= q.now
    requires q.ids != [] && HasRoom(Prepared(x, ttl, q.now), q.model) && Rooted(TrieOf(Prepared(x, ttl, q.now), q.model, q.now))
    requires var t' := MatchAndRecord(TrieOf(Prepared(x, ttl, q.now), q.model, q.now), q.chunks, q.ids, q.now).0; p in t' && p != []
    ensures var t' := MatchAndRecord(TrieOf(Prepared(x, ttl, q.now), q.model, q.now), q.chunks, q.ids, q.now).0;
            Traced(ttl, run + [q], q.model, p, t'[p]) && q.now <= t'[p].touched + ttl + ttl / 2
  {
    var y := Prepared(x, ttl, q.now);
    var t := TrieOf(y, q.model, q.now);
    PickForm(t, q.chunks, q.ids, q.now);
    var (t', chosen) := MatchAndRecord(t, q.chunks, q.ids, q.now);
    if p in t {
      PreparedIsRecent(x, ttl, q.now, q.model, p);
    }
    if p <= q.chunks {
      assert (run + [q])[|run|] == q && Uses(q, q.model, p);
      RecordedNow(ttl, run, q, p);
      forall id | id in t'[p].endpoints ensures Recorded(ttl, run + [q], q.model, p, id, q.now) {
        if id != q.ids[chosen] {
          RecordedOn(ttl, run, q, q.model, p, t[p], id);
          RecordedStays(ttl, run, q, q.model, p, id, q.now);
        }
      }
    } else {
      TracedStays(ttl, run, q, q.model, p, t[p]);
    }
  }

  ghost predicate Recent(x: Index, window: Time, now: Time) {
    forall m, p :: m in x.models && p in x.models[m] && p != [] ==> now <= x.models[m][p].touched + window
  }

  lemma PickTracesAt(ttl: Time, run: seq<Request>, q: Request, clock: Time, m: string, p: Path)
    requires ttl >= 0 && clock <= q.now && q.ids != []
    requires var x := After(ttl, run); GoodIndex(x, clock) && AllTraced(ttl, run, x) && SweptUp(x, ttl)
    requires var y := PickNow(After(ttl, run), ttl, q).0; m in y.models && p in y.models[m] && p != []
    ensures var i := PickNow(After(ttl, run), ttl, q).0.models[m][p];
            Traced(ttl, run + [q], m, p, i) && q.now <= i.touched + ttl + ttl / 2
  {
    var x := After(ttl, run);
    var z := Prepared(x, ttl, q.now);
    if m == q.model && HasRoom(z, q.model) {
      PreparedKeepsGood(x, ttl, clock, q.now);
      TrieOfIsGood(z, q.model, q.now);
      TouchesByNow(x, clock);
      PickedNode(ttl, run, x, q, p);
    } else {
      PreparedIsRecent(x, ttl, q.now, m, p);
      TracedStays(ttl, run, q, m, p, x.models[m][p]);
    }
  }

  /** The nodes a pick leaves are no older than the sweep promises: the sweep's own
      leave, and what it touches now. */
  lemma PickIsSweptUp(x: Index, ttl: Time, q: Request, clock: Time)
    requires ttl >= 0 && clock <= q.now && q.ids != [] && GoodIndex(x, clock) && SweptUp(x, ttl)
    ensures SweptUp(PickNow(x, ttl, q).0, ttl)
  {
    var y, z := PickNow(x, ttl, q).0, Prepared(x, ttl, q.now);
    PreparedIsSwept(x, ttl, q.now);
    PreparedKeepsGood(x, ttl, clock, q.now);
    TrieOfIsGood(z, q.model, q.now);
    if HasRoom(z, q.model) {
      PickForm(TrieOf(z, q.model, q.now), q.chunks, q.ids, q.now);
      forall m, p | m in y.models && p in y.models[m] && p != [] ensures y.models[m][p].touched >= z.sweptAt.time - ttl {
        if m != q.model || !(p <= q.chunks) {
          assert m in z.models && p in z.models[m] && y.models[m][p] == z.models[m][p];
        }
      }
    }
  }

  lemma PickTraces(ttl: Time, run: seq<Request>, q: Request, clock: Time)
    requires ttl >= 0 && clock <= q.now
    requires var x := After(ttl, run); GoodIndex(x, clock) && AllTraced(ttl, run, x) && SweptUp(x, ttl)
    ensures var y := PickNow(After(ttl, run), ttl, q).0;
            AllTraced(ttl, run + [q], y) && SweptUp(y, ttl) && (q.ids != [] ==> Recent(y, ttl + ttl / 2, q.now))
  {
    var x := After(ttl, run);
    if q.ids == [] {
      forall m, p | m in x.models && p in x.models[m] && p != [] ensures Traced(ttl, run + [q], m, p, x.models[m][p]) {
        TracedStays(ttl, run, q, m, p, x.models[m][p]);
      }
    } else {
      PickIsSweptUp(x, ttl, q, clock);
      var y := PickNow(x, ttl, q).0;
      forall m, p | m in y.models && p in y.models[m] && p != []
        ensures Traced(ttl, run + [q], m, p, y.models[m][p]) && q.now <= y.models[m][p].touched + ttl + ttl / 2
      {
        PickTracesAt(ttl, run, q, clock, m, p);
      }
    }
  }

  lemma TouchesByNow(x: Index, clock: Time)
    requires GoodIndex(x, clock)
    ensures forall m, r :: m in x.models && r in x.models[m] ==> x.models[m][r].touched <= clock
  {
    forall m, r | m in x.models && r in x.models[m] ensures x.models[m][r].touched <= clock {
      assert Good(x.models[m], clock);
    }
  }

  // ---------------------------------------------------------------------
  // Whole runs
  // ---------------------------------------------------------------------

  function ClockOf(run: seq<Request>, start: Time): Time {
    if |run| == 0 then start else run[|run| - 1].now
  }

  lemma LastApart(run: seq<Request>, clock: Time)
    requires |run| > 0 && ClockOrdered(run, clock)
    ensures run[..|run| - 1] + [run[|run| - 1]] == run
    ensures ClockOrdered(run[..|run| - 1], clock) && ClockOf(run[..|run| - 1], clock) <= run[|run| - 1].now
  {
  }

  lemma {:induction false} RunTraces(ttl: Time, run: seq<Request>, clock: Time)
    requires ttl >= 0 && ClockOrdered(run, clock)
    ensures var x := After(ttl, run);
            && GoodIndex(x, ClockOf(run, clock)) && AllTraced(ttl, run, x) && SweptUp(x, ttl)
            && (|run| > 0 && run[|run| - 1].ids != [] ==> Recent(x, ttl + ttl / 2, ClockOf(run, clock)))
    decreases |run|
  {
    RunsKeepGoodIndex(EmptyIndex(), ttl, run, clock);
    if |run| > 0 {
      var init, q := run[..|run| - 1], run[|run| - 1];
      LastApart(run, clock);
      RunTraces(ttl, init, clock);
      PickAllLast(EmptyIndex(), ttl, run);
      PickTraces(ttl, init, q, ClockOf(init, clock));
    }
  }

  /** After every pick of every run nothing below a root was last touched more than
      one and a half TTLs before it. */
  lemma StaleNodesAreGone(ttl: Time, run: seq<Request>, clock: Time)
    requires ttl > 0 && ClockOrdered(run, clock) && |run| > 0 && run[|run| - 1].ids != []
    ensures var x, now := After(ttl, run), run[|run| - 1].now;
            forall m, p :: m in x.models && p in x.models[m] && p != [] ==> now - x.models[m][p].touched <= ttl + ttl / 2
  {
    RunTraces(ttl, run, clock);
  }

  /** A promoted upstream was recorded by an earlier request of the run on a prefix
      of this prompt, and at every instant since then the prefix had been used
      within the last one and a half TTLs. */
  lemma PromotedWasRecorded(ttl: Time, run: seq<Request>, q: Request, clock: Time)
    requires ttl > 0 && ClockOrdered(run, clock) && ClockOf(run, clock) <= q.now && q.ids != []
    ensures var position := PickNow(After(ttl, run), ttl, q).1;
            position != -1 ==>
              && 0 < position < |q.ids|
              && exists d :: 0 < d <= |q.chunks| && Recorded(ttl, run, q.model, q.chunks[..d], q.ids[position], q.now)
  {
    var x := After(ttl, run);
    RunTraces(ttl, run, clock);
    PickIsTheLongestMatch(x, ttl, q, ClockOf(run, clock));
    PickServesOne(x, ttl, q);
    var y, position := Prepared(x, ttl, q.now), PickNow(x, ttl, q).1;
    if position != -1 {
      var t := TrieOf(y, q.model, q.now);
      var d := DeepestHeld(t, q.chunks, q.ids, |q.chunks|);
      PreparedIsRecent(x, ttl, q.now, q.model, q.chunks[..d]);
      TouchesByNow(x, ClockOf(run, clock));
      RecordedOn(ttl, run, q, q.model, q.chunks[..d], t[q.chunks[..d]], q.ids[position]);
    }
  }

  // ---------------------------------------------------------------------
  // What stays
  // ---------------------------------------------------------------------

  /** A node still there, no less held and touched no earlier. */
  predicate Kept(x: Index, y: Index, m: string, p: Path)
    requires m in x.models && p in x.models[m]
  {
    && m in y.models && p in y.models[m]
    && x.models[m][p].endpoints <= y.models[m][p].endpoints && x.models[m][p].touched <= y.models[m][p].touched
  }

  lemma SweepKeepsFresh(x: Index, ttl: Time, now: Time, m: string, p: Path)
    requires m in x.models && p in x.models[m] && p != [] && now - x.models[m][p].touched <= ttl
    ensures m in Prepared(x, ttl, now).models && p in Prepared(x, ttl, now).models[m]
    ensures Prepared(x, ttl, now).models[m][p] == x.models[m][p]
  {
    if SweepDue(x, ttl, now) {
      var u := Unexpired(x.models[m], now, ttl);
      assert p in u && {[], p} <= u.Keys;
      SubsetSize({[], p}, u.Keys);
    }
  }

  /** A pick takes nothing from a node, and moves no touch back. */
  lemma PickKeepsNode(t: Trie, q: Request, p: Path)
    requires Rooted(t) && q.ids != [] && p in t && t[p].touched <= q.now
    ensures var t' := MatchAndRecord(t, q.chunks, q.ids, q.now).0;
            p in t' && t[p].endpoints <= t'[p].endpoints && t[p].touched <= t'[p].touched
  {
    PickForm(t, q.chunks, q.ids, q.now);
    if p == [] {
      assert p <= q.chunks;
    }
  }

  lemma PickKeepsPrepared(x: Index, ttl: Time, q: Request, m: string, p: Path)
    requires var y := Prepared(x, ttl, q.now);
             && m in y.models && p in y.models[m] && y.models[m][p].touched <= q.now && Rooted(y.models[m])
    ensures q.ids != [] ==> Kept(Prepared(x, ttl, q.now), PickNow(x, ttl, q).0, m, p)
  {
    if q.ids != [] && m == q.model {
      PickKeepsNode(Prepared(x, ttl, q.now).models[m], q, p);
    }
  }

  lemma PickKeepsFresh(x: Index, ttl: Time, q: Request, clock: Time, m: string, p: Path)
    requires GoodIndex(x, clock) && clock <= q.now
    requires m in x.models && p in x.models[m] && p != [] && q.now - x.models[m][p].touched <= ttl
    ensures Kept(x, PickNow(x, ttl, q).0, m, p)
  {
    SweepKeepsFresh(x, ttl, q.now, m, p);
    PreparedKeepsGood(x, ttl, clock, q.now);
    TouchesByNow(x, clock);
    assert Good(Prepared(x, ttl, q.now).models[m], q.now);
    PickKeepsPrepared(x, ttl, q, m, p);
  }

  lemma RestOrdered(run: seq<Request>, clock: Time)
    requires |run| > 0 && ClockOrdered(run, clock)
    ensures clock <= run[0].now && ClockOrdered(run[1..], run[0].now)
  {
  }

  /** Nothing is forgotten within its TTL: what a node holds it still holds as long
      as no request comes more than a TTL after its touch. */
  lemma {:induction false} FreshNodesStay(x: Index, ttl: Time, run: seq<Request>, clock: Time, m: string, p: Path)
    requires GoodIndex(x, clock) && ClockOrdered(run, clock)
    requires m in x.models && p in x.models[m] && p != []
    requires forall j :: 0 <= j < |run| ==> run[j].now - x.models[m][p].touched <= ttl
    ensures Kept(x, PickAll(x, ttl, run), m, p)
    decreases |run|
  {
    if run != [] {
      var q, y := run[0], PickNow(x, ttl, run[0]).0;
      RestOrdered(run, clock);
      PickKeepsFresh(x, ttl, q, clock, m, p);
      PickKeepsGoodIndex(x, ttl, q.model, q.chunks, q.ids, clock, q.now);
      FreshNodesStay(y, ttl, run[1..], q.now, m, p);
    }
  }

  /** A sweep runs at a pick exactly when none has yet or the last is half a TTL
      back; one that does not run forgets nothing. */
  lemma SweepsWhenDue(ttl: Time, run: seq<Request>, q: Request, clock: Time)
    requires ttl > 0 && ClockOrdered(run, clock) && ClockOf(run, clock) <= q.now && q.ids != []
    ensures var x, y := After(ttl, run), After(ttl, run + [q]);
            if x.sweptAt == Never || q.now - x.sweptAt.time >= ttl / 2 then y.sweptAt == At(q.now)
            else y.sweptAt == x.sweptAt && forall m, p :: m in x.models && p in x.models[m] ==> Kept(x, y, m, p)
  {
    var x := After(ttl, run);
    assert (run + [q])[..|run|] == run;
    PickAllLast(EmptyIndex(), ttl, run + [q]);
    RunsKeepGoodIndex(EmptyIndex(), ttl, run, clock);
    if !SweepDue(x, ttl, q.now) {
      forall m, p | m in x.models && p in x.models[m] ensures Kept(x, PickNow(x, ttl, q).0, m, p) {
        assert Good(x.models[m], ClockOf(run, clock));
        PickKeepsPrepared(x, ttl, q, m, p);
      }
    }
  }

  // ---------------------------------------------------------------------
  // One pick
  // ---------------------------------------------------------------------

  /** A node a pick finds: it is there and, if the pick sweeps, within its TTL. */
  predicate Stays(x: Index, ttl: Time, now: Time, m: string, p: Path) {
    && m in x.models && p in x.models[m]
    && (x.sweptAt == Never || now - x.sweptAt.time >= ttl / 2 ==> now - x.models[m][p].touched <= ttl)
  }

  lemma PreparedHolds(x: Index, ttl: Time, now: Time, m: string, p: Path)
    requires p != []
    ensures var y := Prepared(x, ttl, now);
            && (m in y.models && p in y.models[m] <==> Stays(x, ttl, now, m, p))
            && (Stays(x, ttl, now, m, p) ==> y.models[m][p] == x.models[m][p])
  {
    if Stays(x, ttl, now, m, p) && SweepDue(x, ttl, now) {
      SweepKeepsFresh(x, ttl, now, m, p);
    }
  }

  /** A pick once its sweep is over. */
  function PickSwept(z: Index, q: Request): (r: (Index, int))
    requires q.ids != []
    ensures -1 <= r.1 < |q.ids|
  {
    if !HasRoom(z, q.model) then (z, -1)
    else
      var (t', chosen) := MatchAndRecord(TrieOf(z, q.model, q.now), q.chunks, q.ids, q.now);
      (Index(z.models[q.model := t'], z.sweptAt), if chosen == 0 then -1 else chosen)
  }

  lemma PickIsSwept(x: Index, ttl: Time, q: Request)
    requires q.ids != []
    ensures PickNow(x, ttl, q) == PickSwept(Prepared(x, ttl, q.now), q)
  {
  }

  lemma SweptPickMovesNode(z: Index, q: Request, m: string, p: Path)
    requires GoodIndex(z, q.now) && q.ids != [] && p != []
    ensures var (y, position) := PickSwept(z, q);
            var held := if m in z.models then HeldBefore(z.models[m], p) else {};
            if m in y.models && p in y.models[m] then
              if Uses(q, m, p) then y.models[m][p] == Info(held + {Chosen(q.ids, position)}, q.now)
              else m in z.models && p in z.models[m] && y.models[m][p] == z.models[m][p]
            else !(m in z.models && p in z.models[m])
  {
    if m == q.model && HasRoom(z, m) {
      TrieOfIsGood(z, m, q.now);
      PickForm(TrieOf(z, m, q.now), q.chunks, q.ids, q.now);
    }
  }

  /** What one pick does to every node: along the prompt's chain a node gains the
      served upstream and the touch, every other is as it was, and only what the
      sweep found past its TTL is gone. */
  lemma PickMovesNode(x: Index, ttl: Time, q: Request, clock: Time, m: string, p: Path)
    requires GoodIndex(x, clock) && clock <= q.now && q.ids != [] && p != []
    ensures -1 <= PickNow(x, ttl, q).1 < |q.ids|
    ensures var (y, position) := PickNow(x, ttl, q);
            var held := if Stays(x, ttl, q.now, m, p) then x.models[m][p].endpoints else {};
            if m in y.models && p in y.models[m] then
              if Uses(q, m, p) then y.models[m][p] == Info(held + {Chosen(q.ids, position)}, q.now)
              else Stays(x, ttl, q.now, m, p) && y.models[m][p] == x.models[m][p]
            else !Stays(x, ttl, q.now, m, p)
  {
    PreparedHolds(x, ttl, q.now, m, p);
    PreparedKeepsGood(x, ttl, clock, q.now);
    PickIsSwept(x, ttl, q);
    SweptPickMovesNode(Prepared(x, ttl, q.now), q, m, p);
  }

  lemma SweptPickFills(z: Index, q: Request)
    requires GoodIndex(z, q.now) && q.ids != []
    ensures var (y, position) := PickSwept(z, q);
            && y.sweptAt == z.sweptAt
            && (if q.model in y.models then q.chunks in y.models[q.model] || Nodes(y.models[q.model]) == MAX_NODES
                else position == -1 && |y.models| == MAX_MODELS)
            && forall m :: m in y.models && m != q.model ==> m in z.models && y.models[m] == z.models[m]
  {
    if HasRoom(z, q.model) {
      TrieOfIsGood(z, q.model, q.now);
      PickForm(TrieOf(z, q.model, q.now), q.chunks, q.ids, q.now);
    }
  }

  /** The whole chain is recorded unless its trie is at the node ceiling, and the
      model has a trie unless as many others as may be have; a sweep leaves no other
      trie empty. */
  lemma PickFillsToTheCeilings(x: Index, ttl: Time, q: Request, clock: Time)
    requires GoodIndex(x, clock) && clock <= q.now && q.ids != []
    ensures var (y, position) := PickNow(x, ttl, q);
            && (if q.model in y.models then q.chunks in y.models[q.model] || Nodes(y.models[q.model]) == MAX_NODES
                else position == -1 && |y.models| == MAX_MODELS)
            && (y.sweptAt != x.sweptAt ==> forall m :: m in y.models && m != q.model ==> Nodes(y.models[m]) > 0)
  {
    PreparedKeepsGood(x, ttl, clock, q.now);
    PickIsSwept(x, ttl, q);
    SweptPickFills(Prepared(x, ttl, q.now), q);
  }

  // ---------------------------------------------------------------------
  // An old record kept warm
  // ---------------------------------------------------------------------

  /** The node at the path holds exactly these upstreams, last touched then. */
  predicate Holds(x: Index, m: string, p: Path, ids: set<Id>, now: Time) {
    m in x.models && p in x.models[m] && x.models[m][p] == Info(ids, now)
  }

  lemma FirstChunk(p: Path, now: Time, t': Trie)
    requires |p| == 1 && forall r :: r in t' ==> r in NewTrie(now) || r <= p
    ensures Nodes(t') <= 1
  {
    forall r | r in t' ensures r in {[], p} {
      if |r| == 1 {
        assert r[0] == p[0] && r == p;
      }
    }
    SubsetSize(t'.Keys, {[], p});
  }

  lemma FirstAsk(ttl: Time, q: Request)
    requires |q.chunks| == 1 && |q.ids| == 1
    ensures Holds(PickNow(EmptyIndex(), ttl, q).0, q.model, q.chunks, {q.ids[0]}, q.now)
  {
    var y := Prepared(EmptyIndex(), ttl, q.now);
    assert y.models.Keys == {};
    var t := NewTrie(q.now);
    PickForm(t, q.chunks, q.ids, q.now);
    var t' := MatchAndRecord(t, q.chunks, q.ids, q.now).0;
    FirstChunk(q.chunks, q.now, t');
  }

  lemma NextAsk(x: Index, ttl: Time, q: Request, held: set<Id>, was: Time)
    requires Holds(x, q.model, q.chunks, held, was) && GoodIndex(x, was) && was <= q.now <= was + ttl
    requires q.chunks != [] && |q.ids| == 1
    ensures Holds(PickNow(x, ttl, q).0, q.model, q.chunks, held + {q.ids[0]}, q.now)
  {
    SweepKeepsFresh(x, ttl, q.now, q.model, q.chunks);
    PreparedKeepsGood(x, ttl, was, q.now);
    var t := Prepared(x, ttl, q.now).models[q.model];
    assert Good(t, q.now);
    PickForm(t, q.chunks, q.ids, q.now);
  }

  lemma LastAsk(x: Index, ttl: Time, q: Request, held: set<Id>, was: Time, i: nat)
    requires Holds(x, q.model, q.chunks, held, was) && GoodIndex(x, was) && was <= q.now <= was + ttl
    requires q.chunks != [] && q.ids != [] && i > 0 && IsHit(held, q.ids, i)
    ensures PickNow(x, ttl, q).1 == i
  {
    SweepKeepsFresh(x, ttl, q.now, q.model, q.chunks);
    PreparedKeepsGood(x, ttl, was, q.now);
    var t := Prepared(x, ttl, q.now).models[q.model];
    assert Good(t, q.now);
    ChosenAtEnd(t, q.chunks, q.ids, q.now, i);
  }

  /** A chain whose whole length is held comes down to the hit at its end. */
  lemma ChosenAtEnd(t: Trie, chunks: seq<Hash>, ids: seq<Id>, now: Time, i: nat)
    requires Rooted(t) && Nested(t) && ids != [] && chunks != [] && chunks in t && IsHit(t[chunks].endpoints, ids, i)
    ensures MatchAndRecord(t, chunks, ids, now).1 == i
  {
    assert chunks[..|chunks|] == chunks;
    HitIsUnique(t[chunks].endpoints, ids, i, Hit(t[chunks].endpoints, ids));
    GreedyWalkIsLongestMatch(t, chunks, ids, now);
    ChosenIsBest(t, chunks, ids, now);
    HitIsUnique(t[chunks].endpoints, ids, i, Match(t, chunks, ids, now).1);
  }

  lemma SecondIsHit(a: Id, b: Id, c: Id)
    requires c != a && c != b
    ensures IsHit({b} + {a}, [c, b], 1)
  {
  }

  /** How long ago an upstream was recorded bounds nothing while others use its
      prefix: recorded at 0, the prefix used for another at one TTL, it is promoted
      at two. */
  lemma OldRecordIsPromoted(ttl: Time, m: string, h: Hash, a: Id, b: Id, c: Id)
    requires ttl > 0 && a != b && c != a && c != b
    ensures var run := [Request(m, [h], [b], 0), Request(m, [h], [a], ttl)];
            PickNow(After(ttl, run), ttl, Request(m, [h], [c, b], 2 * ttl)).1 == 1
  {
    var first, second := Request(m, [h], [b], 0), Request(m, [h], [a], ttl);
    var x := PickNow(EmptyIndex(), ttl, first).0;
    var y := PickNow(x, ttl, second).0;
    FirstAsk(ttl, first);
    PickKeepsGoodIndex(EmptyIndex(), ttl, m, [h], [b], 0, 0);
    NextAsk(x, ttl, second, {b}, 0);
    PickKeepsGoodIndex(x, ttl, m, [h], [a], 0, ttl);
    SecondIsHit(a, b, c);
    LastAsk(y, ttl, Request(m, [h], [c, b], 2 * ttl), {b} + {a}, ttl, 1);
    RunOfTwo(ttl, first, second);
  }

  lemma RunOfTwo(ttl: Time, first: Request, second: Request)
    ensures After(ttl, [first, second]) == PickNow(PickNow(EmptyIndex(), ttl, first).0, ttl, second).0
  {
    var run := [first, second];
    PickAllLast(EmptyIndex(), ttl, run);
    assert run[..1] == [first];
    PickAllLast(EmptyIndex(), ttl, [first]);
    assert [first][..0] == [];
  }
}
