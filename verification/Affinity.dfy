/** The prompt-prefix index as a value: what one trie holds, what a match, a
    record and a sweep do to it, and what every sequence of picks keeps.

    A trie is a map from chunk-hash paths to nodes; the root is the empty path.
    The heap structure that implements it is in AffinityTrie. */
module Affinity {
  import opened Basics

  type Id = string
  type Hash = nat
  type Path = seq<Hash>

  datatype Info = Info(endpoints: set<Id>, touched: Time)

  /** The root is always there. */
  type Trie = t: map<Path, Info> | [] in t witness map[[] := Info({}, 0)]

  const MAX_NODES := 8192
  const MAX_MODELS := 512

  function Parent(p: Path): Path
    requires p != []
  {
    p[..|p| - 1]
  }

  // ---------------------------------------------------------------------
  // What every reachable trie satisfies
  // ---------------------------------------------------------------------

  /** Every node hangs below a node. */
  ghost predicate Rooted(t: Trie) {
    forall p :: p in t && p != [] ==> Parent(p) in t
  }

  /** An upstream held at a node is held at every non-root ancestor. */
  ghost predicate Nested(t: Trie)
    requires Rooted(t)
  {
    forall p :: p in t && |p| > 1 ==> t[p].endpoints <= t[Parent(p)].endpoints
  }

  /** A node is touched no earlier than anything below it. */
  ghost predicate FreshAbove(t: Trie)
    requires Rooted(t)
  {
    forall p :: p in t && p != [] ==> t[p].touched <= t[Parent(p)].touched
  }

  ghost predicate TouchedBy(t: Trie, clock: Time) {
    forall p :: p in t ==> t[p].touched <= clock
  }

  /** The counter the source keeps: nodes below the root. */
  function Nodes(t: Trie): int { |t| - 1 }

  ghost predicate Good(t: Trie, clock: Time) {
    Rooted(t) && Nested(t) && FreshAbove(t) && TouchedBy(t, clock) && Nodes(t) <= MAX_NODES
  }

  lemma {:induction false} PrefixPresent(t: Trie, p: Path, k: nat)
    requires Rooted(t) && p in t && k <= |p|
    ensures p[..k] in t
    decreases |p|
  {
    if k == |p| {
      assert p[..k] == p;
    } else {
      PrefixPresent(t, Parent(p), k);
      assert Parent(p)[..k] == p[..k];
    }
  }

  /** Freshness carries along whole paths, not only single edges. */
  lemma {:induction false} FreshAlongPath(t: Trie, p: Path, k: nat)
    requires Rooted(t) && FreshAbove(t) && p in t && k <= |p|
    ensures p[..k] in t && t[p].touched <= t[p[..k]].touched
    decreases |p|
  {
    if k == |p| {
      assert p[..k] == p;
    } else {
      FreshAlongPath(t, Parent(p), k);
      assert Parent(p)[..k] == p[..k];
    }
  }

  /** Endpoint nesting carries along whole paths. */
  lemma {:induction false} NestedAlongPath(t: Trie, p: Path, k: nat)
    requires Rooted(t) && Nested(t) && p in t && 1 <= k <= |p|
    ensures p[..k] in t && t[p].endpoints <= t[p[..k]].endpoints
    decreases |p|
  {
    if k == |p| {
      assert p[..k] == p;
    } else {
      NestedAlongPath(t, Parent(p), k);
      assert Parent(p)[..k] == p[..k];
    }
  }

  // ---------------------------------------------------------------------
  // Matching
  // ---------------------------------------------------------------------

  /** h is the lowest router position among the candidates a node holds; a
      candidate listed twice counts at its last position. */
  ghost predicate IsHit(endpoints: set<Id>, ids: seq<Id>, h: int) {
    if h < 0 then
      h == -1 && forall i :: 0 <= i < |ids| ==> ids[i] !in endpoints
    else
      && h < |ids| && ids[h] in endpoints && LastAt(ids, h)
      && forall i :: 0 <= i < h && ids[i] in endpoints ==> !LastAt(ids, i)
  }

  predicate LastAt(ids: seq<Id>, i: int)
    requires 0 <= i < |ids|
  {
    ids[i] !in ids[i + 1..]
  }

  function Hit(endpoints: set<Id>, ids: seq<Id>): (h: int)
    ensures IsHit(endpoints, ids, h)
  {
    HitFrom(endpoints, ids, 0)
  }

  function HitFrom(endpoints: set<Id>, ids: seq<Id>, i: nat): (h: int)
    requires i <= |ids|
    requires forall j :: 0 <= j < i && ids[j] in endpoints ==> !LastAt(ids, j)
    ensures IsHit(endpoints, ids, h)
    decreases |ids| - i
  {
    if i == |ids| then
      NoLastNoMember(endpoints, ids, |ids|);
      -1
    else if ids[i] in endpoints && LastAt(ids, i) then i
    else HitFrom(endpoints, ids, i + 1)
  }

  lemma {:induction false} NoLastNoMember(endpoints: set<Id>, ids: seq<Id>, n: nat)
    requires n <= |ids|
    requires forall j :: 0 <= j < |ids| && ids[j] in endpoints ==> !LastAt(ids, j)
    ensures forall j :: |ids| - n <= j < |ids| ==> ids[j] !in endpoints
  {
    if n > 0 {
      NoLastNoMember(endpoints, ids, n - 1);
    }
  }

  /** The greedy walk from depth k on, with the best hit so far: the new touch
      times and the position found. */
  function MatchFrom(t: Trie, chunks: seq<Hash>, k: nat, ids: seq<Id>, now: Time, best: int): (Trie, int)
    requires k <= |chunks|
    decreases |chunks| - k
  {
    if k == |chunks| || chunks[..k + 1] !in t then (t, best)
    else
      var p := chunks[..k + 1];
      var t' := t[p := t[p].(touched := now)];
      var hit := Hit(t[p].endpoints, ids);
      if hit < 0 then (t', best) else MatchFrom(t', chunks, k + 1, ids, now, hit)
  }

  lemma MatchStep(t: Trie, chunks: seq<Hash>, k: nat, ids: seq<Id>, now: Time, best: int)
    requires k < |chunks|
    ensures chunks[..k + 1] !in t ==> MatchFrom(t, chunks, k, ids, now, best) == (t, best)
    ensures chunks[..k + 1] in t ==>
      var p := chunks[..k + 1];
      var hit := Hit(t[p].endpoints, ids);
      var t' := t[p := t[p].(touched := now)];
      && (hit < 0 ==> MatchFrom(t, chunks, k, ids, now, best) == (t', best))
      && (hit >= 0 ==> MatchFrom(t, chunks, k, ids, now, best) == MatchFrom(t', chunks, k + 1, ids, now, hit))
  {
  }

  function Match(t: Trie, chunks: seq<Hash>, ids: seq<Id>, now: Time): (Trie, int) {
    MatchFrom(t, chunks, 0, ids, now, -1)
  }

  /** Reference: the deepest prefix of the chain, scanned from the far end,
      that holds any of the candidates; 0 when none does. */
  function DeepestHeld(t: Trie, chunks: seq<Hash>, ids: seq<Id>, k: nat): (d: nat)
    requires k <= |chunks|
    ensures d <= k
  {
    if k == 0 then 0
    else if chunks[..k] in t && Hit(t[chunks[..k]].endpoints, ids) >= 0 then k
    else DeepestHeld(t, chunks, ids, k - 1)
  }

  ghost predicate SameShape(t: Trie, t': Trie) {
    t.Keys == t'.Keys && forall p :: p in t ==> t[p].endpoints == t'[p].endpoints
  }

  /** Holding a candidate is closed under taking shorter prefixes. */
  lemma HeldIsDownwardClosed(t: Trie, chunks: seq<Hash>, ids: seq<Id>, d: nat, k: nat)
    requires Rooted(t) && Nested(t)
    requires 1 <= k <= d <= |chunks| && chunks[..d] in t && Hit(t[chunks[..d]].endpoints, ids) >= 0
    ensures chunks[..k] in t && Hit(t[chunks[..k]].endpoints, ids) >= 0
  {
    NestedAlongPath(t, chunks[..d], k);
    assert chunks[..d][..k] == chunks[..k];
    var h := Hit(t[chunks[..d]].endpoints, ids);
    assert ids[h] in t[chunks[..k]].endpoints;
  }

  lemma {:induction false} NothingHeldBelow(t: Trie, chunks: seq<Hash>, ids: seq<Id>, n: nat, k: nat)
    requires n <= |chunks| && DeepestHeld(t, chunks, ids, n) < k <= n
    ensures !(chunks[..k] in t && Hit(t[chunks[..k]].endpoints, ids) >= 0)
    decreases n
  {
    if k < n {
      NothingHeldBelow(t, chunks, ids, n - 1, k);
    }
  }

  lemma {:induction false} DeepestHeldHolds(t: Trie, chunks: seq<Hash>, ids: seq<Id>, n: nat)
    requires n <= |chunks|
    ensures var d := DeepestHeld(t, chunks, ids, n);
            d > 0 ==> chunks[..d] in t && Hit(t[chunks[..d]].endpoints, ids) >= 0
  {
    if n > 0 {
      DeepestHeldHolds(t, chunks, ids, n - 1);
    }
  }

  ghost function BestAt(t: Trie, chunks: seq<Hash>, ids: seq<Id>, d: nat): int
    requires d <= |chunks|
    requires d > 0 ==> chunks[..d] in t
  {
    if d == 0 then -1 else Hit(t[chunks[..d]].endpoints, ids)
  }

  lemma {:induction false} GreedyReachesDeepest(t0: Trie, t: Trie, chunks: seq<Hash>, k: nat, ids: seq<Id>, now: Time)
    requires Rooted(t0) && Nested(t0) && SameShape(t0, t)
    requires k <= DeepestHeld(t0, chunks, ids, |chunks|)
    requires k > 0 ==> chunks[..k] in t0
    ensures var d := DeepestHeld(t0, chunks, ids, |chunks|);
            && (d > 0 ==> chunks[..d] in t0)
            && MatchFrom(t, chunks, k, ids, now, BestAt(t0, chunks, ids, k)).1 == BestAt(t0, chunks, ids, d)
    decreases |chunks| - k
  {
    var d := DeepestHeld(t0, chunks, ids, |chunks|);
    DeepestHeldHolds(t0, chunks, ids, |chunks|);
    if k == d {
      if k < |chunks| {
        NothingHeldBelow(t0, chunks, ids, |chunks|, k + 1);
      }
    } else {
      HeldIsDownwardClosed(t0, chunks, ids, d, k + 1);
      var p := chunks[..k + 1];
      GreedyReachesDeepest(t0, t[p := t[p].(touched := now)], chunks, k + 1, ids, now);
    }
  }

  /** The walk that stops at the first depth without an eligible hit still
      finds the deepest prefix any eligible upstream holds, and there the
      candidate the router prefers. */
  lemma GreedyWalkIsLongestMatch(t: Trie, chunks: seq<Hash>, ids: seq<Id>, now: Time)
    requires Rooted(t) && Nested(t)
    ensures var d := DeepestHeld(t, chunks, ids, |chunks|);
            var best := Match(t, chunks, ids, now).1;
            && (d == 0 <==> best == -1)
            && (d > 0 ==> chunks[..d] in t && IsHit(t[chunks[..d]].endpoints, ids, best) && best >= 0)
  {
    GreedyReachesDeepest(t, t, chunks, 0, ids, now);
    DeepestHeldHolds(t, chunks, ids, |chunks|);
  }

  /** A match moves touch times along the chain and nothing else. */
  ghost predicate StampedAlong(t: Trie, t': Trie, chunks: seq<Hash>, now: Time) {
    && SameShape(t, t')
    && forall p :: p in t ==> t'[p] == t[p] || (p <= chunks && t'[p].touched == now)
  }

  lemma {:induction false} MatchStamps(t0: Trie, t: Trie, chunks: seq<Hash>, k: nat, ids: seq<Id>, now: Time, best: int)
    requires k <= |chunks| && StampedAlong(t0, t, chunks, now)
    ensures StampedAlong(t0, MatchFrom(t, chunks, k, ids, now, best).0, chunks, now)
    decreases |chunks| - k
  {
    if k < |chunks| && chunks[..k + 1] in t {
      var p := chunks[..k + 1];
      var t' := t[p := t[p].(touched := now)];
      var hit := Hit(t[p].endpoints, ids);
      if hit >= 0 {
        MatchStamps(t0, t', chunks, k + 1, ids, now, hit);
      }
    }
  }

  lemma {:induction false} MatchRange(t: Trie, chunks: seq<Hash>, k: nat, ids: seq<Id>, now: Time, best: int)
    requires k <= |chunks| && -1 <= best < |ids|
    ensures -1 <= MatchFrom(t, chunks, k, ids, now, best).1 < |ids|
    decreases |chunks| - k
  {
    if k < |chunks| && chunks[..k + 1] in t {
      var p := chunks[..k + 1];
      var hit := Hit(t[p].endpoints, ids);
      if hit >= 0 {
        MatchRange(t[p := t[p].(touched := now)], chunks, k + 1, ids, now, hit);
      }
    }
  }

  // ---------------------------------------------------------------------
  // Recording
  // ---------------------------------------------------------------------

  function RecordFrom(t: Trie, chunks: seq<Hash>, k: nat, id: Id, now: Time): Trie
    requires k <= |chunks|
    decreases |chunks| - k
  {
    if k == |chunks| then t
    else
      var p := chunks[..k + 1];
      if p in t then
        RecordFrom(t[p := Info(t[p].endpoints + {id}, now)], chunks, k + 1, id, now)
      else if Nodes(t) >= MAX_NODES then t
      else RecordFrom(t[p := Info({id}, now)], chunks, k + 1, id, now)
  }

  lemma RecordStep(t: Trie, chunks: seq<Hash>, k: nat, id: Id, now: Time)
    requires k < |chunks|
    ensures var p := chunks[..k + 1];
      RecordFrom(t, chunks, k, id, now) ==
        if p !in t && Nodes(t) >= MAX_NODES then t
        else RecordFrom(t[p := Info(HeldBefore(t, p) + {id}, now)], chunks, k + 1, id, now)
  {
    assert {} + {id} == {id};
  }

  function Record(t: Trie, chunks: seq<Hash>, id: Id, now: Time): Trie
  {
    RecordFrom(t[[] := t[[]].(touched := now)], chunks, 0, id, now)
  }

  function HeldBefore(t: Trie, p: Path): set<Id> {
    if p in t then t[p].endpoints else {}
  }

  /** The recorded trie, node by node: everything along the recorded part of the
      chain gains the upstream and the touch, nothing else moves, and a chain is
      cut short only by the node ceiling. */
  ghost predicate Recorded(t: Trie, t': Trie, chunks: seq<Hash>, k: nat, id: Id, now: Time)
    requires k <= |chunks|
  {
    && t.Keys <= t'.Keys
    && (forall p :: p in t' && p !in t ==> p <= chunks && k < |p|)
    && (forall p :: p in t' && p <= chunks && k < |p| ==> t'[p] == Info(HeldBefore(t, p) + {id}, now))
    && (forall p :: p in t' && !(p <= chunks && k < |p|) ==> p in t && t'[p] == t[p])
    && (Nodes(t) <= MAX_NODES ==> Nodes(t') <= MAX_NODES)
    && (chunks !in t' ==> Nodes(t') >= MAX_NODES)
    && (Rooted(t) && chunks[..k] in t ==> Rooted(t'))
  }

  lemma {:induction false} RecordFromForm(t: Trie, chunks: seq<Hash>, k: nat, id: Id, now: Time)
    requires k <= |chunks| && Rooted(t) && chunks[..k] in t
    ensures k <= |chunks| && Recorded(t, RecordFrom(t, chunks, k, id, now), chunks, k, id, now)
    decreases |chunks| - k
  {
    if k == |chunks| {
      assert chunks[..k] == chunks;
    } else {
      var p := chunks[..k + 1];
      assert Parent(p) == chunks[..k];
      if p in t {
        var t1 := t[p := Info(t[p].endpoints + {id}, now)];
        assert t1.Keys == t.Keys;
        RecordFromForm(t1, chunks, k + 1, id, now);
        OneDeeper(t, t1, RecordFrom(t1, chunks, k + 1, id, now), chunks, k, id, now);
      } else if Nodes(t) >= MAX_NODES {
        CutChain(t, chunks, k);
      } else {
        var t1 := t[p := Info({id}, now)];
        assert t1.Keys == t.Keys + {p};
        assert Info({id}, now) == Info(HeldBefore(t, p) + {id}, now);
        RecordFromForm(t1, chunks, k + 1, id, now);
        OneDeeper(t, t1, RecordFrom(t1, chunks, k + 1, id, now), chunks, k, id, now);
      }
    }
  }

  lemma CutChain(t: Trie, chunks: seq<Hash>, k: nat)
    requires Rooted(t) && k < |chunks| && chunks[..k + 1] !in t
    ensures forall p :: p in t && p <= chunks ==> |p| <= k
  {
    forall p | p in t && p <= chunks ensures |p| <= k {
      if |p| > k {
        assert p[..k + 1] == chunks[..k + 1];
        PrefixPresent(t, p, k + 1);
      }
    }
  }

  lemma OneDeeperAt(t: Trie, t1: Trie, t2: Trie, chunks: seq<Hash>, k: nat, id: Id, now: Time, p: Path)
    requires k < |chunks| && p in t2
    requires var q := chunks[..k + 1]; t1 == t[q := Info(HeldBefore(t, q) + {id}, now)]
    requires p <= chunks && k + 1 < |p| ==> t2[p] == Info(HeldBefore(t1, p) + {id}, now)
    requires !(p <= chunks && k + 1 < |p|) ==> p in t1 && t2[p] == t1[p]
    ensures p <= chunks && k < |p| ==> t2[p] == Info(HeldBefore(t, p) + {id}, now)
    ensures !(p <= chunks && k < |p|) ==> p in t && t2[p] == t[p]
  {
    if p <= chunks && |p| == k + 1 {
      assert p == chunks[..k + 1];
    }
  }

  lemma OneDeeper(t: Trie, t1: Trie, t2: Trie, chunks: seq<Hash>, k: nat, id: Id, now: Time)
    requires k < |chunks| && Rooted(t) && chunks[..k] in t
    requires var p := chunks[..k + 1];
             && t1 == t[p := Info(HeldBefore(t, p) + {id}, now)]
             && t1.Keys == t.Keys + {p}
             && Rooted(t1)
             && (Nodes(t) <= MAX_NODES ==> Nodes(t1) <= MAX_NODES)
             && Recorded(t1, t2, chunks, k + 1, id, now)
    ensures Recorded(t, t2, chunks, k, id, now)
  {
    forall p | p in t2
      ensures p <= chunks && k < |p| ==> t2[p] == Info(HeldBefore(t, p) + {id}, now)
      ensures !(p <= chunks && k < |p|) ==> p in t && t2[p] == t[p]
    {
      OneDeeperAt(t, t1, t2, chunks, k, id, now, p);
    }
  }

  /** What a pick leaves behind, from the trie before it: the match's touches
      are all overwritten by the record that follows. */
  ghost predicate Picked(t: Trie, t': Trie, chunks: seq<Hash>, id: Id, now: Time) {
    && t.Keys <= t'.Keys
    && (forall p :: p in t' && p !in t ==> p <= chunks)
    && (forall p :: p in t' && p <= chunks && p != [] ==> t'[p] == Info(HeldBefore(t, p) + {id}, now))
    && t'[[]] == Info(t[[]].endpoints, now)
    && (forall p :: p in t' && !(p <= chunks) ==> p in t && t'[p] == t[p])
    && (Nodes(t) <= MAX_NODES ==> Nodes(t') <= MAX_NODES)
    && (chunks !in t' ==> Nodes(t') >= MAX_NODES)
    && Rooted(t')
  }

  function MatchAndRecord(t: Trie, chunks: seq<Hash>, ids: seq<Id>, now: Time): (r: (Trie, int))
    requires ids != []
    ensures 0 <= r.1 < |ids|
  {
    MatchRange(t, chunks, 0, ids, now, -1);
    MatchStamps(t, t, chunks, 0, ids, now, -1);
    var (t1, best) := Match(t, chunks, ids, now);
    var chosen := if best < 0 then 0 else best;
    (Record(t1, chunks, ids[chosen], now), chosen)
  }

  lemma PickForm(t: Trie, chunks: seq<Hash>, ids: seq<Id>, now: Time)
    requires Rooted(t) && ids != []
    ensures var (t', chosen) := MatchAndRecord(t, chunks, ids, now);
            Picked(t, t', chunks, ids[chosen], now)
  {
    MatchStamps(t, t, chunks, 0, ids, now, -1);
    var (t1, best) := Match(t, chunks, ids, now);
    var (t', chosen) := MatchAndRecord(t, chunks, ids, now);
    var t2 := t1[[] := t1[[]].(touched := now)];
    assert t2.Keys == t.Keys;
    assert chunks[..0] == [];
    RecordFromForm(t2, chunks, 0, ids[chosen], now);
    forall p | p in t' && p <= chunks && p != []
      ensures t'[p] == Info(HeldBefore(t, p) + {ids[chosen]}, now)
    {
      assert HeldBefore(t, p) == HeldBefore(t2, p);
    }
    assert t'[[]] == t2[[]];
  }

  /** Touches and upstreams stay ordered at each path. */
  lemma PickedOrder(t: Trie, t': Trie, chunks: seq<Hash>, id: Id, clock: Time, now: Time, p: Path)
    requires Good(t, clock) && clock <= now && Picked(t, t', chunks, id, now) && p in t' && p != []
    ensures t'[p].touched <= t'[Parent(p)].touched
    ensures |p| > 1 ==> t'[p].endpoints <= t'[Parent(p)].endpoints
  {
    if p <= chunks {
      assert Parent(p) <= chunks;
      if |p| > 1 && p in t {
        assert t[p].endpoints <= t[Parent(p)].endpoints;
      }
    } else {
      assert p in t && t'[p] == t[p] && Parent(p) in t;
    }
  }

  /** Every pick keeps the invariant. */
  lemma PickKeepsGood(t: Trie, chunks: seq<Hash>, ids: seq<Id>, clock: Time, now: Time)
    requires Good(t, clock) && clock <= now && ids != []
    ensures Good(MatchAndRecord(t, chunks, ids, now).0, now)
  {
    PickForm(t, chunks, ids, now);
    var (t', chosen) := MatchAndRecord(t, chunks, ids, now);
    forall p | p in t' && p != []
      ensures t'[p].touched <= t'[Parent(p)].touched
      ensures |p| > 1 ==> t'[p].endpoints <= t'[Parent(p)].endpoints
    {
      PickedOrder(t, t', chunks, ids[chosen], clock, now, p);
    }
  }

  // ---------------------------------------------------------------------
  // Sweeping
  // ---------------------------------------------------------------------

  predicate Expired(i: Info, now: Time, ttl: Time) { now - i.touched > ttl }

  /** Reference: the sweep as a filter on touch times; the root stays. */
  function Unexpired(t: Trie, now: Time, ttl: Time): Trie {
    map p | p in t && (p == [] || !Expired(t[p], now, ttl)) :: t[p]
  }

  /** The sweep of the nodes strictly below p. */
  function PrunedBelow(t: Trie, p: Path, now: Time, ttl: Time): Trie {
    map q | q in t && !(p < q && Expired(t[q], now, ttl)) :: t[q]
  }

  /** Part of that sweep: only below the children named by hs. */
  function PrunedSome(t: Trie, p: Path, hs: set<Hash>, now: Time, ttl: Time): Trie {
    map q | q in t && !(p < q && q[|p|] in hs && Expired(t[q], now, ttl)) :: t[q]
  }

  lemma PrunedIsFresh(t: Trie, p: Path, hs: set<Hash>, now: Time, ttl: Time)
    requires Rooted(t) && FreshAbove(t) && Rooted(PrunedSome(t, p, hs, now, ttl))
    ensures FreshAbove(PrunedSome(t, p, hs, now, ttl))
  {
  }

  lemma ExpiredBelow(t: Trie, p: Path, now: Time, ttl: Time)
    requires Rooted(t) && FreshAbove(t) && p in t && Expired(t[p], now, ttl)
    ensures forall q :: q in t && p <= q ==> Expired(t[q], now, ttl)
  {
    forall q | q in t && p <= q ensures Expired(t[q], now, ttl) {
      FreshAlongPath(t, q, |p|);
      assert q[..|p|] == p;
    }
  }

  lemma BelowChild(p: Path, h: Hash, q: Path)
    ensures p + [h] <= q <==> p < q && q[|p|] == h
  {
    if p < q && q[|p|] == h {
      assert q[..|p|] == p && q[..|p| + 1] == p + [h];
    }
  }

  /** Sweeping one child's subtree, then the child if it is a dead leaf. */
  lemma PrunedLiveChild(t: Trie, p: Path, h: Hash, hs: set<Hash>, now: Time, ttl: Time)
    requires p + [h] in t && !Expired(t[p + [h]], now, ttl)
    ensures PrunedBelow(PrunedSome(t, p, hs, now, ttl), p + [h], now, ttl) == PrunedSome(t, p, hs + {h}, now, ttl)
  {
    var v, w := PrunedBelow(PrunedSome(t, p, hs, now, ttl), p + [h], now, ttl), PrunedSome(t, p, hs + {h}, now, ttl);
    forall q ensures q in w <==> q in v {
      BelowChild(p, h, q);
      if q != p + [h] {
        assert p + [h] < q <==> p + [h] <= q;
      }
    }
  }

  lemma PrunedDeadChild(t: Trie, p: Path, h: Hash, hs: set<Hash>, now: Time, ttl: Time)
    requires Rooted(t) && FreshAbove(t) && p + [h] in t && Expired(t[p + [h]], now, ttl)
    ensures PrunedBelow(PrunedSome(t, p, hs, now, ttl), p + [h], now, ttl) - {p + [h]} == PrunedSome(t, p, hs + {h}, now, ttl)
  {
    ExpiredBelow(t, p + [h], now, ttl);
    var v, w := PrunedBelow(PrunedSome(t, p, hs, now, ttl), p + [h], now, ttl), PrunedSome(t, p, hs + {h}, now, ttl);
    forall q ensures q in w <==> q in v && q != p + [h] {
      BelowChild(p, h, q);
    }
  }

  lemma DeadChildIsLeaf(t: Trie, p: Path, c: Path, hs: set<Hash>, now: Time, ttl: Time)
    requires Rooted(t) && FreshAbove(t) && c in t && Expired(t[c], now, ttl)
    ensures forall q :: q in PrunedBelow(PrunedSome(t, p, hs, now, ttl), c, now, ttl) && c <= q ==> q == c
  {
    ExpiredBelow(t, c, now, ttl);
  }

  /** Once every child has been swept, everything below p has. */
  lemma PrunedAll(t: Trie, p: Path, kids: set<Hash>, now: Time, ttl: Time)
    requires Rooted(t) && FreshAbove(t) && p in t
    requires forall h :: p + [h] in t ==> h in kids
    ensures PrunedSome(t, p, kids, now, ttl) == PrunedBelow(t, p, now, ttl)
    ensures Expired(t[p], now, ttl) ==> forall q :: p < q ==> q !in PrunedBelow(t, p, now, ttl)
  {
    forall q | q in t && p < q ensures q[|p|] in kids {
      PrefixPresent(t, q, |p| + 1);
      var h := q[|p|];
      assert q[..|p| + 1] == p + [h];
      assert p + [h] in t;
    }
    if Expired(t[p], now, ttl) {
      ExpiredBelow(t, p, now, ttl);
    }
  }

  lemma PrunedRoot(t: Trie, now: Time, ttl: Time)
    ensures PrunedBelow(t, [], now, ttl) == Unexpired(t, now, ttl)
  {
  }

  lemma SweepKeepsGood(t: Trie, clock: Time, now: Time, ttl: Time)
    requires Good(t, clock) && clock <= now
    ensures Good(Unexpired(t, now, ttl), now)
  {
    var u := Unexpired(t, now, ttl);
    assert u.Keys <= t.Keys;
    SubsetSize(u.Keys, t.Keys);
  }

  // ---------------------------------------------------------------------
  // The index
  // ---------------------------------------------------------------------

  datatype Swept = Never | At(time: Time)

  datatype Index = Index(models: map<string, Trie>, sweptAt: Swept)

  predicate SweepDue(x: Index, ttl: Time, now: Time) {
    x.sweptAt.Never? || now - x.sweptAt.time >= ttl / 2
  }

  /** Every trie pruned, the ones left without a node dropped. */
  function SweepAll(x: Index, ttl: Time, now: Time): Index {
    Index(map m | m in x.models && Nodes(Unexpired(x.models[m], now, ttl)) > 0 :: Unexpired(x.models[m], now, ttl), At(now))
  }

  function NewTrie(now: Time): Trie { map[[] := Info({}, now)] }

  function Prepared(x: Index, ttl: Time, now: Time): Index {
    if SweepDue(x, ttl, now) then SweepAll(x, ttl, now) else x
  }

  predicate HasRoom(x: Index, model: string) {
    model in x.models || |x.models| < MAX_MODELS
  }

  function TrieOf(x: Index, model: string, now: Time): Trie {
    if model in x.models then x.models[model] else NewTrie(now)
  }

  /** One pick: the new index and the position to promote, -1 for the router's
      own order. */
  function Pick(x: Index, ttl: Time, model: string, chunks: seq<Hash>, ids: seq<Id>, now: Time): (Index, int) {
    if ids == [] then (x, -1)
    else
      var x1 := Prepared(x, ttl, now);
      if !HasRoom(x1, model) then (x1, -1)
      else
        var (t', chosen) := MatchAndRecord(TrieOf(x1, model, now), chunks, ids, now);
        (Index(x1.models[model := t'], x1.sweptAt), if chosen == 0 then -1 else chosen)
  }

  ghost predicate GoodIndex(x: Index, clock: Time) {
    && |x.models| <= MAX_MODELS
    && (forall m :: m in x.models ==> Good(x.models[m], clock))
    && (x.sweptAt.At? ==> x.sweptAt.time <= clock)
  }

  lemma SweepAllKeepsGood(x: Index, ttl: Time, clock: Time, now: Time)
    requires GoodIndex(x, clock) && clock <= now
    ensures GoodIndex(SweepAll(x, ttl, now), now)
  {
    var y := SweepAll(x, ttl, now);
    assert y.models.Keys <= x.models.Keys;
    SubsetSize(y.models.Keys, x.models.Keys);
    forall m | m in y.models ensures Good(y.models[m], now) {
      SweepKeepsGood(x.models[m], clock, now, ttl);
    }
  }

  lemma ClockAdvances(x: Index, clock: Time, now: Time)
    requires GoodIndex(x, clock) && clock <= now
    ensures GoodIndex(x, now)
  {
    forall m | m in x.models ensures Good(x.models[m], now) {
      assert Good(x.models[m], clock);
    }
  }

  lemma PreparedKeepsGood(x: Index, ttl: Time, clock: Time, now: Time)
    requires GoodIndex(x, clock) && clock <= now
    ensures GoodIndex(Prepared(x, ttl, now), now)
  {
    SweepAllKeepsGood(x, ttl, clock, now);
    ClockAdvances(x, clock, now);
  }

  lemma TrieOfIsGood(x: Index, model: string, now: Time)
    requires GoodIndex(x, now)
    ensures Good(TrieOf(x, model, now), now)
  {
  }

  lemma PutKeepsGood(x: Index, model: string, t: Trie, clock: Time)
    requires GoodIndex(x, clock) && Good(t, clock) && HasRoom(x, model)
    ensures GoodIndex(Index(x.models[model := t], x.sweptAt), clock)
  {
    assert x.models[model := t].Keys == x.models.Keys + {model};
  }

  lemma PickKeepsGoodIndex(x: Index, ttl: Time, model: string, chunks: seq<Hash>, ids: seq<Id>, clock: Time, now: Time)
    requires GoodIndex(x, clock) && clock <= now
    ensures GoodIndex(Pick(x, ttl, model, chunks, ids, now).0, now)
  {
    PreparedKeepsGood(x, ttl, clock, now);
    var x1 := Prepared(x, ttl, now);
    if ids == [] {
      ClockAdvances(x, clock, now);
    } else if HasRoom(x1, model) {
      TrieOfIsGood(x1, model, now);
      var t := TrieOf(x1, model, now);
      PickKeepsGood(t, chunks, ids, now, now);
      PutKeepsGood(x1, model, MatchAndRecord(t, chunks, ids, now).0, now);
    }
  }

  datatype Request = Request(model: string, chunks: seq<Hash>, ids: seq<Id>, now: Time)

  ghost predicate ClockOrdered(run: seq<Request>, clock: Time) {
    && (forall i :: 0 <= i < |run| ==> clock <= run[i].now)
    && (forall i, j :: 0 <= i < j < |run| ==> run[i].now <= run[j].now)
  }

  function PickAll(x: Index, ttl: Time, run: seq<Request>): Index
    decreases |run|
  {
    if run == [] then x
    else PickAll(Pick(x, ttl, run[0].model, run[0].chunks, run[0].ids, run[0].now).0, ttl, run[1..])
  }

  /** Every reachable index is good, whatever was asked and when. */
  lemma {:induction false} RunsKeepGoodIndex(x: Index, ttl: Time, run: seq<Request>, clock: Time)
    requires GoodIndex(x, clock) && ClockOrdered(run, clock)
    ensures GoodIndex(PickAll(x, ttl, run), if run == [] then clock else run[|run| - 1].now)
    decreases |run|
  {
    if run != [] {
      var q := run[0];
      PickKeepsGoodIndex(x, ttl, q.model, q.chunks, q.ids, clock, q.now);
      RunsKeepGoodIndex(Pick(x, ttl, q.model, q.chunks, q.ids, q.now).0, ttl, run[1..], q.now);
    }
  }

  // ---------------------------------------------------------------------
  // Stickiness
  // ---------------------------------------------------------------------

  lemma HitIsUnique(endpoints: set<Id>, ids: seq<Id>, h: int, h': int)
    requires IsHit(endpoints, ids, h) && IsHit(endpoints, ids, h')
    ensures h == h'
  {
  }

  /** The upstream a pick comes down to: the promoted one, or the router's own
      first. */
  function Chosen(ids: seq<Id>, position: int): Id
    requires -1 <= position < |ids| && |ids| > 0
  {
    ids[if position < 0 then 0 else position]
  }

  /** How far along the chain the trie goes. */
  function Reach(t: Trie, chunks: seq<Hash>, k: nat): (d: nat)
    requires k <= |chunks|
    ensures d <= k && chunks[..d] in t
    ensures forall j :: d < j <= k ==> chunks[..j] !in t
  {
    if chunks[..k] in t then k
    else Reach(t, chunks, k - 1)
  }

  /** Two tries that agree along one chain, as far as candidates go. */
  ghost predicate SameAlong(t: Trie, t': Trie, chunks: seq<Hash>) {
    forall p :: p <= chunks && p != [] ==>
      (p in t <==> p in t') && (p in t ==> t[p].endpoints == t'[p].endpoints)
  }

  /** After a pick, the same chain matches the upstream that was picked. */
  lemma PickedMatchesAgain(t: Trie, t2: Trie, chunks: seq<Hash>, ids: seq<Id>, now: Time, now2: Time)
    requires Rooted(t) && Nested(t) && Rooted(t2) && Nested(t2)
    requires ids != []
    requires SameAlong(MatchAndRecord(t, chunks, ids, now).0, t2, chunks)
    ensures ids[MatchAndRecord(t2, chunks, ids, now2).1] == ids[MatchAndRecord(t, chunks, ids, now).1]
  {
    PickForm(t, chunks, ids, now);
    var (t', c) := MatchAndRecord(t, chunks, ids, now);
    GreedyWalkIsLongestMatch(t, chunks, ids, now);
    GreedyWalkIsLongestMatch(t2, chunks, ids, now2);
    var d := DeepestHeld(t, chunks, ids, |chunks|);
    var d2 := DeepestHeld(t2, chunks, ids, |chunks|);
    DeepestHeldHolds(t2, chunks, ids, |chunks|);
    var r := Reach(t', chunks, |chunks|);
    assert d <= r && d2 <= r;
    if r > 0 {
      var p := chunks[..r];
      assert p <= chunks && p in t2 && t2[p].endpoints == HeldBefore(t, p) + {ids[c]};
      assert Hit(t2[p].endpoints, ids) >= 0 by {
        assert ids[c] in t2[p].endpoints;
      }
      if d2 < r {
        NothingHeldBelow(t2, chunks, ids, |chunks|, r);
        assert false;
      }
      ChosenIsTheHit(t, chunks, ids, now, r);
      HitAfterRecord(HeldBefore(t, p), ids, c);
      HitIsUnique(t2[p].endpoints, ids, Hit(t2[p].endpoints, ids), Match(t2, chunks, ids, now2).1);
    }
  }

  /** Adding the upstream that was chosen keeps, or makes, it the hit. */
  lemma HitAfterRecord(held: set<Id>, ids: seq<Id>, c: nat)
    requires c < |ids| && (Hit(held, ids) >= 0 ==> IsHit(held, ids, c))
    ensures var h := Hit(held + {ids[c]}, ids); h >= 0 && ids[h] == ids[c]
  {
    var more := held + {ids[c]};
    assert ids[c] in more;
    if Hit(held, ids) >= 0 {
      assert more == held;
      HitIsUnique(held, ids, Hit(held, ids), c);
    }
  }

  /** Below the deepest node holding a candidate nothing is held, and at it the
      walk's choice is the hit. */
  lemma ChosenIsTheHit(t: Trie, chunks: seq<Hash>, ids: seq<Id>, now: Time, r: nat)
    requires Rooted(t) && Nested(t) && ids != []
    requires DeepestHeld(t, chunks, ids, |chunks|) <= r <= |chunks| && r > 0
    ensures var held := HeldBefore(t, chunks[..r]);
            Hit(held, ids) >= 0 ==> IsHit(held, ids, MatchAndRecord(t, chunks, ids, now).1)
  {
    var d := DeepestHeld(t, chunks, ids, |chunks|);
    if d < r {
      NothingHeldBelow(t, chunks, ids, |chunks|, r);
    } else {
      GreedyWalkIsLongestMatch(t, chunks, ids, now);
      ChosenIsBest(t, chunks, ids, now);
      assert HeldBefore(t, chunks[..r]) == t[chunks[..d]].endpoints;
    }
  }

  lemma ChosenIsBest(t: Trie, chunks: seq<Hash>, ids: seq<Id>, now: Time)
    requires ids != [] && Match(t, chunks, ids, now).1 >= 0
    ensures MatchAndRecord(t, chunks, ids, now).1 == Match(t, chunks, ids, now).1
  {
  }

  lemma OnlyRoot(t: Trie)
    requires Nodes(t) <= 0
    ensures t.Keys == {[]}
  {
    assert {[]} <= t.Keys;
    assert t.Keys == {[]} + (t.Keys - {[]});
  }

  lemma UnexpiredKeepsChain(t: Trie, chunks: seq<Hash>, ttl: Time, now: Time, now2: Time)
    requires now2 <= now + ttl
    requires forall p :: p in t && p <= chunks && p != [] ==> t[p].touched == now
    ensures SameAlong(t, Unexpired(t, now2, ttl), chunks)
  {
  }

  /** A sweep within the TTL keeps a chain touched now, the model's entry with
      it. */
  lemma SweepKeepsChain(z: Index, ttl: Time, model: string, chunks: seq<Hash>, now: Time, now2: Time)
    requires |z.models| <= MAX_MODELS && model in z.models && now <= now2 <= now + ttl
    requires forall p :: p in z.models[model] && p <= chunks && p != [] ==> z.models[model][p].touched == now
    ensures var y := SweepAll(z, ttl, now2);
            HasRoom(y, model) && SameAlong(z.models[model], TrieOf(y, model, now2), chunks)
  {
    var y, u := SweepAll(z, ttl, now2), Unexpired(z.models[model], now2, ttl);
    UnexpiredKeepsChain(z.models[model], chunks, ttl, now, now2);
    if Nodes(u) > 0 {
      assert y.models[model] == u;
    } else {
      OnlyRoot(u);
      assert TrieOf(y, model, now2).Keys == u.Keys;
      assert y.models.Keys <= z.models.Keys - {model};
      SubsetSize(y.models.Keys, z.models.Keys - {model});
    }
  }

  /** The trie the second pick sees still has the chain the first recorded. */
  lemma ChainSurvives(x: Index, ttl: Time, model: string, chunks: seq<Hash>, ids: seq<Id>, now: Time, now2: Time)
    requires GoodIndex(x, now) && ids != [] && HasRoom(x, model) && now <= now2 <= now + ttl
    ensures var t' := MatchAndRecord(TrieOf(x, model, now), chunks, ids, now).0;
            var y := Prepared(Index(x.models[model := t'], x.sweptAt), ttl, now2);
            && HasRoom(y, model)
            && SameAlong(t', TrieOf(y, model, now2), chunks)
  {
    var t := TrieOf(x, model, now);
    TrieOfIsGood(x, model, now);
    PickForm(t, chunks, ids, now);
    var t' := MatchAndRecord(t, chunks, ids, now).0;
    PickKeepsGood(t, chunks, ids, now, now);
    PutKeepsGood(x, model, t', now);
    SweepKeepsChain(Index(x.models[model := t'], x.sweptAt), ttl, model, chunks, now, now2);
  }

  lemma RepeatedWithRoom(x: Index, ttl: Time, model: string, chunks: seq<Hash>, ids: seq<Id>, now: Time, now2: Time)
    requires GoodIndex(x, now) && ids != [] && HasRoom(x, model)
    requires now <= now2 <= now + ttl
    ensures var (t', c) := MatchAndRecord(TrieOf(x, model, now), chunks, ids, now);
            var again := Pick(Index(x.models[model := t'], x.sweptAt), ttl, model, chunks, ids, now2).1;
            -1 <= again < |ids| && Chosen(ids, again) == ids[c]
  {
    var t := TrieOf(x, model, now);
    TrieOfIsGood(x, model, now);
    PickKeepsGood(t, chunks, ids, now, now);
    var t' := MatchAndRecord(t, chunks, ids, now).0;
    var x1 := Index(x.models[model := t'], x.sweptAt);
    PutKeepsGood(x, model, t', now);
    ChainSurvives(x, ttl, model, chunks, ids, now, now2);
    PreparedKeepsGood(x1, ttl, now, now2);
    var y := Prepared(x1, ttl, now2);
    TrieOfIsGood(y, model, now2);
    PickedMatchesAgain(t, TrieOf(y, model, now2), chunks, ids, now, now2);
  }

  lemma RepeatedWithoutRoom(x: Index, ttl: Time, model: string, chunks: seq<Hash>, ids: seq<Id>, now2: Time)
    requires model !in x.models
    ensures Pick(x, ttl, model, chunks, ids, now2).1 == -1
  {
    var y := Prepared(x, ttl, now2);
    assert model !in y.models;
    if ids != [] {
      FreshTriePromotesNothing(y, model, chunks, ids, now2);
    }
  }

  /** Asking again within the TTL, with nothing asked in between, comes down to
      the same upstream; to the same position when no upstream is listed twice. */
  lemma RepeatedPickAgrees(x: Index, ttl: Time, model: string, chunks: seq<Hash>, ids: seq<Id>, clock: Time, now: Time, now2: Time)
    requires GoodIndex(x, clock) && clock <= now
    requires ids != [] && now <= now2 <= now + ttl
    ensures var (x1, first) := Pick(x, ttl, model, chunks, ids, now);
            var again := Pick(x1, ttl, model, chunks, ids, now2).1;
            && -1 <= first < |ids| && -1 <= again < |ids|
            && Chosen(ids, again) == Chosen(ids, first)
            && (Distinct(ids) ==> again == first)
  {
    PreparedKeepsGood(x, ttl, clock, now);
    var p := Prepared(x, ttl, now);
    if HasRoom(p, model) {
      RepeatedWithRoom(p, ttl, model, chunks, ids, now, now2);
    } else {
      RepeatedWithoutRoom(p, ttl, model, chunks, ids, now2);
    }
  }

  function EmptyIndex(): Index { Index(map[], Never) }

  /** A pick on any good index serves the far-end longest match. */
  lemma PickIsTheLongestMatch(x: Index, ttl: Time, q: Request, clock: Time)
    requires GoodIndex(x, clock) && clock <= q.now && q.ids != []
    ensures var p := Prepared(x, ttl, q.now);
            var t := TrieOf(p, q.model, q.now);
            var d := DeepestHeld(t, q.chunks, q.ids, |q.chunks|);
            var position := Pick(x, ttl, q.model, q.chunks, q.ids, q.now).1;
            if HasRoom(p, q.model) && d > 0 then
              q.chunks[..d] in t && IsHit(t[q.chunks[..d]].endpoints, q.ids, if position < 0 then 0 else position)
            else position == -1
  {
    PreparedKeepsGood(x, ttl, clock, q.now);
    var p := Prepared(x, ttl, q.now);
    TrieOfIsGood(p, q.model, q.now);
    GreedyWalkIsLongestMatch(TrieOf(p, q.model, q.now), q.chunks, q.ids, q.now);
  }

  /** Every pick of every run from an empty index promotes the lowest-position
      candidate at the deepest prefix any candidate is held at, or leaves the
      router's order: nothing held, or no room for the model. */
  lemma EveryPickIsTheLongestMatch(ttl: Time, run: seq<Request>, q: Request, clock: Time)
    requires ClockOrdered(run, clock) && q.ids != []
    requires (if run == [] then clock else run[|run| - 1].now) <= q.now
    ensures var x := PickAll(EmptyIndex(), ttl, run);
            var p := Prepared(x, ttl, q.now);
            var t := TrieOf(p, q.model, q.now);
            var d := DeepestHeld(t, q.chunks, q.ids, |q.chunks|);
            var position := Pick(x, ttl, q.model, q.chunks, q.ids, q.now).1;
            if HasRoom(p, q.model) && d > 0 then
              q.chunks[..d] in t && IsHit(t[q.chunks[..d]].endpoints, q.ids, if position < 0 then 0 else position)
            else position == -1
  {
    var x := PickAll(EmptyIndex(), ttl, run);
    RunsKeepGoodIndex(EmptyIndex(), ttl, run, clock);
    PickIsTheLongestMatch(x, ttl, q, if run == [] then clock else run[|run| - 1].now);
  }

  lemma FreshTriePromotesNothing(x: Index, model: string, chunks: seq<Hash>, ids: seq<Id>, now: Time)
    requires ids != [] && model !in x.models
    ensures MatchAndRecord(TrieOf(x, model, now), chunks, ids, now).1 == 0
  {
    GreedyWalkIsLongestMatch(NewTrie(now), chunks, ids, now);
    DeepestHeldHolds(NewTrie(now), chunks, ids, |chunks|);
  }
}
