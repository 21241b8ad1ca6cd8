/** Several credentials behind one upstream: a round-robin cursor over the ones
    not retired and not burned by the request. */
module CredentialRing {
  import opened Basics

  // ---------------------------------------------------------------------
  // Picking
  // ---------------------------------------------------------------------

  predicate Alive(dead: seq<bool>, i: int) { 0 <= i < |dead| && !dead[i] }

  function AliveSet(dead: seq<bool>): set<int> {
    set i | 0 <= i < |dead| && !dead[i]
  }

  /** The i-th entry of a scan from start, around the ring. */
  function Slot(n: nat, start: nat, i: nat): (r: nat)
    requires start < n && i < n
    ensures r < n
  {
    if start + i < n then start + i else start + i - n
  }

  lemma ModuloBelow(x: nat, n: nat)
    requires x < n
    ensures x % n == x
  {
  }

  lemma ModuloOnce(x: nat, n: nat)
    requires 0 < n <= x < 2 * n
    ensures x % n == x - n
  {
    var q, r := x / n, x % n;
    assert q * n + r == x;
    Quotient(q, n, r);
  }

  lemma Quotient(q: int, n: nat, r: nat)
    requires r < n && n <= q * n + r < 2 * n
    ensures q == 1
  {
    assert q >= 2 ==> (q - 2) * n >= 0;
    assert q <= 0 ==> (0 - q) * n >= 0;
  }

  lemma SlotIsModulo(n: nat, start: nat, i: nat)
    requires start < n && i < n
    ensures (start + i) % n == Slot(n, start, i)
  {
    if start + i < n {
      ModuloBelow(start + i, n);
    } else {
      ModuloOnce(start + i, n);
    }
  }

  /** The first entry from the i-th on that may serve; -1 for none. */
  function Scan(dead: seq<bool>, start: nat, excluded: seq<int>, i: nat): (r: int)
    requires start < |dead| && i <= |dead|
    ensures r == -1 || (Alive(dead, r) && r !in excluded)
    decreases |dead| - i
  {
    if i == |dead| then -1
    else
      var idx := Slot(|dead|, start, i);
      if dead[idx] || idx in excluded then Scan(dead, start, excluded, i + 1) else idx
  }

  function Pick(dead: seq<bool>, cursor: nat, excluded: seq<int>): (int, nat) {
    if |dead| == 0 then (-1, cursor)
    else
      var start := cursor % |dead|;
      var unburned := Scan(dead, start, excluded, 0);
      if unburned >= 0 then (unburned, unburned + 1)
      else
        var any := Scan(dead, start, [], 0);
        if any >= 0 then (any, any + 1) else (-1, cursor + 1)
  }

  /** A scan that finds nothing has passed over every entry. */
  lemma {:induction false} ScanMissesNothing(dead: seq<bool>, start: nat, excluded: seq<int>, i: nat, j: nat)
    requires start < |dead| && i <= j < |dead| && Scan(dead, start, excluded, i) == -1
    ensures dead[Slot(|dead|, start, j)] || Slot(|dead|, start, j) in excluded
    decreases j - i
  {
    if i < j {
      ScanMissesNothing(dead, start, excluded, i + 1, j);
    }
  }

  /** Where a full scan from start meets an entry. */
  function Meets(n: nat, start: nat, idx: nat): (j: nat)
    requires start < n && idx < n
    ensures j < n && Slot(n, start, j) == idx
  {
    if idx >= start then idx - start else idx + n - start
  }

  lemma EmptyScanMeansNone(dead: seq<bool>, start: nat, excluded: seq<int>)
    requires start < |dead| && Scan(dead, start, excluded, 0) == -1
    ensures forall i :: i in AliveSet(dead) ==> i in excluded
  {
    forall i | i in AliveSet(dead) ensures i in excluded {
      ScanMissesNothing(dead, start, excluded, 0, Meets(|dead|, start, i));
    }
  }

  /** A pick serves a credential the request has not burned whenever one is
      alive, repeats one only when all alive ones are burned, and fails exactly
      when none is alive. */
  lemma PickServes(dead: seq<bool>, cursor: nat, excluded: seq<int>)
    ensures var idx := Pick(dead, cursor, excluded).0;
            && (idx == -1 <==> AliveSet(dead) == {})
            && (idx != -1 ==> Alive(dead, idx))
            && ((exists i :: i in AliveSet(dead) && i !in excluded) <==> (idx != -1 && idx !in excluded))
  {
    if |dead| > 0 {
      var start := cursor % |dead|;
      if Scan(dead, start, excluded, 0) == -1 {
        EmptyScanMeansNone(dead, start, excluded);
      } else {
        assert Scan(dead, start, excluded, 0) in AliveSet(dead);
      }
      if Scan(dead, start, [], 0) == -1 {
        EmptyScanMeansNone(dead, start, []);
      } else {
        assert Scan(dead, start, [], 0) in AliveSet(dead);
      }
    }
  }

  // ---------------------------------------------------------------------
  // Counting and the pigeonhole
  // ---------------------------------------------------------------------

  function AliveCount(dead: seq<bool>, n: nat): nat
    requires n <= |dead|
  {
    if n == 0 then 0 else AliveCount(dead, n - 1) + if dead[n - 1] then 0 else 1
  }

  // ---------------------------------------------------------------------
  // A walk around the ring
  // ---------------------------------------------------------------------

  lemma {:induction false} CountGrows(dead: seq<bool>, a: nat, b: nat)
    requires a <= b <= |dead|
    ensures AliveCount(dead, a) <= AliveCount(dead, b)
    ensures (exists i :: a <= i < b && !dead[i]) <==> AliveCount(dead, a) < AliveCount(dead, b)
    decreases b
  {
    if a < b {
      CountGrows(dead, a, b - 1);
      assert (exists i :: a <= i < b && !dead[i]) <==> (exists i :: a <= i < b - 1 && !dead[i]) || !dead[b - 1];
    }
  }

  /** Where a scan ends: every slot it passed may not serve. */
  lemma {:induction false} ScanEnds(dead: seq<bool>, start: nat, excluded: seq<int>, i: nat) returns (k: nat)
    requires start < |dead| && i <= |dead| && Scan(dead, start, excluded, i) != -1
    ensures i <= k < |dead| && Scan(dead, start, excluded, i) == Slot(|dead|, start, k)
    ensures forall j :: i <= j < k ==> dead[Slot(|dead|, start, j)] || Slot(|dead|, start, j) in excluded
    decreases |dead| - i
  {
    var idx := Slot(|dead|, start, i);
    if dead[idx] || idx in excluded {
      k := ScanEnds(dead, start, excluded, i + 1);
    } else {
      k := i;
    }
  }

  lemma ScanFinds(dead: seq<bool>, start: nat, live: nat)
    requires start < |dead| && live in AliveSet(dead)
    ensures Scan(dead, start, [], 0) != -1
  {
    if Scan(dead, start, [], 0) == -1 {
      EmptyScanMeansNone(dead, start, []);
    }
  }

  function Total(dead: seq<bool>): nat { AliveCount(dead, |dead|) }

  /** A count of alive credentials before a position, a whole walk being none. */
  function Wrap(dead: seq<bool>, count: nat): nat { if count == Total(dead) then 0 else count }

  /** How many alive credentials come before the next one the cursor serves. */
  function Rank(dead: seq<bool>, cursor: nat): nat
    requires |dead| > 0
  {
    Wrap(dead, AliveCount(dead, cursor % |dead|))
  }

  /** A pick leaves the cursor at the rank after the one it serves; with nothing
      excluded it serves the cursor's. */
  lemma PickTakesRank(dead: seq<bool>, cursor: nat, excluded: seq<int>)
    requires Total(dead) > 0
    ensures var (idx, cursor') := Pick(dead, cursor, excluded);
            && Alive(dead, idx) && (excluded == [] ==> AliveCount(dead, idx) == Rank(dead, cursor))
            && Rank(dead, cursor') == Wrap(dead, AliveCount(dead, idx) + 1)
  {
    var n, start := |dead|, cursor % |dead|;
    CountGrows(dead, 0, n);
    PickServes(dead, cursor, excluded);
    var live :| 0 <= live < n && !dead[live];
    assert live in AliveSet(dead);
    var (idx, cursor') := Pick(dead, cursor, excluded);
    if excluded == [] {
      var k := ScanEnds(dead, start, [], 0);
      PassedAreDead(dead, start, k);
    }
    AfterIdx(dead, idx);
  }

  /** What a scan that ends k slots on has passed leaves the count alone. */
  lemma PassedAreDead(dead: seq<bool>, start: nat, k: nat)
    requires start < |dead| && k < |dead| && !dead[Slot(|dead|, start, k)]
    requires forall j :: 0 <= j < k ==> dead[Slot(|dead|, start, j)]
    ensures AliveCount(dead, Slot(|dead|, start, k)) == Wrap(dead, AliveCount(dead, start))
  {
    var n, idx := |dead|, Slot(|dead|, start, k);
    CountGrows(dead, idx, idx + 1);
    CountGrows(dead, idx + 1, n);
    if start + k < n {
      forall i | start <= i < idx ensures dead[i] {
        assert Slot(n, start, i - start) == i;
      }
      CountGrows(dead, start, idx);
    } else {
      forall i | start <= i < n ensures dead[i] {
        assert Slot(n, start, i - start) == i;
      }
      CountGrows(dead, start, n);
      forall i | 0 <= i < idx ensures dead[i] {
        assert Slot(n, start, i + n - start) == i;
      }
      CountGrows(dead, 0, idx);
    }
  }

  /** The position after an entry, around the ring. */
  lemma NextStart(idx: nat, n: nat)
    requires idx < n
    ensures (idx + 1) % n == if idx + 1 == n then 0 else idx + 1
  {
    if idx + 1 < n {
      ModuloBelow(idx + 1, n);
    } else {
      ModuloOnce(idx + 1, n);
    }
  }

  lemma AfterIdx(dead: seq<bool>, idx: nat)
    requires idx < |dead| && !dead[idx]
    ensures Rank(dead, idx + 1) == Wrap(dead, AliveCount(dead, idx) + 1)
  {
    NextStart(idx, |dead|);
    CountOne(dead, idx);
    if idx + 1 == |dead| {
      RankAt(dead, idx + 1, 0);
    } else {
      RankAt(dead, idx + 1, idx + 1);
    }
  }

  lemma RankAt(dead: seq<bool>, cursor: nat, start: nat)
    requires |dead| > 0 && cursor % |dead| == start
    ensures Rank(dead, cursor) == Wrap(dead, AliveCount(dead, start))
  {
  }

  lemma CountOne(dead: seq<bool>, idx: nat)
    requires idx < |dead| && !dead[idx]
    ensures AliveCount(dead, idx + 1) == AliveCount(dead, idx) + 1
  {
  }

  /** The cursor after k picks with nothing excluded, and the k-th of them. */
  function CursorAfter(dead: seq<bool>, cursor: nat, k: nat): nat
    decreases k
  {
    if k == 0 then cursor else Pick(dead, CursorAfter(dead, cursor, k - 1), []).1
  }

  function Nth(dead: seq<bool>, cursor: nat, k: nat): int {
    Pick(dead, CursorAfter(dead, cursor, k), []).0
  }

  lemma {:induction false} RankAfter(dead: seq<bool>, cursor: nat, i: nat, k: nat)
    requires |dead| > 0 && k <= Total(dead) && Total(dead) > 0
    ensures var r := Rank(dead, CursorAfter(dead, cursor, i));
            && r < Total(dead)
            && Rank(dead, CursorAfter(dead, cursor, i + k)) == if r + k < Total(dead) then r + k else r + k - Total(dead)
    decreases k
  {
    CountGrows(dead, CursorAfter(dead, cursor, i) % |dead|, |dead|);
    if k > 0 {
      RankAfter(dead, cursor, i, k - 1);
      PickTakesRank(dead, CursorAfter(dead, cursor, i + k - 1), []);
    }
  }

  lemma SameCountSameIndex(dead: seq<bool>, a: nat, b: nat)
    requires a < |dead| && b < |dead| && !dead[a] && !dead[b] && AliveCount(dead, a) == AliveCount(dead, b)
    ensures a == b
  {
    if a < b {
      CountGrows(dead, a, b);
    } else {
      CountGrows(dead, b, a);
    }
  }

  /** Picks with nothing excluded walk the whole ring before repeating: of two
      picks at most a walk apart, the later serves the same credential exactly
      when it is a full walk later. */
  lemma WalksBeforeRepeating(dead: seq<bool>, cursor: nat, i: nat, k: nat)
    requires 0 < k <= Total(dead)
    ensures Alive(dead, Nth(dead, cursor, i))
    ensures Nth(dead, cursor, i + k) == Nth(dead, cursor, i) <==> k == Total(dead)
  {
    RankAfter(dead, cursor, i, k);
    PickTakesRank(dead, CursorAfter(dead, cursor, i), []);
    PickTakesRank(dead, CursorAfter(dead, cursor, i + k), []);
    if k == Total(dead) {
      SameCountSameIndex(dead, Nth(dead, cursor, i), Nth(dead, cursor, i + k));
    }
  }

  /** A request's exclusions can cut the walk short: the next pick repeats the
      last one exactly when every other alive credential is excluded and this one
      is not, or is the only one alive. */
  lemma ExclusionRepeatsIff(dead: seq<bool>, cursor: nat, excluded: seq<int>)
    requires Total(dead) > 0
    ensures var (first, cursor') := Pick(dead, cursor, []);
            Pick(dead, cursor', excluded).0 == first <==>
              && (forall o :: o in AliveSet(dead) && o != first ==> o in excluded)
              && (first !in excluded || forall o :: o in AliveSet(dead) ==> o == first)
  {
    var (first, cursor') := Pick(dead, cursor, []);
    CountGrows(dead, 0, |dead|);
    PickTakesRank(dead, cursor, []);
    PickServes(dead, cursor', excluded);
    var n := |dead|;
    var start := if first + 1 == n then 0 else first + 1;
    NextStart(first, n);
    assert Slot(n, start, n - 1) == first && first in AliveSet(dead);
    if Scan(dead, start, excluded, 0) != -1 {
      LastOfTheScan(dead, start, excluded, first);
    } else {
      EmptyScanMeansNone(dead, start, excluded);
      ScanFinds(dead, start, first);
      LastOfTheScan(dead, start, [], first);
    }
  }

  /** A scan that starts just past an entry ends on it only when nothing else may
      serve. */
  lemma LastOfTheScan(dead: seq<bool>, start: nat, excluded: seq<int>, last: nat)
    requires start < |dead| && last < |dead| && Slot(|dead|, start, |dead| - 1) == last
    requires Scan(dead, start, excluded, 0) != -1
    ensures Scan(dead, start, excluded, 0) == last <==>
              !dead[last] && last !in excluded && forall o :: o in AliveSet(dead) && o != last ==> o in excluded
  {
    var n := |dead|;
    var k := ScanEnds(dead, start, excluded, 0);
    var found := Slot(n, start, k);
    if found == last {
      forall o | o in AliveSet(dead) && o != last ensures o in excluded {
        var j := Meets(n, start, o);
        assert j < k;
      }
    } else {
      assert found in AliveSet(dead) && found !in excluded;
    }
  }

  // ---------------------------------------------------------------------
  // Runs of picks, each with its own exclusions
  // ---------------------------------------------------------------------

  /** The request has burned the credential that is due, and not every alive
      one. */
  ghost predicate Skips(dead: seq<bool>, cursor: nat, excluded: seq<int>) {
    Pick(dead, cursor, []).0 in excluded && exists o :: o in AliveSet(dead) && o !in excluded
  }

  lemma {:induction false} SameScan(dead: seq<bool>, start: nat, excluded: seq<int>, i: nat)
    requires start < |dead| && i <= |dead|
    requires Scan(dead, start, [], i) != -1 && Scan(dead, start, [], i) !in excluded
    ensures Scan(dead, start, excluded, i) == Scan(dead, start, [], i)
    decreases |dead| - i
  {
    if dead[Slot(|dead|, start, i)] {
      SameScan(dead, start, excluded, i + 1);
    }
  }

  /** Exclusions change what a pick serves, and where it leaves the cursor,
      exactly when they skip the credential that is due. */
  lemma ExclusionMovesIff(dead: seq<bool>, cursor: nat, excluded: seq<int>)
    requires Total(dead) > 0
    ensures Pick(dead, cursor, excluded) == Pick(dead, cursor, []) <==> !Skips(dead, cursor, excluded)
  {
    var start, due := cursor % |dead|, Pick(dead, cursor, []).0;
    PickTakesRank(dead, cursor, []);
    ScanFinds(dead, start, due);
    if due !in excluded {
      SameScan(dead, start, excluded, 0);
    } else if Scan(dead, start, excluded, 0) == -1 {
      EmptyScanMeansNone(dead, start, excluded);
    } else {
      assert Scan(dead, start, excluded, 0) in AliveSet(dead);
    }
  }

  /** The cursor after a run of picks, and what the k-th of them served. */
  function CursorAt(dead: seq<bool>, cursor: nat, lists: seq<seq<int>>): nat
    decreases |lists|
  {
    if |lists| == 0 then cursor
    else Pick(dead, CursorAt(dead, cursor, lists[..|lists| - 1]), lists[|lists| - 1]).1
  }

  function ServedAt(dead: seq<bool>, cursor: nat, lists: seq<seq<int>>, k: nat): int
    requires k < |lists|
  {
    Pick(dead, CursorAt(dead, cursor, lists[..k]), lists[k]).0
  }

  /** No pick serves what one less than a whole walk before it did. */
  ghost predicate Walks(dead: seq<bool>, cursor: nat, lists: seq<seq<int>>) {
    forall i, j :: 0 <= i < j < |lists| && j - i < Total(dead) ==>
      ServedAt(dead, cursor, lists, i) != ServedAt(dead, cursor, lists, j)
  }

  ghost predicate SkipsAt(dead: seq<bool>, cursor: nat, lists: seq<seq<int>>, k: nat)
    requires k < |lists|
  {
    Skips(dead, CursorAt(dead, cursor, lists[..k]), lists[k])
  }

  /** How many alive credentials come before the one the k-th pick served. */
  function Place(dead: seq<bool>, cursor: nat, lists: seq<seq<int>>, k: nat): nat
    requires k < |lists| && Total(dead) > 0
  {
    PickTakesRank(dead, CursorAt(dead, cursor, lists[..k]), lists[k]);
    AliveCount(dead, ServedAt(dead, cursor, lists, k))
  }

  /** A pick serves the credential the cursor is due at exactly when it does not
      skip. */
  lemma ServesDueIff(dead: seq<bool>, cursor: nat, excluded: seq<int>)
    requires Total(dead) > 0
    ensures var idx := Pick(dead, cursor, excluded).0;
            Alive(dead, idx) && (AliveCount(dead, idx) == Rank(dead, cursor) <==> !Skips(dead, cursor, excluded))
  {
    PickTakesRank(dead, cursor, excluded);
    PickTakesRank(dead, cursor, []);
    ExclusionMovesIff(dead, cursor, excluded);
    var idx, due := Pick(dead, cursor, excluded).0, Pick(dead, cursor, []).0;
    if AliveCount(dead, idx) == AliveCount(dead, due) {
      SameCountSameIndex(dead, idx, due);
    }
  }

  lemma CursorAtNext(dead: seq<bool>, cursor: nat, lists: seq<seq<int>>, k: nat)
    requires k < |lists|
    ensures CursorAt(dead, cursor, lists[..k + 1]) == Pick(dead, CursorAt(dead, cursor, lists[..k]), lists[k]).1
  {
    assert lists[..k + 1][..k] == lists[..k];
  }

  lemma PlaceAdvances(dead: seq<bool>, cursor: nat, lists: seq<seq<int>>, k: nat)
    requires k + 1 < |lists| && Total(dead) > 0
    ensures Place(dead, cursor, lists, k + 1) == Wrap(dead, Place(dead, cursor, lists, k) + 1) <==> !SkipsAt(dead, cursor, lists, k + 1)
  {
    CursorAtNext(dead, cursor, lists, k);
    PickTakesRank(dead, CursorAt(dead, cursor, lists[..k]), lists[k]);
    ServesDueIff(dead, CursorAt(dead, cursor, lists[..k + 1]), lists[k + 1]);
  }

  /** Without a skip after the i-th pick, the places go round the ring. */
  lemma {:induction false} PlacesGoRound(dead: seq<bool>, cursor: nat, lists: seq<seq<int>>, i: nat, d: nat)
    requires Total(dead) > 0 && i + d < |lists| && d < Total(dead)
    requires forall k :: i < k <= i + d ==> !SkipsAt(dead, cursor, lists, k)
    ensures var p := Place(dead, cursor, lists, i);
            && p < Total(dead)
            && Place(dead, cursor, lists, i + d) == if p + d < Total(dead) then p + d else p + d - Total(dead)
    decreases d
  {
    PlaceBelow(dead, cursor, lists, i);
    if d > 0 {
      PlacesGoRound(dead, cursor, lists, i, d - 1);
      PlaceAdvances(dead, cursor, lists, i + d - 1);
    }
  }

  lemma PlaceBelow(dead: seq<bool>, cursor: nat, lists: seq<seq<int>>, k: nat)
    requires k < |lists| && Total(dead) > 0
    ensures Place(dead, cursor, lists, k) < Total(dead)
  {
    PickTakesRank(dead, CursorAt(dead, cursor, lists[..k]), lists[k]);
    var idx := ServedAt(dead, cursor, lists, k);
    CountOne(dead, idx);
    CountGrows(dead, idx + 1, |dead|);
  }

  /** Picks without exclusions. */
  function Free(m: nat): seq<seq<int>> { seq(m, i => []) }

  /** When a pick skips and none after it does, what the pick before it served comes
      round again before a whole walk. */
  lemma SkipRepeatsEarly(dead: seq<bool>, cursor: nat, lists: seq<seq<int>>, k: nat)
    requires Total(dead) > 0 && 0 < k < |lists| && k + Total(dead) <= |lists| && SkipsAt(dead, cursor, lists, k)
    requires forall j :: k < j < |lists| ==> !SkipsAt(dead, cursor, lists, j)
    ensures !Walks(dead, cursor, lists)
  {
    var n := Total(dead);
    PlaceBelow(dead, cursor, lists, k - 1);
    PlaceBelow(dead, cursor, lists, k);
    PlaceAdvances(dead, cursor, lists, k - 1);
    var p, q := Place(dead, cursor, lists, k - 1), Place(dead, cursor, lists, k);
    var d := if p >= q then p - q else p + n - q;
    PlacesGoRound(dead, cursor, lists, k, d);
    PickTakesRank(dead, CursorAt(dead, cursor, lists[..k - 1]), lists[k - 1]);
    PickTakesRank(dead, CursorAt(dead, cursor, lists[..k + d]), lists[k + d]);
    SameCountSameIndex(dead, ServedAt(dead, cursor, lists, k - 1), ServedAt(dead, cursor, lists, k + d));
  }

  lemma NoSkipWalks(dead: seq<bool>, cursor: nat, lists: seq<seq<int>>)
    requires Total(dead) > 0 && forall k :: 0 < k < |lists| ==> !SkipsAt(dead, cursor, lists, k)
    ensures Walks(dead, cursor, lists)
  {
    forall i, j | 0 <= i < j < |lists| && j - i < Total(dead)
      ensures ServedAt(dead, cursor, lists, i) != ServedAt(dead, cursor, lists, j)
    {
      PlacesGoRound(dead, cursor, lists, i, j - i);
      assert Place(dead, cursor, lists, i + (j - i)) != Place(dead, cursor, lists, i);
    }
  }

  lemma FreeNeverSkips(dead: seq<bool>, cursor: nat, lists: seq<seq<int>>, m: nat, k: nat)
    requires k < |lists| + m
    ensures var all := lists + Free(m);
            if k < |lists| then SkipsAt(dead, cursor, all, k) == SkipsAt(dead, cursor, lists, k) else !SkipsAt(dead, cursor, all, k)
  {
    if k < |lists| {
      assert (lists + Free(m))[..k] == lists[..k];
    }
  }

  lemma {:induction false} LastSkip(dead: seq<bool>, cursor: nat, lists: seq<seq<int>>, n: nat) returns (k: nat)
    requires n <= |lists| && exists j :: 0 < j < n && SkipsAt(dead, cursor, lists, j)
    ensures 0 < k < n && SkipsAt(dead, cursor, lists, k) && forall j :: k < j < n ==> !SkipsAt(dead, cursor, lists, j)
    decreases n
  {
    k := n - 1;
    if !SkipsAt(dead, cursor, lists, k) {
      k := LastSkip(dead, cursor, lists, n - 1);
    }
  }

  /** Picks, whatever each of them excludes and however many exclusion-free ones
      follow, never repeat a credential before the ring has been walked once,
      exactly when none after the first skips the credential that is due. */
  lemma WalksIffNoSkip(dead: seq<bool>, cursor: nat, lists: seq<seq<int>>)
    requires Total(dead) > 0
    ensures (forall m :: Walks(dead, cursor, lists + Free(m))) <==>
            forall k :: 0 < k < |lists| ==> !SkipsAt(dead, cursor, lists, k)
  {
    if k :| 0 < k < |lists| && SkipsAt(dead, cursor, lists, k) {
      var last := LastSkip(dead, cursor, lists, |lists|);
      var all := lists + Free(Total(dead));
      forall j | last <= j < |all| ensures SkipsAt(dead, cursor, all, j) <==> j == last {
        FreeNeverSkips(dead, cursor, lists, Total(dead), j);
      }
      SkipRepeatsEarly(dead, cursor, all, last);
    } else {
      forall m ensures Walks(dead, cursor, lists + Free(m)) {
        forall j | 0 < j < |lists| + m ensures !SkipsAt(dead, cursor, lists + Free(m), j) {
          FreeNeverSkips(dead, cursor, lists, m, j);
        }
        NoSkipWalks(dead, cursor, lists + Free(m));
      }
    }
  }

  /** Three credentials alive, two of them excluded: the walk repeats at once. With
      four, the first comes round again before the last two have served. */
  lemma ExclusionRepeatsAtOnce()
    ensures Pick([false, false, false], 0, []) == (0, 1)
    ensures Pick([false, false, false], 1, [1, 2]).0 == 0
    ensures var dead := [false, false, false, false];
            Pick(dead, 0, []) == (0, 1) && Pick(dead, 1, []) == (1, 2) && Pick(dead, 2, [2, 3]) == (0, 1)
  {
    assert Scan([false, false, false], 0, [], 0) == 0;
    assert Scan([false, false, false], 1, [1, 2], 2) == 0;
    var dead := [false, false, false, false];
    assert Scan(dead, 2, [2, 3], 2) == 0;
  }

  // ---------------------------------------------------------------------
  // Two requests at once
  // ---------------------------------------------------------------------

  /** The shared cursor is added to when a pick starts and stored to when it has
      found its credential. */
  datatype Step = Start(request: nat) | Finish(request: nat)

  datatype Shared = Shared(cursor: nat, starts: map<nat, nat>, served: seq<int>)

  function Move(dead: seq<bool>, s: Shared, step: Step): Shared {
    match step
    case Start(r) => Shared(s.cursor + 1, s.starts[r := s.cursor], s.served)
    case Finish(r) =>
      if r !in s.starts then s
      else
        var (idx, cursor) := Pick(dead, s.starts[r], []);
        Shared(if idx == -1 then s.cursor else cursor, s.starts - {r}, s.served + [idx])
  }

  /** A pick whose two accesses nothing comes between is the pick at one step. */
  lemma UndisturbedIsPick(dead: seq<bool>, s: Shared, r: nat)
    requires |dead| > 0
    ensures var t := Move(dead, Move(dead, s, Start(r)), Finish(r));
            (t.served, t.cursor) == (s.served + [Pick(dead, s.cursor, []).0], Pick(dead, s.cursor, []).1)
  {
  }

  /** One that comes between moves the cursor back: of three alive, the second is
      served to two requests in a row. */
  lemma InterleavedPicksRepeat()
    ensures var dead := [false, false, false];
            var a := Move(dead, Move(dead, Shared(0, map[], []), Start(0)), Start(1));
            var b := Move(dead, Move(dead, a, Finish(1)), Finish(0));
            Move(dead, Move(dead, b, Start(2)), Finish(2)).served == [1, 0, 1]
  {
    var dead := [false, false, false];
    assert Pick(dead, 0, []) == (0, 1) && Pick(dead, 1, []) == (1, 2);
  }

  // ---------------------------------------------------------------------
  // Counts and sizes
  // ---------------------------------------------------------------------

  lemma {:induction false} CountIsSize(dead: seq<bool>, n: nat)
    requires n <= |dead|
    ensures AliveCount(dead, n) == |AliveSet(dead[..n])|
  {
    if n > 0 {
      CountIsSize(dead, n - 1);
      var less, more := AliveSet(dead[..n - 1]), AliveSet(dead[..n]);
      assert forall i :: 0 <= i < n - 1 ==> dead[..n][i] == dead[..n - 1][i];
      assert more == if dead[n - 1] then less else less + {n - 1};
    }
  }

  lemma {:induction false} ElementsAtMost(s: seq<int>)
    ensures |Elements(s)| <= |s|
    ensures Distinct(s) ==> |Elements(s)| == |s|
  {
    if s != [] {
      var init := s[..|s| - 1];
      ElementsAtMost(init);
      assert Elements(s) == Elements(init) + {s[|s| - 1]};
    }
  }

  /** Does the next pick on this ring land on a credential the request has not
      burned? The relay's test, on the counts alone. */
  predicate Rotates(dead: seq<bool>, burned: seq<int>) {
    burned != [] && AliveCount(dead, |dead|) > |burned|
  }

  /** More alive credentials than burned ones leave an unburned one, so the pick
      that follows is fresh. */
  lemma RotationIsFresh(dead: seq<bool>, cursor: nat, burned: seq<int>)
    requires Rotates(dead, burned)
    ensures var idx := Pick(dead, cursor, burned).0; idx != -1 && idx !in burned
  {
    assert dead[..|dead|] == dead;
    CountIsSize(dead, |dead|);
    ElementsAtMost(burned);
    if AliveSet(dead) <= Elements(burned) {
      SubsetSize(AliveSet(dead), Elements(burned));
      assert false;
    }
    var i :| i in AliveSet(dead) && i !in Elements(burned);
    assert i in AliveSet(dead) && i !in burned;
    PickServes(dead, cursor, burned);
  }

  /** The credentials of a ring that are alive and not burned, and the burned
      ones already retired. */
  function FreshSet(dead: seq<bool>, burned: seq<int>): set<int> { AliveSet(dead) - Elements(burned) }

  function SpentSet(dead: seq<bool>, burned: seq<int>): set<int> { Elements(burned) - AliveSet(dead) }

  /** Exactly when the count test sees a fresh credential: the fresh ones have to
      outnumber the burned ones that are already retired. */
  lemma RotatesIff(dead: seq<bool>, burned: seq<int>)
    requires Distinct(burned)
    ensures Rotates(dead, burned) <==> burned != [] && |FreshSet(dead, burned)| > |SpentSet(dead, burned)|
  {
    assert dead[..|dead|] == dead;
    CountIsSize(dead, |dead|);
    ElementsAtMost(burned);
    var a, b := AliveSet(dead), Elements(burned);
    assert a == (a - b) + (a * b);
    assert b == (b - a) + (a * b);
    assert |a| == |a - b| + |a * b|;
    assert |b| == |b - a| + |a * b|;
  }

  /** So the test can miss: with the burned credential of two already retired,
      the next pick is fresh and the test still says no. */
  lemma RetiredBurnHidesRotation(cursor: nat)
    ensures !Rotates([true, false], [0])
    ensures Pick([true, false], cursor, [0]).0 == 1
  {
    var dead := [true, false];
    assert AliveCount(dead, 1) == 0;
    assert 1 in AliveSet(dead);
    PickServes(dead, cursor, [0]);
  }

  // ---------------------------------------------------------------------
  // The ring in place
  // ---------------------------------------------------------------------

  class Ring {
    const dead: array<bool>
    var cursor: nat

    constructor (n: nat)
      ensures dead.Length == n && cursor == 0 && fresh(dead)
      ensures forall i :: 0 <= i < n ==> !dead[i]
    {
      dead := new bool[n](_ => false);
      cursor := 0;
    }

    method PickNext(excluded: seq<int>) returns (idx: int)
      modifies this`cursor
      ensures (idx, cursor) == Pick(dead[..], old(cursor), excluded)
    {
      var n := dead.Length;
      if n == 0 {
        return -1;
      }
      var start := cursor % n;
      cursor := cursor + 1;
      var i := 0;
      while i < n
        invariant 0 <= i <= n && cursor == old(cursor) + 1
        invariant Scan(dead[..], start, excluded, 0) == Scan(dead[..], start, excluded, i)
      {
        SlotIsModulo(n, start, i);
        idx := (start + i) % n;
        if !dead[idx] && idx !in excluded {
          cursor := idx + 1;
          return;
        }
        i := i + 1;
      }
      i := 0;
      while i < n
        invariant 0 <= i <= n && cursor == old(cursor) + 1
        invariant Scan(dead[..], start, [], 0) == Scan(dead[..], start, [], i)
      {
        SlotIsModulo(n, start, i);
        idx := (start + i) % n;
        if !dead[idx] {
          cursor := idx + 1;
          return;
        }
        i := i + 1;
      }
      idx := -1;
    }

    /** Unknown indices are ignored; reports whether this call did it. */
    method Retire(index: int) returns (newly: bool)
      modifies dead
      ensures newly == (0 <= index < dead.Length && !old(dead[..])[index])
      ensures dead[..] == if 0 <= index < dead.Length then old(dead[..])[index := true] else old(dead[..])
    {
      if index < 0 || index >= dead.Length {
        return false;
      }
      newly := !dead[index];
      dead[index] := true;
    }

    method CountAlive() returns (count: nat)
      ensures count == AliveCount(dead[..], dead.Length)
    {
      count := 0;
      var i := 0;
      while i < dead.Length
        invariant 0 <= i <= dead.Length && count == AliveCount(dead[..], i)
      {
        if !dead[i] {
          count := count + 1;
        }
        i := i + 1;
      }
    }

    method Revive()
      modifies dead
      ensures forall i :: 0 <= i < dead.Length ==> !dead[i]
    {
      var i := 0;
      while i < dead.Length
        invariant 0 <= i <= dead.Length && forall j :: 0 <= j < i ==> !dead[j]
      {
        dead[i] := false;
        i := i + 1;
      }
    }
  }
}
