/** The ring buffer itself: forty buckets updated in place under a moving
    cursor, proved to be the window of module RollingWindow. */
module BucketRing {
  import opened Basics
  import opened RollingWindow

  lemma ApartModulo(a: int, b: int)
    requires 0 < b - a < BUCKETS
    ensures a % BUCKETS != b % BUCKETS
  {
  }

  /** Where the oldest live bucket sits, counted from the cursor or by ordinal. */
  lemma CursorOrdinal(mark: int, span: int, i: int)
    ensures ((mark % BUCKETS + span + 1) % BUCKETS + i) % BUCKETS == (mark + span - BUCKETS + 1 + i) % BUCKETS
  {
  }

  lemma AheadOfCursor(mark: int, i: int)
    ensures (mark % BUCKETS + i) % BUCKETS == (mark + i) % BUCKETS
  {
  }

  class Ring {
    var buckets: array<Tally>
    var offset: int
    var lastWrite: Time

    /** The log the buckets add up. */
    ghost var window: Window

    /** Bucket j of the window, for the forty ordinals up to the mark. */
    ghost predicate Holds(j: int)
      reads this, buckets
      requires buckets.Length == BUCKETS
    {
      buckets[j % BUCKETS] == InSlot(window.log, j)
    }

    ghost predicate Valid()
      reads this, buckets
    {
      && buckets.Length == BUCKETS
      && offset == window.mark % BUCKETS
      && lastWrite == LastWrite(window)
      && (forall e :: e in window.log ==> 0 <= e.slot <= window.mark)
      && (forall j :: window.mark - BUCKETS < j <= window.mark ==> Holds(j))
    }

    constructor (now: Time)
      ensures Valid() && window == Window(now, 0, []) && fresh(buckets)
    {
      buckets := new Tally[BUCKETS](_ => Tally(0, 0, 0));
      offset := 0;
      lastWrite := now;
      window := Window(now, 0, []);
    }

    /** Empties the buckets of the next span ordinals; the others stay. */
    method EmptyAhead(span: nat)
      requires buckets.Length == BUCKETS && offset == window.mark % BUCKETS && span <= BUCKETS
      modifies buckets
      ensures forall j :: window.mark < j <= window.mark + span ==> buckets[j % BUCKETS] == Tally(0, 0, 0)
      ensures forall j :: window.mark + span - BUCKETS < j <= window.mark ==> buckets[j % BUCKETS] == old(buckets[j % BUCKETS])
    {
      ghost var k := window.mark;
      var i := 1;
      while i <= span
        invariant 1 <= i <= span + 1
        invariant forall j :: k + i - 1 - BUCKETS < j <= k ==> buckets[j % BUCKETS] == old(buckets[j % BUCKETS])
        invariant forall j :: k < j < k + i ==> buckets[j % BUCKETS] == Tally(0, 0, 0)
      {
        AheadOfCursor(k, i);
        label Before:
        buckets[(offset + i) % BUCKETS] := Tally(0, 0, 0);
        forall j | k + i - BUCKETS < j < k + i ensures buckets[j % BUCKETS] == old@Before(buckets[j % BUCKETS]) {
          ApartModulo(j, k + i);
        }
        i := i + 1;
      }
    }

    /** Advances to now's bucket, emptying every bucket the cursor passes. */
    method Roll(now: Time)
      requires Valid()
      modifies this, buckets
      ensures Valid() && buckets == old(buckets)
      ensures window == Window(old(window).base, old(window).mark + Min(Lag(old(window), now), BUCKETS), old(window).log)
    {
      var elapsed := now - lastWrite;
      if elapsed <= 0 {
        return;
      }
      var span := Min(elapsed / SPAN, BUCKETS);
      ghost var k := window.mark;
      EmptyAhead(span);
      AheadOfCursor(k, span);
      offset := (offset + span) % BUCKETS;
      lastWrite := lastWrite + span * SPAN;
      window := Window(window.base, k + span, window.log);
      forall j | k + span - BUCKETS < j <= k + span ensures Holds(j) {
        if j <= k {
          assert old(Holds(j));
        } else {
          SumNothing(window.log, Filed(j, j + 1));
        }
      }
    }

    /** Rolls, then adds to the current bucket. */
    method Add(now: Time, amount: Tally)
      requires Valid()
      modifies this, buckets
      ensures Valid() && buckets == old(buckets) && window == Write(old(window), now, amount)
    {
      Roll(now);
      ghost var log := window.log;
      ghost var e := Entry(now, window.mark, amount);
      assert Holds(window.mark);
      label L:
      var b := buckets[offset];
      buckets[offset] := Tally(b.x + amount.x, b.y + amount.y, b.z + amount.z);
      window := Window(window.base, window.mark, log + [e]);
      assert (log + [e])[..|log|] == log;
      forall j | window.mark - BUCKETS < j <= window.mark ensures Holds(j) {
        assert old@L(Holds(j));
        if j < window.mark {
          ApartModulo(j, window.mark);
        }
      }
    }

    /** Empties the evidence in place. */
    method Clear()
      requires Valid()
      modifies this`window, buckets
      ensures Valid() && window == Cleared(old(window))
      ensures forall i :: 0 <= i < BUCKETS ==> buckets[i] == Tally(0, 0, 0)
    {
      forall i | 0 <= i < BUCKETS {
        buckets[i] := Tally(0, 0, 0);
      }
      window := Cleared(window);
    }

    /** Empties the evidence and starts its clock over. */
    method Restart(now: Time)
      requires Valid()
      modifies this, buckets
      ensures Valid() && buckets == old(buckets)
      ensures window == Restarted(old(window), now)
    {
      Clear();
      label Cleared:
      lastWrite := now;
      window := Restarted(window, now);
      forall j | window.mark - BUCKETS < j <= window.mark ensures Holds(j) {
        assert old@Cleared(Holds(j));
      }
    }

    /** Empties the evidence and starts over as if just created. */
    method Reinit(now: Time)
      requires Valid()
      modifies this, buckets
      ensures Valid() && buckets == old(buckets) && window == Window(now, 0, [])
    {
      Clear();
      offset, lastWrite := 0, now;
      window := Window(now, 0, []);
      forall j | -BUCKETS < j <= 0 ensures Holds(j) {
        assert buckets[j % BUCKETS] == Tally(0, 0, 0);
      }
    }

    /** Adds up the live buckets, oldest first, touching none. */
    method Total(now: Time) returns (total: Tally)
      requires Valid()
      ensures total == Read(window, now)
    {
      var span := if now - lastWrite < 0 then 0 else (now - lastWrite) / SPAN;
      var diff := BUCKETS - span;
      total := Tally(0, 0, 0);
      if diff <= 0 {
        return;
      }
      var start := (offset + span + 1) % BUCKETS;
      ghost var lo := window.mark + span - BUCKETS + 1;
      var i := 0;
      while i < diff
        invariant 0 <= i <= diff
        invariant total == SlotsFrom(window.log, lo, lo + i)
      {
        CursorOrdinal(window.mark, span, i);
        assert Holds(lo + i);
        var b := buckets[(start + i) % BUCKETS];
        total := Tally(total.x + b.x, total.y + b.y, total.z + b.z);
        i := i + 1;
      }
    }
  }
}
