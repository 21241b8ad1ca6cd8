/** The in-process response cache: a capped map with expiry, swept on writes,
    whose admission gate and victim sampler may drop anything but never let a
    stale entry be served. */
module ResponseCache {
  import opened Basics

  type Key = string

  const SWEEP_INTERVAL := 1_000_000_000
  const MILLISECOND := 1_000_000
  const SAMPLE := 5

  datatype Entry = Entry(status: int, body: string)
  datatype Stored = Stored(entry: Entry, expires: Time)
  type Entries = map<Key, Stored>

  /** The residents, and when the next sweep may run. */
  datatype State = State(entries: Entries, sweepAt: Option<Time>)

  // ---------------------------------------------------------------------
  // Lifetimes
  // ---------------------------------------------------------------------

  /** A scaled duration, saturated at the top and floored at a millisecond. */
  function Clip(scaled: real): Time {
    if scaled >= MAX_INT64 as real then MAX_INT64
    else if scaled.Floor < MILLISECOND then MILLISECOND
    else scaled.Floor
  }

  /** The factor a uniform draw between zero and one spreads a lifetime by. */
  function Jitter(draw: real): real { 1.0 + (2.0 * draw - 1.0) * 0.1 }

  function Lifetime(base: Time, draw: real): Time { Clip(base as real * Jitter(draw)) }

  lemma ProductBetween(base: real, low: real, x: real, high: real)
    requires base > 0.0 && low <= x <= high
    ensures base * low <= base * x <= base * high
  {
    assert base * (x - low) >= 0.0 && base * (high - x) >= 0.0;
  }

  lemma ClipBounds(base: real, scaled: real)
    requires 0.0 < base <= MAX_INT64 as real && base * 0.9 <= scaled <= base * 1.1
    ensures MILLISECOND <= Clip(scaled) <= MAX_INT64
    ensures Clip(scaled) as real <= base * 1.1 || Clip(scaled) == MILLISECOND
    ensures Clip(scaled) as real > base * 0.9 - 1.0
  {
  }

  /** A lifetime is its base spread by at most a tenth either way, to the
      nanosecond below, floored at a millisecond and saturated, never wrapped. */
  lemma LifetimeBounds(base: Time, draw: real)
    requires 0 < base <= MAX_INT64 && 0.0 <= draw <= 1.0
    ensures var l := Lifetime(base, draw);
            && MILLISECOND <= l <= MAX_INT64
            && (l as real <= base as real * 1.1 || l == MILLISECOND) && l as real > base as real * 0.9 - 1.0
            && (draw == 0.5 ==> l == Max(base, MILLISECOND))
  {
    ProductBetween(base as real, 0.9, Jitter(draw), 1.1);
    ClipBounds(base as real, base as real * Jitter(draw));
    if draw == 0.5 {
      assert Jitter(draw) == 1.0;
    }
  }

  /** A later draw never shortens it. */
  lemma LifetimeRises(base: Time, draw: real, later: real)
    requires 0 < base <= MAX_INT64 && 0.0 <= draw <= later <= 1.0
    ensures Lifetime(base, draw) <= Lifetime(base, later)
  {
    ProductBetween(base as real, Jitter(draw), Jitter(later), 1.1);
  }

  // ---------------------------------------------------------------------
  // One operation
  // ---------------------------------------------------------------------

  function Lookup(c: Entries, key: Key, now: Time): Option<Entry> {
    if key in c && now < c[key].expires then Some(c[key].entry) else None
  }

  function Swept(c: Entries, now: Time): Entries {
    c - set k | k in c && now >= c[k].expires
  }

  /** The least read of a sample of residents, five or all there are. */
  ghost predicate LeastOf(c: Entries, sampled: set<Key>, victim: Key, freq: Key -> nat) {
    && sampled <= c.Keys && |sampled| == Min(SAMPLE, |c|)
    && victim in sampled && forall k :: k in sampled ==> freq(victim) <= freq(k)
  }

  /** What a positive-TTL Set may leave, given the residents after the sweep
      decision: stored; stored in place of the least read of a sample, no more read
      than the newcomer; or, for a non-resident under pressure, dropped. */
  ghost predicate MayBecome(c: Entries, c': Entries, max: nat, key: Key, stored: Stored, freq: Key -> nat) {
    if key in c || |c| < max then c' == c[key := stored]
    else exists victim, sampled :: LeastOf(c, sampled, victim, freq) && Displaces(c, c', victim, key, stored, freq)
  }

  ghost predicate Displaces(c: Entries, c': Entries, victim: Key, key: Key, stored: Stored, freq: Key -> nat) {
    c' == if freq(key) >= freq(victim) then (c - {victim})[key := stored] else c
  }

  /** The least read of the first few residents of any iteration. */
  method LeastRead(residents: set<Key>, freq: Key -> nat) returns (victim: Key, ghost sampled: set<Key>)
    requires residents != {}
    ensures sampled <= residents && |sampled| == Min(SAMPLE, |residents|)
    ensures victim in sampled && forall k :: k in sampled ==> freq(victim) <= freq(k)
  {
    var todo, sample := residents, SAMPLE;
    victim :| victim in todo;
    todo, sample, sampled := todo - {victim}, sample - 1, {victim};
    while sample > 0 && todo != {}
      invariant 0 <= sample && |sampled| == SAMPLE - sample && |todo| + |sampled| == |residents|
      invariant todo <= residents && sampled <= residents && todo !! sampled
      invariant victim in sampled && forall k :: k in sampled ==> freq(victim) <= freq(k)
    {
      var candidate :| candidate in todo;
      todo, sample, sampled := todo - {candidate}, sample - 1, sampled + {candidate};
      if freq(candidate) < freq(victim) {
        victim := candidate;
      }
    }
  }

  class Cache {
    var entries: Entries
    const max: nat
    var sweepAt: Option<Time>

    ghost predicate Valid()
      reads this
    {
      max >= 1 && |entries| <= max
    }

    ghost function Value(): State
      reads this
    {
      State(entries, sweepAt)
    }

    constructor (max: nat)
      requires max >= 1
      ensures Valid() && Value() == State(map[], None) && this.max == max
    {
      entries, this.max, sweepAt := map[], max, None;
    }

    method Get(key: Key, now: Time) returns (r: Option<Entry>)
      requires Valid()
      ensures r == Lookup(entries, key, now)
    {
      if key !in entries || !(now < entries[key].expires) {
        return None;
      }
      r := Some(entries[key].entry);
    }

    method Set(key: Key, entry: Entry, base: Time, draw: real, now: Time, freq: Key -> nat)
      requires Valid()
      modifies this
      ensures Valid() && Step(old(Value()), Value(), max, Op.Set(key, entry, base, draw, now, freq))
    {
      if base <= 0 {
        return;
      }
      var lifetime := Lifetime(base, draw);
      if sweepAt.None? || sweepAt.value <= now {
        Sweep(now);
        sweepAt := Some(now + SWEEP_INTERVAL);
      }
      Store(key, Stored(entry, now + lifetime), freq);
    }

    /** A resident is refreshed; a newcomer under pressure has to win a slot. */
    method Store(key: Key, stored: Stored, freq: Key -> nat)
      requires Valid()
      modifies this`entries
      ensures Valid() && MayBecome(old(entries), entries, max, key, stored, freq)
    {
      ghost var c := entries;
      if key !in entries && |entries| >= max {
        var admitted, victim, sampled := Admit(key, freq);
        assert LeastOf(c, sampled, victim, freq);
        if !admitted {
          assert Displaces(c, entries, victim, key, stored, freq);
          return;
        }
        OneLess(c, victim);
        assert Displaces(c, entries[key := stored], victim, key, stored, freq);
      }
      ghost var before := entries;
      entries := entries[key := stored];
      assert entries.Keys == before.Keys + {key};
    }

    /** Deletes every expired entry, in any order. */
    method Sweep(now: Time)
      requires Valid()
      modifies this`entries
      ensures Valid() && entries == Swept(old(entries), now)
    {
      var todo := entries.Keys;
      ghost var was := entries;
      while todo != {}
        invariant todo <= entries.Keys && entries.Keys <= was.Keys
        invariant forall k :: k in was ==> (k in entries <==> k in todo || now < was[k].expires)
        invariant forall k :: k in entries ==> entries[k] == was[k]
        decreases todo
      {
        var k :| k in todo;
        todo := todo - {k};
        if !(now < entries[k].expires) {
          entries := entries - {k};
        }
      }
      SubsetSize(entries.Keys, was.Keys);
    }

    /** The least read of a sample of residents leaves if the newcomer is read
        at least as often. */
    method Admit(key: Key, freq: Key -> nat) returns (admitted: bool, victim: Key, ghost sampled: set<Key>)
      requires Valid() && entries != map[]
      modifies this`entries
      ensures LeastOf(old(entries), sampled, victim, freq)
      ensures admitted == (freq(key) >= freq(victim))
      ensures entries == if admitted then old(entries) - {victim} else old(entries)
    {
      assert |entries.Keys| == |entries|;
      victim, sampled := LeastRead(entries.Keys, freq);
      admitted := freq(key) >= freq(victim);
      if admitted {
        entries := entries - {victim};
      }
    }
  }

  lemma OneLess(c: Entries, k: Key)
    requires k in c
    ensures |c - {k}| == |c| - 1
  {
    assert (c - {k}).Keys == c.Keys - {k};
  }

  // ---------------------------------------------------------------------
  // Every sequence of operations
  // ---------------------------------------------------------------------

  datatype Op =
    | Get(key: Key, now: Time)
    | Set(key: Key, entry: Entry, base: Time, draw: real, now: Time, freq: Key -> nat)

  function StoredBy(op: Op): Stored
    requires op.Set?
  {
    Stored(op.entry, op.now + Lifetime(op.base, op.draw))
  }

  /** One operation from one state to the next; which residents a sample holds is
      open. */
  ghost predicate Step(s: State, s': State, max: nat, op: Op) {
    if op.Get? || op.base <= 0 then s' == s
    else
      var due := s.sweepAt.None? || s.sweepAt.value <= op.now;
      && s'.sweepAt == (if due then Some(op.now + SWEEP_INTERVAL) else s.sweepAt)
      && MayBecome(if due then Swept(s.entries, op.now) else s.entries, s'.entries, max, op.key, StoredBy(op), op.freq)
  }

  ghost predicate Run(states: seq<State>, ops: seq<Op>, max: nat) {
    && max >= 1 && |states| == |ops| + 1 && states[0] == State(map[], None)
    && forall i :: 0 <= i < |ops| ==> Step(states[i], states[i + 1], max, ops[i])
  }

  /** What the last positive-TTL Set of a key stored. */
  function LastSet(ops: seq<Op>, key: Key): Option<Stored> {
    if |ops| == 0 then None
    else
      var op := ops[|ops| - 1];
      if op.Set? && op.key == key && op.base > 0 then Some(StoredBy(op)) else LastSet(ops[..|ops| - 1], key)
  }

  ghost predicate Current(c: Entries, ops: seq<Op>) {
    forall k :: k in c ==> LastSet(ops, k) == Some(c[k])
  }

  lemma StoreKeepsCapacity(c: Entries, c': Entries, max: nat, key: Key, stored: Stored, freq: Key -> nat)
    requires max >= 1 && |c| <= max && MayBecome(c, c', max, key, stored, freq)
    ensures |c'| <= max
  {
    if key in c || |c| < max {
      assert c'.Keys == c.Keys + {key};
    } else if c' != c {
      var victim, sampled :| LeastOf(c, sampled, victim, freq) && Displaces(c, c', victim, key, stored, freq);
      OneLess(c, victim);
      assert c'.Keys == (c - {victim}).Keys + {key};
    }
  }

  /** A store changes no other key's entry, and leaves under its key what it
      stored or nothing. */
  lemma StoreTouchesOneKey(c: Entries, c': Entries, max: nat, key: Key, stored: Stored, freq: Key -> nat)
    requires MayBecome(c, c', max, key, stored, freq)
    ensures forall k :: k in c' ==> if k == key then c'[k] == stored else k in c && c'[k] == c[k]
  {
  }

  lemma StepKeepsCurrent(s: State, s': State, ops: seq<Op>, op: Op, max: nat)
    requires max >= 1 && |s.entries| <= max && Current(s.entries, ops) && Step(s, s', max, op)
    ensures |s'.entries| <= max && Current(s'.entries, ops + [op])
  {
    forall k ensures LastSet(ops + [op], k) ==
      if op.Set? && op.key == k && op.base > 0 then Some(StoredBy(op)) else LastSet(ops, k)
    {
      assert (ops + [op])[..|ops|] == ops;
    }
    if op.Set? && op.base > 0 {
      var c := s.entries;
      var d := if s.sweepAt.None? || s.sweepAt.value <= op.now then Swept(c, op.now) else c;
      SubsetSize(d.Keys, c.Keys);
      StoreKeepsCapacity(d, s'.entries, max, op.key, StoredBy(op), op.freq);
      StoreTouchesOneKey(d, s'.entries, max, op.key, StoredBy(op), op.freq);
    }
  }

  lemma {:induction false} RunIsCurrent(states: seq<State>, ops: seq<Op>, max: nat, i: nat)
    requires Run(states, ops, max) && i < |states|
    ensures |states[i].entries| <= max && Current(states[i].entries, ops[..i])
  {
    if i > 0 {
      RunIsCurrent(states, ops, max, i - 1);
      StepKeepsCurrent(states[i - 1], states[i], ops[..i - 1], ops[i - 1], max);
      assert ops[..i - 1] + [ops[i - 1]] == ops[..i];
    }
  }

  /** Over any sequence of gets and sets the cache stays within its capacity and
      a hit is the entry of the last positive-TTL Set of that key, before its
      expiry, whatever was rejected, evicted or swept in between. */
  lemma HitsAreTheLastSet(states: seq<State>, ops: seq<Op>, max: nat, i: nat)
    requires Run(states, ops, max) && i < |ops| && ops[i].Get?
    ensures |states[i].entries| <= max
    ensures var hit := Lookup(states[i].entries, ops[i].key, ops[i].now);
            var last := LastSet(ops[..i], ops[i].key);
            hit.Some? ==> last.Some? && hit.value == last.value.entry && ops[i].now < last.value.expires
  {
    RunIsCurrent(states, ops, max, i);
  }

  // ---------------------------------------------------------------------
  // What keeps being served
  // ---------------------------------------------------------------------

  /** A Set of a resident key, or with room left, is served back until the new
      entry expires. */
  lemma SetIsServed(s: State, s': State, max: nat, op: Op, now: Time)
    requires op.Set? && op.base > 0 && Step(s, s', max, op)
    requires |s.entries| < max || (op.key in s.entries && op.now < s.entries[op.key].expires)
    ensures Lookup(s'.entries, op.key, now) ==
              if now < op.now + Lifetime(op.base, op.draw) then Some(op.entry) else None
  {
    var c := s.entries;
    var d := if s.sweepAt.None? || s.sweepAt.value <= op.now then Swept(c, op.now) else c;
    SubsetSize(d.Keys, c.Keys);
  }

  /** Nobody else's Set ends a key's being served before its expiry, except a
      newcomer's to a full cache that is read at least as often. */
  lemma OnlyDisplacementEnds(s: State, s': State, max: nat, op: Op, key: Key, now: Time)
    requires Step(s, s', max, op) && op.now <= now && (op.Set? ==> op.key != key)
    requires Lookup(s.entries, key, now).Some? && Lookup(s'.entries, key, now) != Lookup(s.entries, key, now)
    ensures op.Set? && op.base > 0 && |s.entries| >= max && op.freq(op.key) >= op.freq(key)
    ensures key !in s'.entries && op.key in s'.entries
  {
    var c := s.entries;
    var d := if s.sweepAt.None? || s.sweepAt.value <= op.now then Swept(c, op.now) else c;
    SubsetSize(d.Keys, c.Keys);
  }

  ghost predicate ClockOrdered(ops: seq<Op>) {
    forall i, j :: 0 <= i < j < |ops| ==> ops[i].now <= ops[j].now
  }

  ghost predicate AllExpireAfter(c: Entries, t: Time) { forall k :: k in c ==> c[k].expires > t }

  /** Everything resident expires after the last sweep. */
  ghost predicate SweptUp(s: State, clock: Time) {
    if s.sweepAt.None? then s.entries == map[]
    else
      var last := s.sweepAt.value - SWEEP_INTERVAL;
      last <= clock && AllExpireAfter(s.entries, last)
  }

  lemma StepKeepsSwept(s: State, s': State, max: nat, op: Op, clock: Time)
    requires SweptUp(s, clock) && Step(s, s', max, op) && clock <= op.now
    ensures SweptUp(s', op.now)
    ensures op.Set? && op.base > 0 ==> AllExpireAfter(s'.entries, op.now - SWEEP_INTERVAL)
  {
    if op.Set? && op.base > 0 {
      var d := if s.sweepAt.None? || s.sweepAt.value <= op.now then Swept(s.entries, op.now) else s.entries;
      StoreTouchesOneKey(d, s'.entries, max, op.key, StoredBy(op), op.freq);
    }
  }

  lemma {:induction false} RunIsSwept(states: seq<State>, ops: seq<Op>, max: nat, i: nat)
    requires Run(states, ops, max) && ClockOrdered(ops) && i < |ops|
    ensures SweptUp(states[i + 1], ops[i].now)
    ensures ops[i].Set? && ops[i].base > 0 ==> AllExpireAfter(states[i + 1].entries, ops[i].now - SWEEP_INTERVAL)
  {
    if i > 0 {
      RunIsSwept(states, ops, max, i - 1);
      StepKeepsSwept(states[i], states[i + 1], max, ops[i], ops[i - 1].now);
    } else {
      StepKeepsSwept(states[0], states[1], max, ops[0], ops[0].now);
    }
  }

  /** After every positive-TTL Set of a run nothing resident expired more than a
      second before it: dead entries do not hold on to the capacity. */
  lemma DeadEntriesLeave(states: seq<State>, ops: seq<Op>, max: nat, i: nat, key: Key)
    requires Run(states, ops, max) && ClockOrdered(ops) && i < |ops| && ops[i].Set? && ops[i].base > 0
    requires key in states[i + 1].entries
    ensures ops[i].now - states[i + 1].entries[key].expires < 1_000_000_000
  {
    RunIsSwept(states, ops, max, i);
  }
}
