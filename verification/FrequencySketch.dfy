/** The admission gate's count-min sketch: two four-bit counters a byte, a
    doorkeeper in front, a halving every so many reads; every counter as a function
    of the reads so far; and the exact per-key counter an estimate never falls
    below. Hashing is an arbitrary function here. */
module FrequencySketch {
  import opened Basics

  type Key = nat

  const ROWS := 4
  const MAX_COUNT := 15
  const PROBES := 7
  const DOOR_BITS_PER_KEY := 10
  const MAX_TRACKED := 2_097_152

  // ---------------------------------------------------------------------
  // The reference counter
  // ---------------------------------------------------------------------

  /** Exact counting for every key: the first read of an epoch only marks the
      key seen, later ones count up to fifteen, a reset forgets who was seen and
      halves every count. */
  datatype Ideal = Ideal(seen: set<Key>, counts: map<Key, nat>, taken: nat)

  function Count(i: Ideal, k: Key): nat {
    if k in i.counts then i.counts[k] else 0
  }

  function Bump(n: nat): nat { if n < MAX_COUNT then n + 1 else n }

  function AfterRead(i: Ideal, k: Key): Ideal {
    if k in i.seen then Ideal(i.seen, i.counts[k := Bump(Count(i, k))], i.taken + 1)
    else Ideal(i.seen + {k}, i.counts, i.taken + 1)
  }

  function Halved(i: Ideal): Ideal {
    Ideal({}, map k | k in i.counts :: i.counts[k] / 2, 0)
  }

  function Read(i: Ideal, k: Key, resetAt: nat): Ideal {
    var j := AfterRead(i, k);
    if j.taken >= resetAt then Halved(j) else j
  }

  /** What the gate must report at least. */
  function Frequency(i: Ideal, k: Key): nat {
    Count(i, k) + if k in i.seen then 1 else 0
  }

  // ---------------------------------------------------------------------
  // The gate as a function of the reads
  // ---------------------------------------------------------------------

  /** Where hashes land: a counter in each row, a bit for each probe. */
  datatype Geometry = Geometry(width: nat, slot: (Key, nat) -> nat, doorBit: (Key, nat) -> nat)

  ghost predicate Fits(g: Geometry) {
    && g.width >= 1
    && (forall k, i :: 0 <= i < ROWS ==> g.slot(k, i) < g.width)
    && (forall k, p :: 0 <= p < PROBES ==> g.doorBit(k, p) < DOOR_BITS_PER_KEY * g.width)
  }

  /** Reads since the last epoch ended. */
  function Taken(g: Geometry, run: seq<Key>): nat {
    if |run| == 0 then 0
    else
      var taken := Taken(g, run[..|run| - 1]) + 1;
      if taken >= g.width then 0 else taken
  }

  function Probes(g: Geometry, h: Key): set<nat> { set p: nat | p < PROBES :: g.doorBit(h, p) }

  /** The doorkeeper's bits: those of every key read in this epoch. */
  function Door(g: Geometry, run: seq<Key>): set<nat> {
    if |run| == 0 || Taken(g, run) == 0 then {} else Door(g, run[..|run| - 1]) + Probes(g, run[|run| - 1])
  }

  predicate Covered(g: Geometry, run: seq<Key>, h: Key) { Probes(g, h) <= Door(g, run) }

  /** A counter: a covered key's read bumps its own, the end of an epoch halves
      all. */
  function Cell(g: Geometry, run: seq<Key>, i: nat, idx: nat): (n: nat)
    ensures n <= MAX_COUNT
    decreases |run|
  {
    if |run| == 0 then 0
    else
      var init, h := run[..|run| - 1], run[|run| - 1];
      var n := Cell(g, init, i, idx);
      var bumped := if idx == g.slot(h, i) && Covered(g, init, h) then Bump(n) else n;
      if Taken(g, run) == 0 then bumped / 2 else bumped
  }

  /** The least of a key's counters in the first rows. */
  function Floor(g: Geometry, run: seq<Key>, h: Key, rows: nat): nat
    decreases rows
  {
    if rows == 0 then MAX_COUNT else Min(Floor(g, run, h, rows - 1), Cell(g, run, rows - 1, g.slot(h, rows - 1)))
  }

  function EstimateOf(g: Geometry, run: seq<Key>, h: Key): nat {
    Floor(g, run, h, ROWS) + if Covered(g, run, h) then 1 else 0
  }

  /** No counter of the key is below the floor, and one is at it. */
  lemma {:induction false} FloorIsLeast(g: Geometry, run: seq<Key>, h: Key, rows: nat)
    requires rows >= 1
    ensures forall i :: 0 <= i < rows ==> Floor(g, run, h, rows) <= Cell(g, run, i, g.slot(h, i))
    ensures exists i :: 0 <= i < rows && Floor(g, run, h, rows) == Cell(g, run, i, g.slot(h, i))
    decreases rows
  {
    if rows > 1 {
      FloorIsLeast(g, run, h, rows - 1);
    } else {
      assert Floor(g, run, h, rows) == Cell(g, run, 0, g.slot(h, 0));
    }
  }

  /** Epochs ended so far. */
  function Epochs(g: Geometry, run: seq<Key>): nat {
    if |run| == 0 then 0 else Epochs(g, run[..|run| - 1]) + if Taken(g, run) == 0 then 1 else 0
  }

  /** Each is as many reads as the rows are wide. */
  lemma {:induction false} EpochsAreWide(g: Geometry, run: seq<Key>)
    requires g.width >= 1
    ensures |run| == Epochs(g, run) * g.width + Taken(g, run) && Taken(g, run) < g.width
  {
    if |run| > 0 {
      EpochsAreWide(g, run[..|run| - 1]);
      assert (Epochs(g, run[..|run| - 1]) + 1) * g.width == Epochs(g, run[..|run| - 1]) * g.width + g.width;
    }
  }

  function Exact(g: Geometry, run: seq<Key>): Ideal { ReadAll(Ideal({}, map[], 0), run, g.width) }

  /** What an epoch has seen is in the door, and no row reads below the exact
      count. */
  lemma {:induction false} NoRowBelow(g: Geometry, run: seq<Key>, k: Key)
    ensures var j := Exact(g, run);
            && j.taken == Taken(g, run) && Count(j, k) <= MAX_COUNT
            && (k in j.seen ==> Covered(g, run, k))
            && forall i: nat :: Cell(g, run, i, g.slot(k, i)) >= Count(j, k)
  {
    if |run| > 0 {
      var init, h := run[..|run| - 1], run[|run| - 1];
      NoRowBelow(g, init, k);
      NoRowBelow(g, init, h);
      forall i: nat ensures Cell(g, run, i, g.slot(k, i)) >= Count(Exact(g, run), k) {
        assert Cell(g, init, i, g.slot(k, i)) >= Count(Exact(g, init), k);
      }
    }
  }

  /** An estimate is never below the exact frequency. */
  lemma NeverUndercounts(g: Geometry, run: seq<Key>, k: Key)
    ensures Frequency(Exact(g, run), k) <= EstimateOf(g, run, k) <= MAX_COUNT + 1
  {
    NoRowBelow(g, run, k);
    FloorIsLeast(g, run, k, ROWS);
  }

  /** No other key of the run shares the key's counter in the row. */
  ghost predicate OwnSlot(g: Geometry, run: seq<Key>, k: Key, i: nat) {
    forall r :: r in run && r != k ==> g.slot(r, i) != g.slot(k, i)
  }

  /** No other key of the run sets the probe's bit. */
  ghost predicate OwnBit(g: Geometry, run: seq<Key>, k: Key, p: nat) {
    forall r :: r in run && r != k ==> g.doorBit(k, p) !in Probes(g, r)
  }

  lemma {:induction false} OwnRowIsExact(g: Geometry, run: seq<Key>, k: Key, i: nat, p: nat)
    requires p < PROBES && OwnSlot(g, run, k, i) && OwnBit(g, run, k, p)
    ensures var j := Exact(g, run);
            && j.taken == Taken(g, run)
            && (k in j.seen <==> g.doorBit(k, p) in Door(g, run)) && (k in j.seen ==> Covered(g, run, k))
            && Cell(g, run, i, g.slot(k, i)) == Count(j, k)
  {
    if |run| > 0 {
      var init, h := run[..|run| - 1], run[|run| - 1];
      OwnRowIsExact(g, init, k, i, p);
      assert h in run && g.doorBit(k, p) in Probes(g, k);
    }
  }

  /** A key with a counter of its own in some row, and a bit of its own in the
      door, is estimated exactly. */
  lemma OwnSlotIsExact(g: Geometry, run: seq<Key>, k: Key, i: nat, p: nat)
    requires i < ROWS && p < PROBES && OwnSlot(g, run, k, i) && OwnBit(g, run, k, p)
    ensures EstimateOf(g, run, k) == Frequency(Exact(g, run), k)
  {
    OwnRowIsExact(g, run, k, i, p);
    NeverUndercounts(g, run, k);
    FloorIsLeast(g, run, k, ROWS);
    NoRowBelow(g, run, k);
    assert g.doorBit(k, p) in Probes(g, k);
  }

  // ---------------------------------------------------------------------
  // Two counters in a byte
  // ---------------------------------------------------------------------

  function Nibble(cell: bv8, odd: bool): bv8 {
    if odd then (cell >> 4) & 0x0f else cell & 0x0f
  }

  function One(odd: bool): bv8 { if odd then 0x10 else 0x01 }

  /** Adding one below saturation neither carries into nor disturbs the
      neighbour. */
  lemma IncrementStaysInNibble(cell: bv8, odd: bool)
    requires Nibble(cell, odd) < 15
    ensures Nibble(cell + One(odd), odd) == Nibble(cell, odd) + 1
    ensures Nibble(cell + One(odd), !odd) == Nibble(cell, !odd)
  {
  }

  /** The masked shift halves both counters exactly. */
  lemma ShiftHalvesBoth(cell: bv8, odd: bool)
    ensures Nibble((cell >> 1) & 0x77, odd) == Nibble(cell, odd) >> 1
  {
  }

  lemma NibbleArithmetic(n: bv8)
    requires n <= 15
    ensures n as nat <= 15
    ensures n < 15 ==> (n + 1) as nat == n as nat + 1
    ensures n == 15 ==> n as nat == 15
    ensures (n >> 1) as nat == n as nat / 2
  {
  }

  lemma NibbleBound(cell: bv8, odd: bool)
    ensures Nibble(cell, odd) <= 15
  {
  }

  /** Setting one bit of a byte sets that bit and no other. */
  lemma BitSet(cell: bv8, i: nat, j: nat)
    requires i < 8 && j < 8
    ensures (cell | Mask(i)) & Mask(j) != 0 <==> i == j || cell & Mask(j) != 0
  {
  }

  /** The doorkeeper's bit within its byte. */
  function Mask(i: nat): (m: bv8)
    requires i < 8
    ensures m != 0
  {
    if i == 0 then 1 else if i == 1 then 2 else if i == 2 then 4 else if i == 3 then 8
    else if i == 4 then 16 else if i == 5 then 32 else if i == 6 then 64 else 128
  }

  function BumpNibble(n: bv8): bv8 { if n < 15 then n + 1 else n }

  function FirstProbes(g: Geometry, h: Key, n: nat): set<nat> { set p: nat | p < n :: g.doorBit(h, p) }

  lemma FirstProbesNext(g: Geometry, h: Key, n: nat)
    ensures FirstProbes(g, h, n + 1) == FirstProbes(g, h, n) + {g.doorBit(h, n)}
  {
  }

  lemma ZeroIsEmpty(odd: bool, i: nat)
    requires i < 8
    ensures Nibble(0, odd) as nat == 0 && 0 & Mask(i) == 0
  {
  }

  /** Bumping and halving four bits are bumping and halving the number. */
  lemma CellNext(g: Geometry, run: seq<Key>, h: Key, i: nat, idx: nat, was: bv8, next: bv8)
    requires was <= 15 && was as nat == Cell(g, run, i, idx)
    requires var bumped := if idx == g.slot(h, i) && Covered(g, run, h) then BumpNibble(was) else was;
             next == if Taken(g, run + [h]) == 0 then bumped >> 1 else bumped
    ensures next as nat == Cell(g, run + [h], i, idx)
  {
    assert (run + [h])[..|run|] == run;
    NibbleArithmetic(was);
    NibbleArithmetic(BumpNibble(was));
  }

  lemma DoorNext(g: Geometry, run: seq<Key>, h: Key)
    ensures Taken(g, run + [h]) == if Taken(g, run) + 1 >= g.width then 0 else Taken(g, run) + 1
    ensures Door(g, run + [h]) == if Taken(g, run + [h]) == 0 then {} else Door(g, run) + Probes(g, h)
  {
    assert (run + [h])[..|run|] == run;
  }

  // ---------------------------------------------------------------------
  // The gate
  // ---------------------------------------------------------------------

  class Sketch {
    const g: Geometry
    const rows: seq<array<bv8>>
    const door: array<bv8>
    const resetAt: nat
    var incrs: nat
    /** Every read so far. */
    ghost var run: seq<Key>

    ghost predicate Shape() {
      && Fits(g) && resetAt == g.width
      && |rows| == ROWS
      && (forall i :: 0 <= i < ROWS ==> rows[i].Length == (g.width + 1) / 2 && rows[i] != door)
      && (forall i, j :: 0 <= i < j < ROWS ==> rows[i] != rows[j])
      && door.Length == (DOOR_BITS_PER_KEY * g.width + 7) / 8
    }

    ghost function Counter(i: nat, idx: nat): bv8
      requires Shape() && i < ROWS && idx < g.width
      reads rows[i]
    {
      Nibble(rows[i][idx / 2], idx % 2 == 1)
    }

    ghost predicate Bit(b: nat)
      requires Shape() && b < DOOR_BITS_PER_KEY * g.width
      reads door
    {
      door[b / 8] & Mask(b % 8) != 0
    }

    ghost predicate InDoor(k: Key)
      requires Shape()
      reads door
    {
      forall p: nat :: p < PROBES ==> Bit(g.doorBit(k, p))
    }

    /** Every counter and every bit is what the reads come to. */
    ghost predicate Valid()
      reads this, rows, door
    {
      && Shape()
      && incrs == Taken(g, run)
      && (forall i: nat, idx: nat :: i < ROWS && idx < g.width ==> Counter(i, idx) as nat == Cell(g, run, i, idx))
      && (forall b: nat :: b < DOOR_BITS_PER_KEY * g.width ==> (Bit(b) <==> b in Door(g, run)))
    }

    constructor (g: Geometry)
      requires Fits(g)
      ensures Valid() && run == [] && this.g == g
      ensures fresh(door) && forall i :: 0 <= i < ROWS ==> fresh(rows[i])
    {
      this.g, resetAt, incrs, run := g, g.width, 0, [];
      var half := (g.width + 1) / 2;
      var r0 := new bv8[half](_ => 0);
      var r1 := new bv8[half](_ => 0);
      var r2 := new bv8[half](_ => 0);
      var r3 := new bv8[half](_ => 0);
      rows := [r0, r1, r2, r3];
      door := new bv8[(DOOR_BITS_PER_KEY * g.width + 7) / 8](_ => 0);
      new;
      forall i: nat, idx: nat | i < ROWS && idx < g.width ensures Counter(i, idx) as nat == Cell(g, run, i, idx) {
        assert rows[i][idx / 2] == 0;
        ZeroIsEmpty(idx % 2 == 1, 0);
      }
      forall b: nat | b < DOOR_BITS_PER_KEY * g.width ensures !Bit(b) {
        ZeroIsEmpty(false, b % 8);
      }
    }

    /** Bumps the key's counter in every row and no other counter. */
    method Increment(h: Key)
      requires Shape()
      modifies rows
      ensures forall i: nat, idx: nat :: i < ROWS && idx < g.width ==>
                Counter(i, idx) == if idx == g.slot(h, i) then BumpNibble(old(Counter(i, idx))) else old(Counter(i, idx))
    {
      var i := 0;
      while i < ROWS
        invariant 0 <= i <= ROWS
        invariant forall j: nat, idx: nat :: j < i && idx < g.width ==>
                    Counter(j, idx) == if idx == g.slot(h, j) then BumpNibble(old(Counter(j, idx))) else old(Counter(j, idx))
        invariant forall j: nat, idx: nat :: i <= j < ROWS && idx < g.width ==> Counter(j, idx) == old(Counter(j, idx))
      {
        BumpRow(i, g.slot(h, i));
        i := i + 1;
      }
    }

    method BumpRow(i: nat, at: nat)
      requires Shape() && i < ROWS && at < g.width
      modifies rows[i]
      ensures forall idx: nat :: idx < g.width ==>
                Counter(i, idx) == if idx == at then BumpNibble(old(Counter(i, idx))) else old(Counter(i, idx))
    {
      var row := rows[i];
      var cell := row[at / 2];
      var odd := at % 2 == 1;
      if Nibble(cell, odd) < 15 {
        row[at / 2] := cell + One(odd);
        IncrementStaysInNibble(cell, odd);
      }
    }

    /** Halves every counter of every row. */
    method Halve()
      requires Shape()
      modifies rows
      ensures forall i: nat, idx: nat :: i < ROWS && idx < g.width ==> Counter(i, idx) == old(Counter(i, idx)) >> 1
    {
      var i := 0;
      while i < ROWS
        invariant 0 <= i <= ROWS
        invariant forall j: nat, idx: nat :: j < i && idx < g.width ==> Counter(j, idx) == old(Counter(j, idx)) >> 1
        invariant forall j: nat, idx: nat :: i <= j < ROWS && idx < g.width ==> Counter(j, idx) == old(Counter(j, idx))
      {
        HalveRow(i);
        i := i + 1;
      }
    }

    method HalveRow(i: nat)
      requires Shape() && i < ROWS
      modifies rows[i]
      ensures forall idx: nat :: idx < g.width ==> Counter(i, idx) == old(Counter(i, idx)) >> 1
    {
      var row := rows[i];
      var j := 0;
      while j < row.Length
        invariant 0 <= j <= row.Length
        invariant forall c :: 0 <= c < j ==> row[c] == (old(row[c]) >> 1) & 0x77
        invariant forall c :: j <= c < row.Length ==> row[c] == old(row[c])
      {
        row[j] := (row[j] >> 1) & 0x77;
        j := j + 1;
      }
      forall idx: nat | idx < g.width ensures Counter(i, idx) == old(Counter(i, idx)) >> 1 {
        ShiftHalvesBoth(old(row[idx / 2]), idx % 2 == 1);
      }
    }

    /** Whether the hash was already present; a first presence sets its bits and no
        other. */
    method DoorAdd(h: Key) returns (present: bool)
      requires Shape()
      modifies door
      ensures present == old(InDoor(h))
      ensures forall b: nat :: b < DOOR_BITS_PER_KEY * g.width ==> (Bit(b) <==> old(Bit(b)) || b in Probes(g, h))
    {
      present := DoorHas(h);
      if present {
        return;
      }
      var p := 0;
      while p < PROBES
        invariant 0 <= p <= PROBES
        invariant forall b: nat :: b < DOOR_BITS_PER_KEY * g.width ==> (Bit(b) <==> old(Bit(b)) || b in FirstProbes(g, h, p))
      {
        SetBit(g.doorBit(h, p));
        FirstProbesNext(g, h, p);
        p := p + 1;
      }
      assert FirstProbes(g, h, PROBES) == Probes(g, h);
    }

    method SetBit(b: nat)
      requires Shape() && b < DOOR_BITS_PER_KEY * g.width
      modifies door
      ensures forall c: nat :: c < DOOR_BITS_PER_KEY * g.width ==> (Bit(c) <==> old(Bit(c)) || c == b)
    {
      var cell := door[b / 8];
      door[b / 8] := cell | Mask(b % 8);
      forall c: nat | c < DOOR_BITS_PER_KEY * g.width ensures Bit(c) <==> old(Bit(c)) || c == b {
        BitSet(cell, b % 8, c % 8);
      }
    }

    method DoorHas(h: Key) returns (present: bool)
      requires Shape()
      ensures present == InDoor(h)
    {
      var p := 0;
      while p < PROBES
        invariant 0 <= p <= PROBES
        invariant forall q: nat :: q < p ==> Bit(g.doorBit(h, q))
      {
        var b := g.doorBit(h, p);
        if door[b / 8] & Mask(b % 8) == 0 {
          assert !Bit(g.doorBit(h, p));
          return false;
        }
        p := p + 1;
      }
      present := true;
    }

    method DoorReset()
      requires Shape()
      modifies door
      ensures forall b: nat :: b < DOOR_BITS_PER_KEY * g.width ==> !Bit(b)
    {
      var i := 0;
      while i < door.Length
        invariant 0 <= i <= door.Length
        invariant forall b :: 0 <= b < i ==> door[b] == 0
      {
        door[i] := 0;
        i := i + 1;
      }
    }

    /** One read: the doorkeeper absorbs a first presence, a later one counts;
        every width reads the door empties and the counters halve. */
    method Record(h: Key)
      requires Valid()
      modifies this`incrs, this`run, rows, door
      ensures Valid() && run == old(run) + [h]
    {
      InDoorIsCovered(h);
      Admit(h);
      incrs := incrs + 1;
      if incrs >= resetAt {
        incrs := 0;
        Decay();
      }
      run := run + [h];
      DoorNext(g, old(run), h);
      forall i: nat, idx: nat | i < ROWS && idx < g.width ensures Counter(i, idx) as nat == Cell(g, run, i, idx) {
        NibbleBound(old(rows[i][idx / 2]), idx % 2 == 1);
        CellNext(g, old(run), h, i, idx, old(Counter(i, idx)), Counter(i, idx));
      }
    }

    /** The read before the epoch is judged: exactly what it does to every counter
        and every bit. */
    method Admit(h: Key)
      requires Shape()
      modifies rows, door
      ensures forall i: nat, idx: nat :: i < ROWS && idx < g.width ==>
                Counter(i, idx) == if idx == g.slot(h, i) && old(InDoor(h)) then BumpNibble(old(Counter(i, idx))) else old(Counter(i, idx))
      ensures forall b: nat :: b < DOOR_BITS_PER_KEY * g.width ==> (Bit(b) <==> old(Bit(b)) || b in Probes(g, h))
    {
      var present := DoorAdd(h);
      if present {
        Increment(h);
      }
    }

    /** The end of an epoch: exactly what it does to every counter and every bit. */
    method Decay()
      requires Shape()
      modifies rows, door
      ensures forall i: nat, idx: nat :: i < ROWS && idx < g.width ==> Counter(i, idx) == old(Counter(i, idx)) >> 1
      ensures forall b: nat :: b < DOOR_BITS_PER_KEY * g.width ==> !Bit(b)
    {
      DoorReset();
      Halve();
    }

    lemma InDoorIsCovered(h: Key)
      requires Valid()
      ensures InDoor(h) <==> Covered(g, run, h)
    {
      forall p: nat | p < PROBES ensures g.doorBit(h, p) in Probes(g, h) {
      }
    }

    method Look(i: nat, at: nat) returns (v: nat)
      requires Valid() && i < ROWS && at < g.width
      ensures v == Cell(g, run, i, at)
    {
      var n := Nibble(rows[i][at / 2], at % 2 == 1);
      assert n == Counter(i, at);
      v := n as nat;
    }

    /** The smallest row plus the presence bit. */
    method Estimate(h: Key) returns (estimate: nat)
      requires Valid()
      ensures estimate == EstimateOf(g, run, h)
    {
      var floor := MAX_COUNT;
      for i := 0 to ROWS
        invariant floor == Floor(g, run, h, i)
      {
        var v := Look(i, g.slot(h, i));
        if v < floor {
          floor := v;
        }
      }
      InDoorIsCovered(h);
      var present := DoorHas(h);
      estimate := floor + if present then 1 else 0;
    }
  }

  // ---------------------------------------------------------------------
  // What the exact counter counts
  // ---------------------------------------------------------------------

  function Occurrences(run: seq<Key>, k: Key): nat {
    if |run| == 0 then 0 else Occurrences(run[..|run| - 1], k) + if run[|run| - 1] == k then 1 else 0
  }

  function ReadAll(i: Ideal, run: seq<Key>, resetAt: nat): Ideal {
    if |run| == 0 then i else Read(ReadAll(i, run[..|run| - 1], resetAt), run[|run| - 1], resetAt)
  }

  function Capped(n: nat): nat { if n < MAX_COUNT then n else MAX_COUNT }

  /** Within one epoch a key's frequency is one for its first read and one more
      for each later read, on top of what earlier epochs left, capped. */
  lemma {:induction false} EpochFrequency(i: Ideal, run: seq<Key>, resetAt: nat, k: Key)
    requires i.seen == {} && Count(i, k) <= MAX_COUNT && i.taken + |run| < resetAt
    ensures var n := Occurrences(run, k);
            var j := ReadAll(i, run, resetAt);
            && j.taken == i.taken + |run|
            && (k in j.seen <==> n > 0)
            && Frequency(j, k) == if n == 0 then Count(i, k) else Capped(Count(i, k) + n - 1) + 1
  {
    if |run| > 0 {
      EpochFrequency(i, run[..|run| - 1], resetAt, k);
    }
  }

  /** The read that completes an epoch leaves half of what its reads came to, and
      nobody seen. */
  lemma EpochLeavesHalf(i: Ideal, run: seq<Key>, resetAt: nat, k: Key)
    requires i.seen == {} && Count(i, k) <= MAX_COUNT && |run| > 0 && i.taken + |run| == resetAt
    ensures var n := Occurrences(run, k);
            var j := ReadAll(i, run, resetAt);
            && j.taken == 0 && j.seen == {}
            && Frequency(j, k) == (if n == 0 then Count(i, k) else Capped(Count(i, k) + n - 1)) / 2
  {
    EpochFrequency(i, run[..|run| - 1], resetAt, k);
  }

  // ---------------------------------------------------------------------
  // Geometry
  // ---------------------------------------------------------------------

  /** The smallest power of two that covers the clamped budget, whatever the
      budget. */
  method AdmissionWidth(trackedKeys: int) returns (width: nat, ghost e: nat)
    ensures width == PowerOfTwo(e)
    ensures var budget := Max(1, Min(trackedKeys, MAX_TRACKED)); budget <= width < 2 * budget
  {
    var budget := trackedKeys;
    if budget > MAX_TRACKED {
      budget := MAX_TRACKED;
    }
    if budget < 1 {
      budget := 1;
    }
    width, e := 1, 0;
    while width < budget
      invariant width == PowerOfTwo(e) && 1 <= width < 2 * budget
      decreases budget - width
    {
      width, e := width * 2, e + 1;
    }
  }
}
