/** The process-wide retry budget under any interleaving of requests, and the
    backoff ceiling between a request's attempts. */
module RetryBudget {
  import opened Basics

  // ---------------------------------------------------------------------
  // The counter
  // ---------------------------------------------------------------------

  /** The admission modes: a fixed cap, or a percentage of the requests in
      flight floored at a minimum. */
  datatype Mode = Static(max: nat) | Share(percent: nat, floor: nat)

  function CapOf(mode: Mode, total: int): int {
    match mode
    case Static(max) => max
    case Share(percent, floor) =>
      var share := percent * total / 100;
      if share > floor then share else floor
  }

  /** A count fits a share exactly up to the floor, or while it stays within the
      percentage. */
  lemma ShareIsAPercentage(percent: nat, floor: nat, total: int, running: int)
    ensures running <= CapOf(Share(percent, floor), total) <==> running <= floor || 100 * running <= percent * total
    ensures CapOf(Static(floor), total) == floor
  {
  }

  class Budget {
    const mode: Mode
    var inFlight: nat

    constructor (mode: Mode)
      ensures this.mode == mode && inFlight == 0
    {
      this.mode, inFlight := mode, 0;
    }

    method Acquire(total: int) returns (ok: bool)
      modifies this
      ensures ok <==> old(inFlight) < CapOf(mode, total)
      ensures inFlight == old(inFlight) + if ok then 1 else 0
      ensures ok ==> inFlight <= CapOf(mode, total)
    {
      if inFlight >= CapOf(mode, total) {
        return false;
      }
      inFlight := inFlight + 1;
      return true;
    }

    method Release()
      modifies this
      ensures inFlight == Released(old(inFlight)) == Max(old(inFlight) - 1, 0)
    {
      if inFlight > 0 {
        inFlight := inFlight - 1;
      }
    }
  }

  /** A release with nothing acquired is absorbed. */
  function Released(inFlight: nat): nat { if inFlight > 0 then inFlight - 1 else 0 }

  // ---------------------------------------------------------------------
  // Interleaved requests
  // ---------------------------------------------------------------------

  type Tid = nat

  /** Where a request's loop is: running attempt n, wanting the attempt after n,
      or over after n attempts. */
  datatype Pc = Attempting(n: nat) | Wanting(n: nat) | Over(n: nat)

  datatype Request = Request(maxAttempts: int, pc: Pc)

  datatype State = State(inFlight: nat, requests: map<Tid, Request>)

  datatype Label =
    | Begin(t: Tid, maxAttempts: int)
    | Fail(t: Tid)      // a retryable failure short of the attempt cap
    | End(t: Tid)       // any other return of an attempt
    | Panic(t: Tid)     // the attempt unwinds
    | GiveUp(t: Tid)    // the wait before the retry is cut short
    | Acquire(t: Tid, total: int)

  function Cap(maxAttempts: int): nat { if maxAttempts < 1 then 1 else maxAttempts }

  /** Only attempts past the first hold a slot. */
  predicate HoldsSlot(r: Request) { r.pc.Attempting? && r.pc.n > 1 }

  predicate Enabled(s: State, l: Label) {
    match l
    case Begin(t, _) => t !in s.requests
    case Fail(t) => t in s.requests && s.requests[t].pc.Attempting? && s.requests[t].pc.n < Cap(s.requests[t].maxAttempts)
    case End(t) => t in s.requests && s.requests[t].pc.Attempting?
    case Panic(t) => t in s.requests && s.requests[t].pc.Attempting?
    case GiveUp(t) => t in s.requests && s.requests[t].pc.Wanting?
    case Acquire(t, _) => t in s.requests && s.requests[t].pc.Wanting?
  }

  /** An attempt returns, or unwinds: its slot goes back first. */
  function Leave(s: State, t: Tid, pc: Pc): State
    requires t in s.requests
  {
    State(if HoldsSlot(s.requests[t]) then Released(s.inFlight) else s.inFlight,
          s.requests[t := s.requests[t].(pc := pc)])
  }

  function Next(mode: Mode, s: State, l: Label): State
    requires Enabled(s, l)
  {
    match l
    case Begin(t, maxAttempts) => s.(requests := s.requests[t := Request(maxAttempts, Attempting(1))])
    case Fail(t) => Leave(s, t, Wanting(s.requests[t].pc.n))
    case End(t) => Leave(s, t, Over(s.requests[t].pc.n))
    case Panic(t) => Leave(s, t, Over(s.requests[t].pc.n))
    case GiveUp(t) => s.(requests := s.requests[t := s.requests[t].(pc := Over(s.requests[t].pc.n))])
    case Acquire(t, total) =>
      var n := s.requests[t].pc.n;
      if s.inFlight >= CapOf(mode, total) then s.(requests := s.requests[t := s.requests[t].(pc := Over(n))])
      else State(s.inFlight + 1, s.requests[t := s.requests[t].(pc := Attempting(n + 1))])
  }

  /** The requests with a retry attempt running. */
  function Running(s: State): set<Tid> {
    set t | t in s.requests && HoldsSlot(s.requests[t])
  }

  predicate RequestOk(r: Request) {
    && 1 <= r.pc.n <= Cap(r.maxAttempts)
    && (r.pc.Wanting? ==> r.pc.n < Cap(r.maxAttempts))
  }

  ghost predicate Inv(mode: Mode, s: State) {
    && s.inFlight == |Running(s)|
    && (mode.Static? ==> s.inFlight <= mode.max)
    && forall t :: t in s.requests ==> RequestOk(s.requests[t])
  }

  /** One request's move adds it to the running set, drops it or leaves the set
      alone. */
  lemma RunningMoves(s: State, inFlight: nat, t: Tid, r: Request)
    ensures var s' := State(inFlight, s.requests[t := r]);
            Running(s') == if HoldsSlot(r) then Running(s) + {t} else Running(s) - {t}
  {
  }

  lemma NextKeepsInv(mode: Mode, s: State, l: Label)
    requires Inv(mode, s) && Enabled(s, l)
    ensures Inv(mode, Next(mode, s, l))
  {
    var s' := Next(mode, s, l);
    RunningMoves(s, s'.inFlight, l.t, s'.requests[l.t]);
    assert s' == State(s'.inFlight, s.requests[l.t := s'.requests[l.t]]);
    forall t | t in s'.requests ensures RequestOk(s'.requests[t]) {
      if t in s.requests {
        assert RequestOk(s.requests[t]);
      }
    }
    if l.t in s.requests && HoldsSlot(s.requests[l.t]) {
      assert l.t in Running(s);
    } else {
      assert l.t !in Running(s);
    }
  }

  ghost predicate Run(mode: Mode, states: seq<State>, labels: seq<Label>) {
    && |states| == |labels| + 1
    && states[0] == State(0, map[])
    && forall i :: 0 <= i < |labels| ==> Enabled(states[i], labels[i]) && states[i + 1] == Next(mode, states[i], labels[i])
  }

  /** After every step of every interleaving the counter is the number of retry
      attempts running, a fixed cap holds, and no request ran more attempts than
      its own cap. */
  lemma {:induction false} CounterIsExact(mode: Mode, states: seq<State>, labels: seq<Label>, i: nat)
    requires Run(mode, states, labels) && i < |states|
    ensures states[i].inFlight == |Running(states[i])|
    ensures mode.Static? ==> states[i].inFlight <= mode.max
    ensures forall t :: t in states[i].requests ==> 1 <= states[i].requests[t].pc.n <= Cap(states[i].requests[t].maxAttempts)
    ensures Inv(mode, states[i])
  {
    if i == 0 {
      assert Running(states[0]) == {};
    } else {
      CounterIsExact(mode, states, labels, i - 1);
      NextKeepsInv(mode, states[i - 1], labels[i - 1]);
    }
    forall t | t in states[i].requests
      ensures 1 <= states[i].requests[t].pc.n <= Cap(states[i].requests[t].maxAttempts)
    {
      assert RequestOk(states[i].requests[t]);
    }
  }

  /** Once nobody is attempting, panicked requests included, every slot is back. */
  lemma AllSlotsReturn(mode: Mode, states: seq<State>, labels: seq<Label>, i: nat)
    requires Run(mode, states, labels) && i < |states|
    requires forall t :: t in states[i].requests ==> !states[i].requests[t].pc.Attempting?
    ensures states[i].inFlight == 0
  {
    CounterIsExact(mode, states, labels, i);
    assert Running(states[i]) == {};
  }

  /** The absorbing branch of a release is never taken: whoever leaves with a
      slot takes exactly one off. */
  lemma ReleasesAreMatched(mode: Mode, states: seq<State>, labels: seq<Label>, i: nat)
    requires Run(mode, states, labels) && i < |labels|
    requires labels[i].t in states[i].requests && HoldsSlot(states[i].requests[labels[i].t])
    ensures states[i].inFlight > 0 && states[i + 1].inFlight == states[i].inFlight - 1
  {
    CounterIsExact(mode, states, labels, i);
    assert labels[i].t in Running(states[i]);
  }

  /** A retry is refused exactly when as many as the cap are running, and an
      admitted one fits under the cap it was weighed against. */
  lemma RefusedOnlyWhenFull(mode: Mode, states: seq<State>, labels: seq<Label>, i: nat)
    requires Run(mode, states, labels) && i < |labels| && labels[i].Acquire?
    ensures states[i + 1].requests[labels[i].t].pc.Over? <==> |Running(states[i])| >= CapOf(mode, labels[i].total)
    ensures states[i + 1].requests[labels[i].t].pc.Attempting? ==>
              |Running(states[i + 1])| == |Running(states[i])| + 1 <= CapOf(mode, labels[i].total)
  {
    CounterIsExact(mode, states, labels, i);
    CounterIsExact(mode, states, labels, i + 1);
  }

  // ---------------------------------------------------------------------
  // The backoff ceiling
  // ---------------------------------------------------------------------

  function Shift(attempt: int): nat {
    if attempt - 1 < 0 then 0 else if attempt - 1 > 16 then 16 else attempt - 1
  }

  /** The ceiling as computed: compared against the shifted-down maximum before
      the value itself is shifted up. */
  function BackoffCeiling(initial: int, backoffMax: int, attempt: int): int {
    var p := PowerOfTwo(Shift(attempt));
    var exp := if initial <= 0 then initial else if initial > MAX_INT64 / p then MAX_INT64 else initial * p;
    if exp > 0 && (backoffMax == 0 || exp < backoffMax) then exp else backoffMax
  }

  lemma BelowQuotient(x: int, p: int, m: int)
    requires p >= 1
    ensures x <= m / p <==> x * p <= m
  {
    Split(x, m / p, p, m % p);
  }

  lemma Split(x: int, q: int, p: int, r: int)
    requires 0 <= r < p
    ensures x <= q <==> x * p <= q * p + r
  {
    var d := x - q;
    assert x * p == q * p + d * p;
    if d >= 1 {
      assert d * p >= p;
    } else {
      assert d * p <= 0;
    }
  }

  /** The ceiling doubles with every attempt after the first, sixteen times at most,
      cut at the int64 maximum and at the configured maximum, so no shift ever
      wraps; without an initial backoff it is the configured maximum itself. */
  lemma CeilingNeverWraps(initial: int, backoffMax: int, attempt: int)
    requires initial <= MAX_INT64 && 0 <= backoffMax <= MAX_INT64
    ensures var ideal := initial * PowerOfTwo(Min(Max(attempt - 1, 0), 16));
            BackoffCeiling(initial, backoffMax, attempt) ==
            if initial <= 0 then backoffMax else Min(ideal, if backoffMax == 0 then MAX_INT64 else backoffMax)
    ensures 0 <= BackoffCeiling(initial, backoffMax, attempt) <= MAX_INT64
  {
    var p := PowerOfTwo(Shift(attempt));
    BelowQuotient(initial, p, MAX_INT64);
    if initial > 0 {
      assert initial * p > 0;
    }
  }

  /** The next ceiling is never lower, and at most twice this one. */
  lemma CeilingDoubles(initial: int, backoffMax: int, attempt: int)
    requires initial <= MAX_INT64 && 0 <= backoffMax <= MAX_INT64
    ensures var now, later := BackoffCeiling(initial, backoffMax, attempt), BackoffCeiling(initial, backoffMax, attempt + 1);
            now <= later <= 2 * now
  {
    CeilingNeverWraps(initial, backoffMax, attempt);
    CeilingNeverWraps(initial, backoffMax, attempt + 1);
    var a, b := Shift(attempt), Shift(attempt + 1);
    assert b == a || b == a + 1;
    if initial > 0 {
      Twice(initial, PowerOfTwo(a));
      assert initial * PowerOfTwo(a) > 0;
    }
  }

  lemma Twice(x: int, p: int)
    ensures x * (2 * p) == 2 * (x * p)
  {
  }
}
