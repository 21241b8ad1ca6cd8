/** One relayed request: attempts against the fallback plan, what each files for
    the end, and the one response the client gets. */
module Relay {
  import opened Basics
  import CredentialRing
  import RetryBudget
  import opened FallbackPlan

  // ---------------------------------------------------------------------
  // What the world may do to an attempt
  // ---------------------------------------------------------------------

  /** How an exchange ended. Lost covers a failed forward and a lost body; the
      two cuts and Broken only happen to streams, the cuts before any byte. */
  datatype Reply =
    | Lost(canceled: bool, deadline: bool)
    | TtftCut
    | CeilingCut
    | Status(code: int, credential: int, fatal: bool, retryAfter: nat)
    | Good(status: int)
    | Broken(abortCode: string)

  datatype Ending = Running | Canceled | Expired

  /** Everything around one attempt: the candidate's ceiling and breaker, the
      reply, its credentials alive as the reply is filed, its retired flags as
      the hint is judged (empty for no ring), the overall context after the
      attempt and after the wait, and whether the budget admits the retry. */
  datatype World = World(
    saturated: bool, denied: bool, reply: Reply,
    alive: nat, ring: seq<bool>,
    overall: Ending, sleep: Ending, budget: bool)

  predicate Fits(stream: bool, w: World) {
    match w.reply
    case Lost(_, _) => true
    case TtftCut => stream
    case CeilingCut => stream
    case Status(code, _, _, _) => code < 200 || code > 299
    case Good(status) => 200 <= status <= 299
    case Broken(_) => stream
  }

  // ---------------------------------------------------------------------
  // Errors
  // ---------------------------------------------------------------------

  /** An attempt's error. A status error is an object of its own: the serial is
      its identity. */
  datatype Err =
    | StatusErr(serial: nat, code: int)
    | TransportErr(canceled: bool, deadline: bool)
    | CircuitOpen
    | Saturated
    | Committed

  datatype Stop = BudgetExhausted | ContextEnded(how: Ending)

  /** What the loop returns: no error, the attempt's own, or the attempt's
      wrapped in why the loop stopped. */
  datatype Final = Done | Raw(err: Err) | Wrapped(stop: Stop, err: Err)

  /** Is this attempt's error somewhere in the loop's? */
  predicate Holds(f: Final, err: Err) { !f.Done? && f.err == err }

  /** The static table. */
  predicate Table(err: Err) {
    match err
    case StatusErr(_, code) => code == 429 || code >= 500
    case TransportErr(canceled, _) => !canceled
    case CircuitOpen => true
    case Saturated => true
    case Committed => true
  }

  // ---------------------------------------------------------------------
  // Reference: a request by its last attempt alone
  // ---------------------------------------------------------------------

  predicate Reached(w: World) { !w.saturated && !w.denied }

  predicate Files(w: World) { Reached(w) && w.reply.Status? }

  /** Convicted down to the credential, with another one left. */
  predicate HandsOn(w: World) { Files(w) && w.reply.fatal && w.alive > 0 }

  predicate Convicts(w: World) {
    Files(w) && w.reply.credential >= 0 && (w.reply.fatal || w.reply.code == 429)
  }

  function ErrOf(n: nat, w: World): Option<Err> {
    if w.saturated then Some(Saturated)
    else if w.denied then Some(CircuitOpen)
    else match w.reply
      case Lost(canceled, deadline) => Some(TransportErr(canceled, deadline))
      case TtftCut => Some(TransportErr(false, true))
      case CeilingCut => Some(TransportErr(false, true))
      case Status(code, _, _, _) => Some(StatusErr(n, code))
      case Good(_) => None
      case Broken(_) => Some(Committed)
  }

  predicate Retryable(w: World) {
    ErrOf(0, w).Some? && ErrOf(0, w).value != Committed && (HandsOn(w) || Table(ErrOf(0, w).value))
  }

  /** The retry is wanted, allowed by the count and awaited to the end. */
  predicate Asks(maxAttempts: int, n: nat, w: World) {
    w.overall.Running? && n < RetryBudget.Cap(maxAttempts) && Retryable(w) && w.sleep.Running?
  }

  predicate GoesOn(maxAttempts: int, n: nat, w: World) { Asks(maxAttempts, n, w) && w.budget }

  /** What the loop makes of its last attempt. */
  function FinalOf(maxAttempts: int, n: nat, w: World): Final {
    var err := ErrOf(n, w);
    if err.None? then Done
    else if err.value == Committed then Raw(Committed)
    else if !w.overall.Running? then Wrapped(ContextEnded(w.overall), err.value)
    else if n >= RetryBudget.Cap(maxAttempts) || !Retryable(w) then Raw(err.value)
    else if !w.sleep.Running? then Wrapped(ContextEnded(w.sleep), err.value)
    else Wrapped(BudgetExhausted, err.value)
  }

  /** What an attempt comes to that another may follow, by the world alone: it
      never reached the upstream, it was lost or cut before a byte with the client
      still there, or it was answered with a status that may pass (429 and up from
      500) or that only convicts one of several credentials. */
  predicate MayPass(w: World) {
    w.saturated || w.denied ||
    match w.reply
    case Lost(canceled, _) => !canceled
    case TtftCut => true
    case CeilingCut => true
    case Status(code, _, fatal, _) => code == 429 || code >= 500 || (fatal && w.alive > 0)
    case Good(_) => false
    case Broken(_) => false
  }

  /** Exactly when another attempt follows: its failure may pass, neither the
      attempt nor the wait outlived the request, and count and budget allow it. */
  lemma GoesOnIff(maxAttempts: int, n: nat, w: World)
    requires n >= 1
    ensures GoesOn(maxAttempts, n, w) <==>
              MayPass(w) && n < maxAttempts && w.overall == Running && w.sleep == Running && w.budget
  {
  }

  datatype Result = Result(
    status: int, upstream: string, errorCode: string,
    streamed: bool, aborted: bool, clientGone: bool)

  /** A final attempt that delivered nothing: the status, the served upstream
      and the gateway's own code. */
  function Failure(id: string, budgetStop: bool, w: World): (int, string, string) {
    if Files(w) && !HandsOn(w) && !Table(StatusErr(0, w.reply.code)) then (w.reply.code, id, "")
    else if w.saturated then (503, "", "upstream_saturated")
    else if w.denied then (503, "", "circuit_open")
    else if budgetStop then (503, "", "budget_exhausted")
    else if Files(w) then (w.reply.code, id, "")
    else (502, "", "upstream_unreachable")
  }

  /** The result, from the last attempt's world and nothing else. */
  function Outcome(stream: bool, maxAttempts: int, n: nat, id: string, w: World, gone: bool): Result {
    if Reached(w) && w.reply.Good? then
      Result(if stream then 200 else w.reply.status, id, "", stream, false, false)
    else if Reached(w) && w.reply.Broken? then
      Result(200, id, w.reply.abortCode, true, true, gone)
    else
      var (status, upstream, code) := Failure(id, Asks(maxAttempts, n, w), w);
      if gone then Result(status, "", "", false, false, true)
      else Result(status, upstream, code, false, false, false)
  }

  /** What the client is told, read off the last attempt. A delivered answer or a
      broken stream stands. Otherwise an upstream's own error is passed through
      unless only the budget kept another attempt from following it; an attempt
      that never got that far has a status and a code of the gateway's. A client
      that is gone is told nothing but the status on record. */
  lemma OutcomeMeans(stream: bool, maxAttempts: int, n: nat, id: string, w: World, gone: bool)
    requires n >= 1
    ensures var r := Outcome(stream, maxAttempts, n, id, w, gone);
            var refused := MayPass(w) && n < maxAttempts && w.overall == Running && w.sleep == Running;
            if !w.saturated && !w.denied && w.reply.Good? then
              r == Result(if stream then 200 else w.reply.status, id, "", stream, false, false)
            else if !w.saturated && !w.denied && w.reply.Broken? then
              r == Result(200, id, w.reply.abortCode, true, true, gone)
            else
              && !r.streamed && !r.aborted && r.clientGone == gone
              && (if w.saturated || w.denied || refused then r.status == 503
                  else if w.reply.Status? then r.status == w.reply.code
                  else r.status == 502)
              && r.upstream == (if !gone && !w.saturated && !w.denied && w.reply.Status? && !refused then id else "")
              && r.errorCode == (
                if gone then ""
                else if w.saturated then "upstream_saturated"
                else if w.denied then "circuit_open"
                else if refused then "budget_exhausted"
                else if w.reply.Status? then ""
                else "upstream_unreachable")
  {
  }

  /** The client left before anything reached it. */
  predicate Silent(r: Result) { r.clientGone && !r.aborted }

  /** The credentials of an upstream burned by the first n attempts. */
  function Burned(all: seq<Target>, worlds: nat -> World, n: nat, id: string): seq<int>
    requires |all| > 0
  {
    if n == 0 then []
    else
      var before := Burned(all, worlds, n - 1, id);
      var w := worlds(n);
      if Convicts(w) && Served(all, n).candidate.id == id && w.reply.credential !in before
      then before + [w.reply.credential] else before
  }

  /** The next attempt meets another upstream, or a ring with more credentials
      alive than the request burned. */
  predicate MovesOn(all: seq<Target>, worlds: nat -> World, n: nat)
    requires n >= 1 && |all| > 0
  {
    var id := Served(all, n).candidate.id;
    Served(all, n + 1).candidate.id != id || CredentialRing.Rotates(worlds(n).ring, Burned(all, worlds, n, id))
  }

  /** The upstream's own wait that attempt n leaves for the next. */
  function Wait(all: seq<Target>, worlds: nat -> World, n: nat): nat
    requires n >= 1 && |all| > 0
  {
    if Files(worlds(n)) && !MovesOn(all, worlds, n) then worlds(n).reply.retryAfter else 0
  }

  /** The targets of the first n attempts. */
  ghost function Trail(all: seq<Target>, n: nat): seq<Target>
    requires |all| > 0
  {
    if n == 0 then [] else Trail(all, n - 1) + [Served(all, n)]
  }

  /** The waits the first n attempts leave. */
  ghost function Waits(all: seq<Target>, worlds: nat -> World, n: nat): seq<nat>
    requires |all| > 0
  {
    if n == 0 then [] else Waits(all, worlds, n - 1) + [Wait(all, worlds, n)]
  }

  /** Each of the first n attempts is followed by another. */
  ghost predicate GoOn(maxAttempts: int, worlds: nat -> World, n: nat) {
    n == 0 || (GoOn(maxAttempts, worlds, n - 1) && GoesOn(maxAttempts, n, worlds(n)))
  }

  lemma {:induction false} EachGoesOn(maxAttempts: int, worlds: nat -> World, n: nat, k: nat)
    requires GoOn(maxAttempts, worlds, n) && 1 <= k <= n
    ensures GoesOn(maxAttempts, k, worlds(k))
  {
    if k < n {
      EachGoesOn(maxAttempts, worlds, n - 1, k);
    }
  }

  lemma EachMayPass(maxAttempts: int, worlds: nat -> World, n: nat)
    requires n >= 1 && GoOn(maxAttempts, worlds, n - 1)
    ensures forall k :: 1 <= k < n ==>
              MayPass(worlds(k)) && worlds(k).overall == Running && worlds(k).sleep == Running && worlds(k).budget
  {
    forall k | 1 <= k < n
      ensures MayPass(worlds(k)) && worlds(k).overall == Running && worlds(k).sleep == Running && worlds(k).budget
    {
      EachGoesOn(maxAttempts, worlds, n - 1, k);
      GoesOnIff(maxAttempts, k, worlds(k));
    }
  }

  /** Only the last attempt delivers, commits a byte or files a terminal reply. */
  lemma NothingFollowsACommit(maxAttempts: int, worlds: nat -> World, n: nat, k: nat)
    requires 1 <= k < n && GoOn(maxAttempts, worlds, n - 1)
    ensures Reached(worlds(k)) ==> !worlds(k).reply.Good? && !worlds(k).reply.Broken?
    ensures Files(worlds(k)) ==> HandsOn(worlds(k)) || Table(StatusErr(k, worlds(k).reply.code))
    ensures k < RetryBudget.Cap(maxAttempts)
  {
    EachGoesOn(maxAttempts, worlds, n - 1, k);
  }

  lemma {:induction false} BurnedOnce(all: seq<Target>, worlds: nat -> World, n: nat, id: string)
    requires |all| > 0
    ensures Distinct(Burned(all, worlds, n, id))
  {
    if n > 0 {
      BurnedOnce(all, worlds, n - 1, id);
    }
  }

  /** Exactly the credentials of an upstream this request has seen answer a fatal
      error or 429 are burned there. */
  lemma {:induction false} BurnedIff(all: seq<Target>, worlds: nat -> World, n: nat, id: string, c: int)
    requires |all| > 0
    ensures c in Burned(all, worlds, n, id) <==> c >= 0 && exists k :: 1 <= k <= n && Accuses(all, worlds(k), k, id, c)
  {
    if n > 0 {
      BurnedIff(all, worlds, n - 1, id, c);
      assert c >= 0 && Accuses(all, worlds(n), n, id, c) ==> c in Burned(all, worlds, n, id);
    }
  }

  predicate Accuses(all: seq<Target>, w: World, k: nat, id: string, c: int)
    requires |all| > 0 && k >= 1
  {
    && Served(all, k).candidate.id == id && !w.saturated && !w.denied && w.reply.Status?
    && w.reply.credential == c && (w.reply.fatal || w.reply.code == 429)
  }

  lemma {:induction false} BurnedStays(all: seq<Target>, worlds: nat -> World, k: nat, n: nat)
    requires |all| > 0 && 1 <= k <= n && Convicts(worlds(k))
    ensures worlds(k).reply.credential in Burned(all, worlds, n, Served(all, k).candidate.id)
    decreases n
  {
    if k < n {
      BurnedStays(all, worlds, k, n - 1);
    }
  }

  /** A hint that is dropped leads to another upstream, or the next pick on an
      unchanged ring is none of the credentials this request has convicted there. */
  lemma DroppedHintMeansFresh(all: seq<Target>, worlds: nat -> World, n: nat, cursor: nat, k: nat)
    requires |all| > 0 && 1 <= k <= n && Files(worlds(n))
    requires worlds(n).reply.retryAfter > 0 && Wait(all, worlds, n) == 0
    requires Convicts(worlds(k)) && Served(all, k).candidate.id == Served(all, n).candidate.id
    ensures var id := Served(all, n).candidate.id;
            var next := CredentialRing.Pick(worlds(n).ring, cursor, Burned(all, worlds, n, id)).0;
            || Served(all, n + 1).candidate.id != id
            || (CredentialRing.Alive(worlds(n).ring, next) && next != worlds(k).reply.credential)
  {
    var id := Served(all, n).candidate.id;
    var burned := Burned(all, worlds, n, id);
    if Served(all, n + 1).candidate.id == id {
      BurnedStays(all, worlds, k, n);
      CredentialRing.RotationIsFresh(worlds(n).ring, cursor, burned);
      CredentialRing.PickServes(worlds(n).ring, cursor, burned);
    }
  }

  /** Exactly when a positive hint is waited for: the same upstream again, and
      nothing burned there or no more fresh credentials than retired burned ones. */
  lemma WaitsIff(all: seq<Target>, worlds: nat -> World, n: nat)
    requires |all| > 0 && n >= 1 && Files(worlds(n)) && worlds(n).reply.retryAfter > 0
    ensures Wait(all, worlds, n) == 0 || Wait(all, worlds, n) == worlds(n).reply.retryAfter
    ensures var id := Served(all, n).candidate.id;
            var burned, ring := Burned(all, worlds, n, id), worlds(n).ring;
            Wait(all, worlds, n) > 0 <==>
              && Served(all, n + 1).candidate.id == id
              && (|burned| == 0 || |CredentialRing.FreshSet(ring, burned)| <= |CredentialRing.SpentSet(ring, burned)|)
  {
    var id := Served(all, n).candidate.id;
    BurnedOnce(all, worlds, n, id);
    CredentialRing.RotatesIff(worlds(n).ring, Burned(all, worlds, n, id));
  }

  // ---------------------------------------------------------------------
  // The request in place
  // ---------------------------------------------------------------------

  /** What a request keeps from its attempts for the end. */
  datatype Stash = Stash(
    servedBy: string, streamed: bool, gatewayCode: string,
    success: Option<int>, lastFailed: Option<int>, lastFailedErr: Err,
    terminal: Option<int>, rotated: Option<Err>)

  /** Nothing reached the client, nothing ends the request yet, and whatever was
      kept comes from attempts before n. */
  predicate Fresh(s: Stash, n: nat) {
    && s.success.None? && s.terminal.None? && !s.streamed && s.gatewayCode == ""
    && (s.rotated.Some? ==> s.rotated.value.StatusErr? && s.rotated.value.serial < n)
    && (s.lastFailed.Some? ==> s.lastFailedErr.StatusErr? && s.lastFailedErr.serial < n)
  }

  /** After attempt n: what is kept is what its world says. */
  predicate Filed(s: Stash, stream: bool, n: nat, id: string, w: World) {
    && (s.success.Some? <==> Reached(w) && w.reply.Good? && !stream)
    && (s.success.Some? ==> s.success.value == w.reply.status)
    && (s.streamed <==> Reached(w) && stream && (w.reply.Good? || w.reply.Broken?))
    && s.gatewayCode == (if Reached(w) && w.reply.Broken? then w.reply.abortCode else "")
    && (s.terminal.Some? <==> Files(w) && !HandsOn(w) && !Table(StatusErr(n, w.reply.code)))
    && (s.terminal.Some? ==> s.terminal.value == w.reply.code)
    && (s.rotated.Some? ==> s.rotated.value.StatusErr? && s.rotated.value.serial <= n)
    && (HandsOn(w) <==> s.rotated == Some(StatusErr(n, if Files(w) then w.reply.code else 0)))
    && (s.lastFailed.Some? ==> s.lastFailedErr.StatusErr? && s.lastFailedErr.serial <= n)
    && (Files(w) && s.terminal.None? ==>
          s.lastFailed == Some(w.reply.code) && s.lastFailedErr == StatusErr(n, w.reply.code))
    && (Files(w) || s.success.Some? || s.streamed ==> s.servedBy == id)
  }

  /** What filing an error reply leaves of a stash. */
  function Stashed(s: Stash, n: nat, id: string, w: World): Stash
    requires Files(w)
  {
    var err := StatusErr(n, w.reply.code);
    var convicted := s.(servedBy := id, rotated := if HandsOn(w) then Some(err) else s.rotated);
    if HandsOn(w) || Table(err) then convicted.(lastFailed := Some(w.reply.code), lastFailedErr := err)
    else convicted.(terminal := Some(w.reply.code))
  }

  lemma StashIsFiled(s: Stash, stream: bool, n: nat, id: string, w: World)
    requires Fresh(s, n) && Files(w)
    ensures Filed(Stashed(s, n, id, w), stream, n, id, w)
  {
  }

  /** An attempt that is followed by another leaves the request fresh for it. */
  lemma FreshAgain(s: Stash, stream: bool, maxAttempts: int, n: nat, id: string, w: World)
    requires Filed(s, stream, n, id, w) && GoesOn(maxAttempts, n, w)
    ensures Fresh(s, n + 1)
  {
  }

  function BurnedOn(excluded: map<string, seq<int>>, id: string): seq<int> {
    if id in excluded then excluded[id] else []
  }

  /** The exclusions are those of the first n attempts. */
  ghost predicate BurnedBy(all: seq<Target>, worlds: nat -> World, n: nat, excluded: map<string, seq<int>>)
    requires |all| > 0
  {
    forall id :: BurnedOn(excluded, id) == Burned(all, worlds, n, id)
  }

  /** The exclusions after an attempt on an upstream. */
  ghost predicate Excludes(was: map<string, seq<int>>, excluded: map<string, seq<int>>, id: string, w: World) {
    forall other :: BurnedOn(excluded, other) ==
      if other == id && Convicts(w) && w.reply.credential !in BurnedOn(was, id)
      then BurnedOn(was, id) + [w.reply.credential] else BurnedOn(was, other)
  }

  lemma BurnOneMore(all: seq<Target>, worlds: nat -> World, n: nat, was: map<string, seq<int>>, excluded: map<string, seq<int>>)
    requires |all| > 0 && n >= 1
    requires BurnedBy(all, worlds, n - 1, was) && Excludes(was, excluded, Served(all, n).candidate.id, worlds(n))
    ensures BurnedBy(all, worlds, n, excluded)
  {
    forall id ensures BurnedOn(excluded, id) == Burned(all, worlds, n, id) {
      assert BurnedOn(was, id) == Burned(all, worlds, n - 1, id);
    }
  }

  class Run {
    const stream: bool
    const maxAttempts: int
    const walk: Walk
    /** What the attempts so far leave for the end. */
    var kept: Stash
    var excluded: map<string, seq<int>>
    /** The Retry-After hint each status error carries. */
    var hints: map<nat, nat>
    /** Response headers written to the client, and the last one's status. */
    var headers: nat
    var shown: int
    /** The targets attempted and the hints waited for. */
    ghost var served: seq<Target>
    ghost var waits: seq<nat>

    constructor (stream: bool, maxAttempts: int, walk: Walk)
      ensures this.stream == stream && this.maxAttempts == maxAttempts && this.walk == walk
      ensures Fresh(kept, 1) && headers == 0 && excluded == map[] && |served| == 0 && |waits| == 0
    {
      this.stream, this.maxAttempts, this.walk := stream, maxAttempts, walk;
      kept := Stash("", false, "", None, None, Committed, None, None);
      excluded, hints, headers, shown, served, waits := map[], map[], 0, 0, [], [];
    }

    method ExcludeCredential(id: string, index: int)
      modifies this`excluded
      ensures var was := BurnedOn(old(excluded), id);
              excluded == if index in was then old(excluded) else old(excluded)[id := was + [index]]
    {
      var burned := if id in excluded then excluded[id] else [];
      var i := 0;
      while i < |burned|
        invariant 0 <= i <= |burned| && index !in burned[..i]
      {
        if burned[i] == index {
          return;
        }
        i := i + 1;
      }
      assert burned[..|burned|] == burned;
      excluded := excluded[id := burned + [index]];
    }

    /** Files a completed error exchange: kept for a passthrough at the end if a
        retry may follow, terminal at once otherwise. */
    method StashUpstreamError(id: string, n: nat, w: World) returns (err: Err)
      requires Fresh(kept, n) && Files(w)
      modifies this
      ensures headers == old(headers) && shown == old(shown) && served == old(served) && waits == old(waits)
      ensures err == StatusErr(n, w.reply.code) && kept == Stashed(old(kept), n, id, w)
      ensures hints == old(hints)[n := w.reply.retryAfter]
      ensures Excludes(old(excluded), excluded, id, w)
    {
      kept := kept.(servedBy := id);
      err := StatusErr(n, w.reply.code);
      hints := hints[n := w.reply.retryAfter];
      if w.reply.credential >= 0 && (w.reply.fatal || w.reply.code == 429) {
        ExcludeCredential(id, w.reply.credential);
      }
      var retryable := Table(err);
      if w.reply.fatal && w.alive > 0 {
        retryable := true;
        kept := kept.(rotated := Some(err));
      }
      if retryable {
        kept := kept.(lastFailed := Some(w.reply.code), lastFailedErr := err);
      } else {
        kept := kept.(terminal := Some(w.reply.code));
      }
    }

    method WriteHeader(status: int)
      modifies this`headers, this`shown
      ensures headers == old(headers) + 1 && shown == status
    {
      headers, shown := headers + 1, status;
    }

    /** One exchange with a candidate; a stream commits its header before its
        first byte. */
    method Exchange(id: string, n: nat, w: World) returns (err: Option<Err>)
      requires Fresh(kept, n) && Reached(w) && Fits(stream, w)
      modifies this
      ensures served == old(served) && waits == old(waits)
      ensures err == ErrOf(n, w)
      ensures kept.success.None? ==> Filed(kept, stream, n, id, w)
      ensures kept.success.Some? ==> !stream && w.reply.Good? && kept == old(kept).(success := Some(w.reply.status))
      ensures headers == old(headers) + (if kept.streamed then 1 else 0) && (kept.streamed ==> shown == 200)
      ensures hints == if Files(w) then old(hints)[n := w.reply.retryAfter] else old(hints)
      ensures Excludes(old(excluded), excluded, id, w)
    {
      match w.reply {
        case Lost(canceled, deadline) =>
          err := Some(TransportErr(canceled, deadline));
        case TtftCut =>
          err := Some(TransportErr(false, true));
        case CeilingCut =>
          err := Some(TransportErr(false, true));
        case Status(_, _, _, _) =>
          var filed := StashUpstreamError(id, n, w);
          StashIsFiled(old(kept), stream, n, id, w);
          err := Some(filed);
        case Good(status) =>
          err := None;
          if stream {
            WriteHeader(200);
            kept := kept.(streamed := true, servedBy := id);
          } else {
            kept := kept.(success := Some(status));
          }
        case Broken(abortCode) =>
          WriteHeader(200);
          kept := kept.(streamed := true, servedBy := id, gatewayCode := abortCode);
          err := Some(Committed);
      }
    }

    /** The candidate's ceiling, its breaker, the exchange: capacity is asked
        first, so a refusal there never holds a breaker's grant. */
    method TryCandidate(id: string, n: nat, w: World) returns (err: Option<Err>)
      requires Fresh(kept, n) && Fits(stream, w)
      modifies this
      ensures served == old(served) && waits == old(waits)
      ensures err == ErrOf(n, w) && Filed(kept, stream, n, id, w)
      ensures headers == old(headers) + (if kept.streamed then 1 else 0) && (kept.streamed ==> shown == 200)
      ensures hints == if Files(w) then old(hints)[n := w.reply.retryAfter] else old(hints)
      ensures Excludes(old(excluded), excluded, id, w)
    {
      if w.saturated {
        return Some(Saturated);
      }
      if w.denied {
        return Some(CircuitOpen);
      }
      err := Exchange(id, n, w);
      if err.None? {
        kept := kept.(servedBy := id);
      }
    }

    /** One attempt, and the judgement on the hint its failure carries. */
    method Attempt(n: nat, worlds: nat -> World) returns (err: Option<Err>)
      requires n >= 1 && walk.Valid() && walk.Ready(n) && Fresh(kept, n) && Fits(stream, worlds(n))
      requires |walk.all| > 0 && BurnedBy(walk.all, worlds, n - 1, excluded)
      modifies this, walk
      ensures walk.Valid() && walk.Ready(n + 1)
      ensures err == ErrOf(n, worlds(n)) && Filed(kept, stream, n, Served(walk.all, n).candidate.id, worlds(n))
      ensures headers == old(headers) + (if kept.streamed then 1 else 0) && (kept.streamed ==> shown == 200)
      ensures served == old(served) + [Served(walk.all, n)] && waits == old(waits)
      ensures BurnedBy(walk.all, worlds, n, excluded)
      ensures Files(worlds(n)) && maxAttempts > n ==> n in hints && hints[n] == Wait(walk.all, worlds, n)
    {
      var w := worlds(n);
      var target := walk.TargetOf(n);
      served := served + [target];
      err := TryCandidate(target.candidate.id, n, w);
      BurnOneMore(walk.all, worlds, n, old(excluded), excluded);
      if Reached(w) && err.Some? && err.value != Committed && maxAttempts > n {
        JudgeHint(n, target.candidate.id, w.ring, err.value);
      }
    }

    /** Clears the hint of a failure whose retry goes to another upstream or
        another credential; looks one attempt ahead. */
    method JudgeHint(n: nat, id: string, ring: seq<bool>, err: Err)
      requires n >= 1 && walk.Valid() && walk.Ready(n + 1)
      modifies this`hints, walk
      ensures walk.Valid() && walk.Ready(n + 1) && |walk.all| > 0
      ensures hints == if (Served(walk.all, n + 1).candidate.id != id || CredentialRing.Rotates(ring, BurnedOn(excluded, id)))
                          && err.StatusErr? && err.serial in old(hints)
                       then old(hints)[err.serial := 0] else old(hints)
    {
      var next := walk.TargetOf(n + 1);
      if next.candidate.id != id || CredentialRing.Rotates(ring, BurnedOn(excluded, id)) {
        StripRetryAfter(err);
      }
    }

    /** Clears the hint of the error itself, whoever else holds it. */
    method StripRetryAfter(err: Err)
      modifies this`hints
      ensures hints == if err.StatusErr? && err.serial in old(hints) then old(hints)[err.serial := 0] else old(hints)
    {
      if err.StatusErr? && err.serial in hints && hints[err.serial] > 0 {
        hints := hints[err.serial := 0];
      }
    }

    /** What the loop makes of an attempt: nothing when a retry follows; waits for
        the hint the error carries. */
    method EndsOn(n: nat, err: Option<Err>, worlds: nat -> World) returns (final: Option<Final>)
      requires n >= 1 && |walk.all| > 0 && err == ErrOf(n, worlds(n))
      requires Filed(kept, stream, n, Served(walk.all, n).candidate.id, worlds(n))
      requires Files(worlds(n)) && maxAttempts > n ==> n in hints && hints[n] == Wait(walk.all, worlds, n)
      requires waits == Waits(walk.all, worlds, n - 1)
      modifies this`waits
      ensures final.None? ==> GoesOn(maxAttempts, n, worlds(n)) && n < RetryBudget.Cap(maxAttempts) && Fresh(kept, n + 1)
      ensures final.Some? ==> !GoesOn(maxAttempts, n, worlds(n)) && final.value == FinalOf(maxAttempts, n, worlds(n))
      ensures waits == Waits(walk.all, worlds, n) || (waits == old(waits) && final.Some?)
    {
      var w := worlds(n);
      if err.None? {
        return Some(Done);
      }
      if err.value == Committed {
        return Some(Raw(err.value));
      }
      if !w.overall.Running? {
        return Some(Wrapped(ContextEnded(w.overall), err.value));
      }
      if n >= RetryBudget.Cap(maxAttempts) || !(kept.rotated == Some(err.value) || Table(err.value)) {
        return Some(Raw(err.value));
      }
      var hint := if err.value.StatusErr? && err.value.serial in hints then hints[err.value.serial] else 0;
      waits := waits + [hint];
      if !w.sleep.Running? {
        return Some(Wrapped(ContextEnded(w.sleep), err.value));
      }
      if !w.budget {
        return Some(Wrapped(BudgetExhausted, err.value));
      }
      FreshAgain(kept, stream, maxAttempts, n, Served(walk.all, n).candidate.id, w);
      final := None;
    }

    /** Attempt n is about to run: the ones before it all went on. */
    ghost predicate Underway(worlds: nat -> World, n: nat)
      reads this, walk
    {
      && walk.Valid() && 1 <= n <= RetryBudget.Cap(maxAttempts) && walk.Ready(n)
      && Fresh(kept, n) && headers == 0 && BurnedBy(walk.all, worlds, n - 1, excluded)
      && GoOn(maxAttempts, worlds, n - 1)
      && served == Trail(walk.all, n - 1) && waits == Waits(walk.all, worlds, n - 1)
    }

    /** Attempt n was the last: the loop's error and everything kept are its own. */
    ghost predicate Ended(worlds: nat -> World, n: nat, final: Final)
      reads this
    {
      && |walk.all| > 0 && 1 <= n <= RetryBudget.Cap(maxAttempts)
      && GoOn(maxAttempts, worlds, n - 1) && !GoesOn(maxAttempts, n, worlds(n))
      && final == FinalOf(maxAttempts, n, worlds(n))
      && Filed(kept, stream, n, Served(walk.all, n).candidate.id, worlds(n))
      && headers == (if kept.streamed then 1 else 0) && (kept.streamed ==> shown == 200)
      && served == Trail(walk.all, n)
      && (waits == Waits(walk.all, worlds, n - 1) || waits == Waits(walk.all, worlds, n))
    }

    method Round(n: nat, worlds: nat -> World) returns (ended: Option<Final>)
      requires Underway(worlds, n) && Fits(stream, worlds(n))
      modifies this, walk
      ensures ended.None? ==> n < RetryBudget.Cap(maxAttempts) && Underway(worlds, n + 1)
      ensures ended.Some? ==> Ended(worlds, n, ended.value)
    {
      var err := Attempt(n, worlds);
      ended := EndsOn(n, err, worlds);
    }

    /** The attempt loop: ends with the first attempt that delivers, commits, or
        fails with no retry wanted, allowed or awaited. */
    method AttemptLoop(worlds: nat -> World) returns (final: Final, n: nat)
      requires walk.Valid() && walk.Ready(1)
      requires Fresh(kept, 1) && headers == 0 && excluded == map[] && |served| == 0 && |waits| == 0
      requires forall k :: Fits(stream, worlds(k))
      modifies this, walk
      ensures Ended(worlds, n, final)
    {
      n := 1;
      while true
        invariant Underway(worlds, n)
        decreases RetryBudget.Cap(maxAttempts) - n
      {
        var ended := Round(n, worlds);
        if ended.Some? {
          return ended.value, n;
        }
        n := n + 1;
      }
    }

    /** Renders the one response: every branch writes one header, or found it
        written, or leaves a gone client alone. */
    method Finish(final: Final, gone: bool, ghost n: nat, ghost id: string, ghost w: World) returns (result: Result)
      requires n >= 1 && Fits(stream, w) && Filed(kept, stream, n, id, w) && final == FinalOf(maxAttempts, n, w)
      requires kept.streamed ==> shown == 200
      modifies this`headers, this`shown
      ensures result == Outcome(stream, maxAttempts, n, id, w, gone)
      ensures headers == old(headers) + if kept.streamed || Silent(result) then 0 else 1
      ensures !Silent(result) ==> shown == result.status
    {
      if final.Done? && stream {
        return Result(200, kept.servedBy, "", true, false, false);
      }
      if final.Done? {
        WriteHeader(kept.success.value);
        return Result(kept.success.value, kept.servedBy, "", false, false, false);
      }
      if final.err == Committed {
        return Result(200, kept.servedBy, kept.gatewayCode, true, true, gone);
      }
      if gone {
        return Result(IntendedStatus(final), "", "", false, false, true);
      }
      if kept.terminal.Some? {
        WriteHeader(kept.terminal.value);
        return Result(kept.terminal.value, kept.servedBy, "", false, false, false);
      }
      if Holds(final, CircuitOpen) {
        WriteHeader(503);
        return Result(503, "", "circuit_open", false, false, false);
      }
      if Holds(final, Saturated) {
        WriteHeader(503);
        return Result(503, "", "upstream_saturated", false, false, false);
      }
      if final.Wrapped? && final.stop.BudgetExhausted? {
        WriteHeader(503);
        return Result(503, "", "budget_exhausted", false, false, false);
      }
      if kept.lastFailed.Some? && Holds(final, kept.lastFailedErr) {
        WriteHeader(kept.lastFailed.value);
        return Result(kept.lastFailed.value, kept.servedBy, "", false, false, false);
      }
      WriteHeader(502);
      return Result(502, "", "upstream_unreachable", false, false, false);
    }

    /** What a client that left would have been told. */
    function IntendedStatus(final: Final): int
      reads this`kept
    {
      if kept.terminal.Some? then kept.terminal.value
      else if Holds(final, CircuitOpen) || Holds(final, Saturated) || (final.Wrapped? && final.stop.BudgetExhausted?) then 503
      else if kept.lastFailed.Some? && Holds(final, kept.lastFailedErr) then kept.lastFailed.value
      else 502
    }
  }

  /** One request: no candidates answer 502 at once; otherwise exactly one header
      is written, by the attempt that committed or at the end, or none when the
      request fails uncommitted with the client gone. */
  method Execute(stream: bool, maxAttempts: int, model: Model, candidates: seq<Candidate>, chain: seq<Model>,
      resolves: bool, answers: nat -> seq<Candidate>, worlds: nat -> World, gone: bool)
    returns (result: Result, headers: nat, attempts: nat)
    requires forall k :: Fits(stream, worlds(k))
    ensures |candidates| == 0 ==> attempts == 0 && headers == 1 && result == Result(502, "", "no_upstream", false, false, false)
    ensures |candidates| > 0 ==>
      var all := Flat(PlanOf(model, candidates, chain, resolves, answers));
      && |all| > 0 && 1 <= attempts <= RetryBudget.Cap(maxAttempts)
      && (forall k :: 1 <= k < attempts ==>
            MayPass(worlds(k)) && worlds(k).overall == Running && worlds(k).sleep == Running && worlds(k).budget)
      && !(MayPass(worlds(attempts)) && attempts < maxAttempts && worlds(attempts).overall == Running
           && worlds(attempts).sleep == Running && worlds(attempts).budget)
      && result == Outcome(stream, maxAttempts, attempts, Served(all, attempts).candidate.id, worlds(attempts), gone)
      && headers == if Silent(result) then 0 else 1
  {
    if |candidates| == 0 {
      return Result(502, "", "no_upstream", false, false, false), 1, 0;
    }
    var walk := new Walk(model, candidates, chain, resolves, answers);
    var run := new Run(stream, maxAttempts, walk);
    var final;
    final, attempts := run.AttemptLoop(worlds);
    result := run.Finish(final, gone, attempts, Served(walk.all, attempts).candidate.id, worlds(attempts));
    headers := run.headers;
    EachMayPass(maxAttempts, worlds, attempts);
    GoesOnIff(maxAttempts, attempts, worlds(attempts));
  }
}
