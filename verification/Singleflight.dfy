/** Deduplicating concurrent fetches: every caller of Do as a thread stepping
    through its critical sections, in any interleaving. */
module Singleflight {
  import opened Basics

  type Tid = nat
  type Key = string

  /** What a flight produced; a panic is published as an error. */
  datatype Result = Result(entry: string, err: Option<string>)

  /** One flight: who runs its fetch, its published result and whether its
      channel is closed. */
  datatype Flight = Flight(key: Key, holder: Tid, result: Option<Result>, closed: bool)

  /** Where a caller is in Do. */
  datatype Pc =
    | Start(key: Key)
    | Waiting(flight: nat)
    | Fetching(flight: nat)
    | Published(flight: nat, panicked: bool)
    | Removed(flight: nat, panicked: bool)
    | Finished(flight: nat, result: Result, owner: bool)
    | Raised(flight: nat)
    | GaveUp(flight: nat)

  /** The registry, every flight ever started, and the callers. */
  datatype State = State(calls: map<Key, nat>, flights: seq<Flight>, threads: map<Tid, Pc>)

  datatype Label =
    | Arrive(t: Tid, key: Key)
    | Lock(t: Tid)
    | FetchReturns(t: Tid, result: Result)
    | FetchPanics(t: Tid, message: string)
    | Remove(t: Tid)
    | Close(t: Tid)
    | Receive(t: Tid)
    | Expire(t: Tid)

  /** The flight's entry is still registered for it. */
  predicate HoldsEntry(p: Pc) { p.Fetching? || p.Published? }

  ghost predicate Enabled(s: State, l: Label) {
    match l
    case Arrive(t, _) => t !in s.threads
    case Lock(t) => t in s.threads && s.threads[t].Start?
    case FetchReturns(t, _) => t in s.threads && s.threads[t].Fetching? && s.threads[t].flight < |s.flights|
    case FetchPanics(t, _) => t in s.threads && s.threads[t].Fetching? && s.threads[t].flight < |s.flights|
    case Remove(t) => t in s.threads && s.threads[t].Published? && s.threads[t].flight < |s.flights|
    case Close(t) =>
      && t in s.threads && s.threads[t].Removed? && s.threads[t].flight < |s.flights|
      && s.flights[s.threads[t].flight].result.Some?
    case Receive(t) =>
      && t in s.threads && s.threads[t].Waiting? && s.threads[t].flight < |s.flights|
      && s.flights[s.threads[t].flight].closed && s.flights[s.threads[t].flight].result.Some?
    case Expire(t) => t in s.threads && s.threads[t].Waiting?
  }

  function Publish(s: State, t: Tid, f: nat, r: Result, panicked: bool): State
    requires f < |s.flights|
  {
    State(s.calls, s.flights[f := s.flights[f].(result := Some(r))], s.threads[t := Published(f, panicked)])
  }

  ghost function Next(s: State, l: Label): State
    requires Enabled(s, l)
  {
    match l
    case Arrive(t, key) => s.(threads := s.threads[t := Start(key)])
    case Lock(t) =>
      var key := s.threads[t].key;
      if key in s.calls then s.(threads := s.threads[t := Waiting(s.calls[key])])
      else
        var f := |s.flights|;
        State(s.calls[key := f], s.flights + [Flight(key, t, None, false)], s.threads[t := Fetching(f)])
    case FetchReturns(t, r) => Publish(s, t, s.threads[t].flight, r, false)
    case FetchPanics(t, message) => Publish(s, t, s.threads[t].flight, Result("", Some(message)), true)
    case Remove(t) =>
      var f := s.threads[t].flight;
      State(s.calls - {s.flights[f].key}, s.flights, s.threads[t := Removed(f, s.threads[t].panicked)])
    case Close(t) =>
      var f := s.threads[t].flight;
      State(s.calls, s.flights[f := s.flights[f].(closed := true)],
            s.threads[t := if s.threads[t].panicked then Raised(f) else Finished(f, s.flights[f].result.value, true)])
    case Receive(t) =>
      var f := s.threads[t].flight;
      s.(threads := s.threads[t := Finished(f, s.flights[f].result.value, false)])
    case Expire(t) => s.(threads := s.threads[t := GaveUp(s.threads[t].flight)])
  }

  // ---------------------------------------------------------------------
  // The invariant
  // ---------------------------------------------------------------------

  predicate Holding(p: Pc) { p.Fetching? || p.Published? || p.Removed? }

  predicate Entered(s: State, f: nat) {
    f < |s.flights| && s.flights[f].key in s.calls && s.calls[s.flights[f].key] == f
  }

  /** A caller and its flight: a holder is the flight's own, registered until it
      removes its entry; the result is there from publication on; whoever
      finished carries exactly that. */
  ghost predicate CallerOk(s: State, t: Tid)
    requires t in s.threads
  {
    match s.threads[t]
    case Start(_) => true
    case Waiting(f) => f < |s.flights|
    case Fetching(f) => Entered(s, f) && s.flights[f].holder == t && s.flights[f].result.None? && !s.flights[f].closed
    case Published(f, _) => Entered(s, f) && s.flights[f].holder == t && s.flights[f].result.Some? && !s.flights[f].closed
    case Removed(f, _) => f < |s.flights| && s.flights[f].holder == t && s.flights[f].result.Some? && !s.flights[f].closed
    case Finished(f, r, _) => f < |s.flights| && s.flights[f].result == Some(r)
    case Raised(f) => f < |s.flights|
    case GaveUp(f) => f < |s.flights|
  }

  /** An open flight has its holder still at work. */
  ghost predicate FlightOk(s: State, f: nat)
    requires f < |s.flights|
  {
    var t := s.flights[f].holder;
    if s.flights[f].closed then s.flights[f].result.Some?
    else t in s.threads && Holding(s.threads[t]) && s.threads[t].flight == f
  }

  /** A registered flight is for that key and its holder has not left it. */
  ghost predicate EntryOk(s: State, k: Key)
    requires k in s.calls
  {
    var f := s.calls[k];
    && f < |s.flights| && s.flights[f].key == k
    && s.flights[f].holder in s.threads
    && HoldsEntry(s.threads[s.flights[f].holder]) && s.threads[s.flights[f].holder].flight == f
  }

  ghost predicate Inv(s: State) {
    && (forall t :: t in s.threads ==> CallerOk(s, t))
    && (forall f :: 0 <= f < |s.flights| ==> FlightOk(s, f))
    && (forall k :: k in s.calls ==> EntryOk(s, k))
  }

  lemma LockWaits(s: State, t: Tid)
    requires Inv(s) && Enabled(s, Lock(t)) && s.threads[t].key in s.calls
    ensures Inv(Next(s, Lock(t)))
  {
    var s' := Next(s, Lock(t));
    assert EntryOk(s, s.threads[t].key);
    forall u | u in s'.threads ensures CallerOk(s', u) {
      assert u in s.threads && CallerOk(s, u);
    }
    forall f | 0 <= f < |s'.flights| ensures FlightOk(s', f) {
      assert FlightOk(s, f);
    }
    forall k | k in s'.calls ensures EntryOk(s', k) {
      assert EntryOk(s, k);
    }
  }

  lemma LockStarts(s: State, t: Tid)
    requires Inv(s) && Enabled(s, Lock(t)) && s.threads[t].key !in s.calls
    ensures Inv(Next(s, Lock(t)))
  {
    var s' := Next(s, Lock(t));
    forall u | u in s'.threads ensures CallerOk(s', u) {
      assert u in s.threads && CallerOk(s, u);
    }
    forall f | 0 <= f < |s'.flights| ensures FlightOk(s', f) {
      if f < |s.flights| {
        assert FlightOk(s, f);
      }
    }
    forall k | k in s'.calls ensures EntryOk(s', k) {
      if k in s.calls {
        assert EntryOk(s, k);
      }
    }
  }

  lemma ArriveKeepsInv(s: State, t: Tid, key: Key)
    requires Inv(s) && Enabled(s, Arrive(t, key))
    ensures Inv(Next(s, Arrive(t, key)))
  {
    var s' := Next(s, Arrive(t, key));
    forall u | u in s'.threads ensures CallerOk(s', u) {
      if u in s.threads {
        assert CallerOk(s, u);
      }
    }
    forall f | 0 <= f < |s'.flights| ensures FlightOk(s', f) {
      assert FlightOk(s, f);
    }
    forall k | k in s'.calls ensures EntryOk(s', k) {
      assert EntryOk(s, k);
    }
  }

  lemma PublishKeepsInv(s: State, t: Tid, r: Result, panicked: bool)
    requires Inv(s) && t in s.threads && s.threads[t].Fetching?
    requires s.threads[t].flight < |s.flights|
    ensures Inv(Publish(s, t, s.threads[t].flight, r, panicked))
  {
    var s' := Publish(s, t, s.threads[t].flight, r, panicked);
    assert CallerOk(s, t);
    forall u | u in s'.threads ensures CallerOk(s', u) {
      assert u in s.threads && CallerOk(s, u);
    }
    forall f | 0 <= f < |s'.flights| ensures FlightOk(s', f) {
      assert FlightOk(s, f);
    }
    forall k | k in s'.calls ensures EntryOk(s', k) {
      assert EntryOk(s, k);
    }
  }

  lemma RemoveKeepsInv(s: State, t: Tid)
    requires Inv(s) && Enabled(s, Remove(t))
    ensures Inv(Next(s, Remove(t)))
  {
    var s' := Next(s, Remove(t));
    assert CallerOk(s, t);
    forall u | u in s'.threads ensures CallerOk(s', u) {
      assert u in s.threads && CallerOk(s, u);
    }
    forall f | 0 <= f < |s'.flights| ensures FlightOk(s', f) {
      assert FlightOk(s, f);
    }
    forall k | k in s'.calls ensures EntryOk(s', k) {
      assert EntryOk(s, k);
    }
  }

  lemma CloseKeepsInv(s: State, t: Tid)
    requires Inv(s) && Enabled(s, Close(t))
    ensures Inv(Next(s, Close(t)))
  {
    var s' := Next(s, Close(t));
    assert CallerOk(s, t);
    forall u | u in s'.threads ensures CallerOk(s', u) {
      assert u in s.threads && CallerOk(s, u);
    }
    forall f | 0 <= f < |s'.flights| ensures FlightOk(s', f) {
      assert FlightOk(s, f);
    }
    forall k | k in s'.calls ensures EntryOk(s', k) {
      assert EntryOk(s, k);
    }
  }

  lemma LeaveKeepsInv(s: State, l: Label)
    requires Inv(s) && Enabled(s, l) && (l.Receive? || l.Expire?)
    ensures Inv(Next(s, l))
  {
    var s' := Next(s, l);
    assert CallerOk(s, l.t);
    forall u | u in s'.threads ensures CallerOk(s', u) {
      assert u in s.threads && CallerOk(s, u);
    }
    forall f | 0 <= f < |s'.flights| ensures FlightOk(s', f) {
      assert FlightOk(s, f);
    }
    forall k | k in s'.calls ensures EntryOk(s', k) {
      assert EntryOk(s, k);
    }
  }

  lemma NextKeepsInv(s: State, l: Label)
    requires Inv(s) && Enabled(s, l)
    ensures Inv(Next(s, l))
  {
    match l
    case Arrive(t, key) => ArriveKeepsInv(s, t, key);
    case Lock(t) => if s.threads[t].key in s.calls { LockWaits(s, t); } else { LockStarts(s, t); }
    case FetchReturns(t, r) => PublishKeepsInv(s, t, r, false);
    case FetchPanics(t, message) => PublishKeepsInv(s, t, Result("", Some(message)), true);
    case Remove(t) => RemoveKeepsInv(s, t);
    case Close(t) => CloseKeepsInv(s, t);
    case Receive(_) => LeaveKeepsInv(s, l);
    case Expire(_) => LeaveKeepsInv(s, l);
  }

  /** A published result and a closed channel stay as they are. */
  lemma NextKeepsResults(s: State, l: Label, f: nat)
    requires Inv(s) && Enabled(s, l) && f < |s.flights|
    ensures var s' := Next(s, l);
            && f < |s'.flights| && s'.flights[f].key == s.flights[f].key
            && (s.flights[f].result.Some? ==> s'.flights[f].result == s.flights[f].result)
            && (s.flights[f].closed ==> s'.flights[f].closed)
  {
  }

  // ---------------------------------------------------------------------
  // Every interleaving
  // ---------------------------------------------------------------------

  /** A run: the state before each label and after the last. */
  ghost predicate Run(states: seq<State>, labels: seq<Label>) {
    && |states| == |labels| + 1
    && states[0] == State(map[], [], map[])
    && forall i :: 0 <= i < |labels| ==> Enabled(states[i], labels[i]) && states[i + 1] == Next(states[i], labels[i])
  }

  lemma {:induction false} RunKeepsInv(states: seq<State>, labels: seq<Label>, i: nat)
    requires Run(states, labels) && i < |states|
    ensures Inv(states[i])
  {
    if i > 0 {
      RunKeepsInv(states, labels, i - 1);
      NextKeepsInv(states[i - 1], labels[i - 1]);
    }
  }

  /** No two fetches for one key overlap. */
  lemma FetchesNeverOverlap(states: seq<State>, labels: seq<Label>, i: nat, t: Tid, u: Tid)
    requires Run(states, labels) && i < |states|
    requires t in states[i].threads && u in states[i].threads
    requires states[i].threads[t].Fetching? && states[i].threads[u].Fetching?
    requires states[i].threads[t].flight < |states[i].flights| && states[i].threads[u].flight < |states[i].flights|
    requires states[i].flights[states[i].threads[t].flight].key == states[i].flights[states[i].threads[u].flight].key
    ensures t == u
  {
    RunKeepsInv(states, labels, i);
    assert CallerOk(states[i], t) && CallerOk(states[i], u);
  }

  /** What a finishing holder removes is its own entry. */
  lemma HolderRemovesItsOwn(states: seq<State>, labels: seq<Label>, i: nat)
    requires Run(states, labels) && i < |labels| && labels[i].Remove?
    ensures var f := states[i].threads[labels[i].t].flight;
            var key := states[i].flights[f].key;
            && key in states[i].calls && states[i].calls[key] == f
            && states[i + 1].calls == states[i].calls - {key}
  {
    RunKeepsInv(states, labels, i);
    assert CallerOk(states[i], labels[i].t);
  }

  /** The step that published a flight's result. */
  ghost predicate PublishedBy(states: seq<State>, labels: seq<Label>, k: nat, f: nat, r: Result)
    requires Run(states, labels) && k < |labels|
  {
    && (labels[k].FetchReturns? || labels[k].FetchPanics?)
    && states[k].threads[labels[k].t] == Fetching(f)
    && r == if labels[k].FetchReturns? then labels[k].result else Result("", Some(labels[k].message))
  }

  lemma {:induction false} ResultWasPublished(states: seq<State>, labels: seq<Label>, j: nat, f: nat)
    requires Run(states, labels) && j < |states| && f < |states[j].flights| && states[j].flights[f].result.Some?
    ensures exists k :: 0 <= k < j && PublishedBy(states, labels, k, f, states[j].flights[f].result.value)
  {
    if j > 0 {
      RunKeepsInv(states, labels, j - 1);
      if f < |states[j - 1].flights| && states[j - 1].flights[f].result.Some? {
        NextKeepsResults(states[j - 1], labels[j - 1], f);
        ResultWasPublished(states, labels, j - 1, f);
      } else {
        assert PublishedBy(states, labels, j - 1, f, states[j].flights[f].result.value);
      }
    }
  }

  /** Whoever came back with a result, holder or waiter, has exactly what the
      one fetch of the flight it joined returned, or the error its panic was
      turned into. */
  lemma EveryoneGetsTheFlightsResult(states: seq<State>, labels: seq<Label>, i: nat, t: Tid)
    requires Run(states, labels) && i < |states| && t in states[i].threads && states[i].threads[t].Finished?
    ensures exists k :: 0 <= k < i && PublishedBy(states, labels, k, states[i].threads[t].flight, states[i].threads[t].result)
  {
    RunKeepsInv(states, labels, i);
    assert CallerOk(states[i], t);
    ResultWasPublished(states, labels, i, states[i].threads[t].flight);
  }

  /** The step in which a caller's own fetch ended, and how. */
  ghost predicate EndedBy(states: seq<State>, labels: seq<Label>, k: nat, t: Tid, f: nat, panicked: bool)
    requires Run(states, labels) && k < |labels|
  {
    && labels[k].t == t && (if panicked then labels[k].FetchPanics? else labels[k].FetchReturns?)
    && states[k].threads[t] == Fetching(f)
  }

  /** The step in which a caller joined another's flight. */
  ghost predicate JoinedBy(states: seq<State>, labels: seq<Label>, k: nat, t: Tid, f: nat)
    requires Run(states, labels) && k < |labels|
  {
    labels[k] == Lock(t) && t in states[k + 1].threads && states[k + 1].threads[t] == Waiting(f)
  }

  /** How a caller got where it is. */
  ghost predicate Came(states: seq<State>, labels: seq<Label>, i: nat, t: Tid)
    requires Run(states, labels) && i < |states| && t in states[i].threads
  {
    match states[i].threads[t]
    case Published(f, panicked) => exists k :: 0 <= k < i && EndedBy(states, labels, k, t, f, panicked)
    case Removed(f, panicked) => exists k :: 0 <= k < i && EndedBy(states, labels, k, t, f, panicked)
    case Raised(f) => exists k :: 0 <= k < i && EndedBy(states, labels, k, t, f, true)
    case Waiting(f) => exists k :: 0 <= k < i && JoinedBy(states, labels, k, t, f)
    case GaveUp(f) => exists k :: 0 <= k < i && JoinedBy(states, labels, k, t, f)
    case Finished(f, _, owner) =>
      if owner then exists k :: 0 <= k < i && EndedBy(states, labels, k, t, f, false)
      else exists k :: 0 <= k < i && JoinedBy(states, labels, k, t, f)
    case _ => true
  }

  /** A caller comes back as the owner only when its own fetch returned, raises only
      when its own fetch panicked, and in every other case had joined the flight it
      answers for. */
  lemma {:induction false} OwnersRanTheFetch(states: seq<State>, labels: seq<Label>, i: nat, t: Tid)
    requires Run(states, labels) && i < |states| && t in states[i].threads
    ensures Came(states, labels, i, t)
  {
    if i > 0 {
      var s, l := states[i - 1], labels[i - 1];
      if t in s.threads {
        OwnersRanTheFetch(states, labels, i - 1, t);
      }
      if l.t == t {
        assert l.FetchReturns? ==> EndedBy(states, labels, i - 1, t, s.threads[t].flight, false);
        assert l.FetchPanics? ==> EndedBy(states, labels, i - 1, t, s.threads[t].flight, true);
        assert l.Lock? && states[i].threads[t].Waiting? ==> JoinedBy(states, labels, i - 1, t, states[i].threads[t].flight);
      } else {
        assert t in s.threads && states[i].threads[t] == s.threads[t];
      }
    }
  }

  /** Nobody waits on a flight without a holder: a waiter whose channel is still
      open has a caller that will close it, panic or not. */
  lemma WaitersHaveAHolder(states: seq<State>, labels: seq<Label>, i: nat, t: Tid)
    requires Run(states, labels) && i < |states| && t in states[i].threads && states[i].threads[t].Waiting?
    ensures var s := states[i];
            var f := s.threads[t].flight;
            && f < |s.flights|
            && (Enabled(s, Receive(t)) ||
                exists u :: u in s.threads && Holding(s.threads[u]) && s.threads[u].flight == f)
  {
    RunKeepsInv(states, labels, i);
    var s := states[i];
    assert CallerOk(s, t);
    var f := s.threads[t].flight;
    assert FlightOk(s, f);
    if !s.flights[f].closed {
      assert Holding(s.threads[s.flights[f].holder]);
    }
  }
}
