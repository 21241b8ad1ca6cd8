/** The three-state skeleton both breaker strategies run: the cooldown gate out
    of open and the single probe of half-open. */
module Governor {
  import opened Basics

  datatype Position = Closed | Open | HalfOpen

  datatype Outcome = Success | ClientFault | ServerFault | Slow | GatewayTerminated

  /** A probe slot holder's claim; the serial is its identity. */
  datatype Grant = Grant(serial: nat, deadline: Time)

  datatype Machine = Machine(name: Position, openedAt: Time, probe: Option<Grant>, issued: nat)

  datatype Timing = Timing(cooldown: Time, probeTimeout: Time)

  datatype Verdict = Denied | Admitted(grant: Option<Grant>)

  // ---------------------------------------------------------------------
  // The rules
  // ---------------------------------------------------------------------

  function Enter(m: Machine, to: Position, now: Time): Machine {
    if m.name == to then m
    else Machine(to, if to == Open then now else m.openedAt, if to == Closed then None else m.probe, m.issued)
  }

  function Reclaim(m: Machine, now: Time): Machine {
    Enter(m.(probe := None), Open, now).(openedAt := now)
  }

  function Late(m: Machine, now: Time): bool {
    m.probe.Some? && now > m.probe.value.deadline
  }

  function Grab(g: Timing, m: Machine, now: Time): (Machine, Verdict) {
    var grant := Grant(m.issued, now + g.probeTimeout);
    (m.(probe := Some(grant), issued := m.issued + 1), Admitted(Some(grant)))
  }

  function Allow(g: Timing, m: Machine, now: Time): (Machine, Verdict) {
    match m.name
    case Closed => (m, Admitted(None))
    case Open =>
      if now - m.openedAt < g.cooldown then (m, Denied) else Grab(g, Enter(m, HalfOpen, now), now)
    case HalfOpen =>
      if m.probe.Some? then (if Late(m, now) then Reclaim(m, now) else m, Denied) else Grab(g, m, now)
  }

  function Observe(g: Timing, m: Machine, now: Time): Machine {
    match m.name
    case Closed => m
    case Open => if now - m.openedAt >= g.cooldown then Enter(m, HalfOpen, now) else m
    case HalfOpen => if Late(m, now) then Reclaim(m, now) else m
  }

  /** A report, for whatever evidence rule decides that a closed machine trips. */
  function Report(m: Machine, grant: Option<Grant>, outcome: Outcome, trips: bool, now: Time): Machine {
    match m.name
    case Closed => if trips then Enter(m, Open, now) else m
    case HalfOpen =>
      if m.probe.None? || m.probe != grant then m
      else if outcome == GatewayTerminated || Late(m, now) then Reclaim(m, now)
      else Enter(m.(probe := None), if outcome == ServerFault then Open else Closed, now)
    case Open => m
  }

  function Reset(m: Machine, now: Time): Machine {
    Enter(m.(probe := None), Closed, now)
  }

  // ---------------------------------------------------------------------
  // One call
  // ---------------------------------------------------------------------

  /** A probe slot is occupied only in half-open, and by the latest grant. */
  ghost predicate Settled(m: Machine) {
    m.probe.Some? ==> m.name == HalfOpen && m.probe.value.serial == m.issued - 1
  }

  /** A permission that does not own the outstanding grant moves nothing outside
      closed. */
  lemma StrangerMovesNothing(m: Machine, grant: Option<Grant>, outcome: Outcome, trips: bool, now: Time)
    requires m.name != Closed && (grant.None? || m.probe != grant)
    ensures Report(m, grant, outcome, trips, now) == m
  {
  }

  /** A grant is new: no permission handed out before carries it. */
  lemma GrantIsFresh(g: Timing, m: Machine, now: Time)
    ensures var (m', v) := Allow(g, m, now);
            && m'.issued >= m.issued
            && (v.Admitted? && v.grant.Some? ==> v.grant.value.serial == m.issued < m'.issued && m'.probe == v.grant)
  {
  }

  /** An expired probe never closes the machine, and whatever looks at it next
      frees the slot into a fresh cooldown. */
  lemma ExpiredProbeIsReclaimed(g: Timing, m: Machine, now: Time, outcome: Outcome)
    requires m.name == HalfOpen && Late(m, now)
    ensures var freed := Machine(Open, now, None, m.issued);
            && Allow(g, m, now) == (freed, Denied)
            && Observe(g, m, now) == freed
            && Report(m, m.probe, outcome, false, now) == freed
  {
  }

  /** A truncated probe proves nothing: it never closes. */
  lemma GatewayCutNeverCloses(m: Machine, grant: Option<Grant>, trips: bool, now: Time)
    requires m.name != Closed
    ensures Report(m, grant, GatewayTerminated, trips, now).name != Closed
  {
  }

  /** Reading never takes the probe slot: the call after it still finds it. */
  lemma ObserveLeavesSlotFree(g: Timing, m: Machine, now: Time)
    requires Settled(m) && m.name == Open && now - m.openedAt >= g.cooldown
    ensures Allow(g, Observe(g, m, now), now) == Allow(g, m, now)
  {
  }

  // ---------------------------------------------------------------------
  // Whole runs
  // ---------------------------------------------------------------------

  datatype Event =
    | Call(now: Time)
    | Read(now: Time)
    | Tell(grant: Option<Grant>, outcome: Outcome, trips: bool, now: Time)
    | Force(now: Time)

  /** A machine with its history: the admissions since it was last closed, and
      how many probes the present half-open episode has granted. */
  datatype Track = Track(m: Machine, admissions: seq<Time>, episode: nat)

  function Moved(t: Track, m: Machine, admitted: bool, now: Time): Track {
    Track(m,
          if m.name == Closed then [] else t.admissions + if admitted then [now] else [],
          if m.name != HalfOpen then 0
          else (if t.m.name == HalfOpen then t.episode else 0) + if admitted then 1 else 0)
  }

  function Next(g: Timing, t: Track, e: Event): Track {
    match e
    case Call(now) => var (m, v) := Allow(g, t.m, now); Moved(t, m, v.Admitted?, now)
    case Read(now) => Moved(t, Observe(g, t.m, now), false, now)
    case Tell(grant, outcome, trips, now) => Moved(t, Report(t.m, grant, outcome, trips, now), false, now)
    case Force(now) => Moved(t, Reset(t.m, now), false, now)
  }

  ghost predicate Spaced(times: seq<Time>, gap: Time) {
    forall i :: 0 < i < |times| ==> times[i] - times[i - 1] >= gap
  }

  /** The present episode's one probe holds the slot; nothing has been admitted
      since a close. */
  ghost predicate OneProbe(t: Track) {
    && Settled(t.m)
    && t.episode == (if t.m.probe.Some? then 1 else 0)
    && (t.m.name == Closed ==> |t.admissions| == 0)
  }

  ghost predicate WellTimed(g: Timing, t: Track, clock: Time) {
    && Spaced(t.admissions, g.cooldown)
    && (t.m.name != Closed ==> t.m.openedAt <= clock)
    && (t.m.name != Closed && t.m.probe.None? && |t.admissions| > 0 ==> t.admissions[|t.admissions| - 1] <= t.m.openedAt)
    && (t.m.name == HalfOpen ==> t.m.openedAt + g.cooldown <= clock)
    && (|t.admissions| > 0 ==> t.admissions[|t.admissions| - 1] <= clock)
  }

  ghost predicate Inv(g: Timing, t: Track, clock: Time) { OneProbe(t) && WellTimed(g, t, clock) }

  lemma CallKeepsOneProbe(g: Timing, t: Track, now: Time)
    requires OneProbe(t)
    ensures OneProbe(Next(g, t, Call(now)))
  {
  }

  /** An admission out of half-open's gate comes a cooldown after the last. */
  lemma CallKeepsInv(g: Timing, t: Track, clock: Time, now: Time)
    requires Inv(g, t, clock) && clock <= now
    ensures Inv(g, Next(g, t, Call(now)), now)
  {
    CallKeepsOneProbe(g, t, now);
    var (m, v) := Allow(g, t.m, now);
    if t.m.name == Closed {
    } else if v.Admitted? {
      assert |t.admissions| > 0 ==> now - t.admissions[|t.admissions| - 1] >= g.cooldown;
    } else {
      assert t.admissions + [] == t.admissions;
    }
  }

  lemma ReadKeepsInv(g: Timing, t: Track, clock: Time, now: Time)
    requires Inv(g, t, clock) && clock <= now
    ensures Inv(g, Next(g, t, Read(now)), now)
  {
    assert t.admissions + [] == t.admissions;
  }

  lemma TellKeepsOneProbe(g: Timing, t: Track, grant: Option<Grant>, outcome: Outcome, trips: bool, now: Time)
    requires OneProbe(t)
    ensures OneProbe(Next(g, t, Tell(grant, outcome, trips, now)))
  {
  }

  lemma TellKeepsInv(g: Timing, t: Track, clock: Time, grant: Option<Grant>, outcome: Outcome, trips: bool, now: Time)
    requires Inv(g, t, clock) && clock <= now
    ensures Inv(g, Next(g, t, Tell(grant, outcome, trips, now)), now)
  {
    TellKeepsOneProbe(g, t, grant, outcome, trips, now);
    var m := Report(t.m, grant, outcome, trips, now);
    assert m.name == Closed || m == t.m || m.openedAt == now;
    assert t.admissions + [] == t.admissions;
  }

  lemma NextKeepsInv(g: Timing, t: Track, clock: Time, e: Event)
    requires Inv(g, t, clock) && clock <= e.now
    ensures Inv(g, Next(g, t, e), e.now)
  {
    match e
    case Call(now) => CallKeepsInv(g, t, clock, now);
    case Read(now) => ReadKeepsInv(g, t, clock, now);
    case Tell(grant, outcome, trips, now) => TellKeepsInv(g, t, clock, grant, outcome, trips, now);
    case Force(now) =>
  }

  function NextAll(g: Timing, t: Track, run: seq<Event>): Track {
    if |run| == 0 then t else Next(g, NextAll(g, t, run[..|run| - 1]), run[|run| - 1])
  }

  ghost predicate ClockOrdered(run: seq<Event>, clock: Time) {
    && (forall i :: 0 <= i < |run| ==> clock <= run[i].now)
    && (forall i, j :: 0 <= i < j < |run| ==> run[i].now <= run[j].now)
  }

  function Start(): Track { Track(Machine(Closed, 0, None, 0), [], 0) }

  lemma {:induction false} RunKeepsInv(g: Timing, run: seq<Event>, clock: Time)
    requires ClockOrdered(run, clock)
    ensures Inv(g, NextAll(g, Start(), run), if |run| == 0 then clock else run[|run| - 1].now)
  {
    if |run| > 0 {
      var init := run[..|run| - 1];
      RunKeepsInv(g, init, clock);
      NextKeepsInv(g, NextAll(g, Start(), init), if |init| == 0 then clock else init[|init| - 1].now, run[|run| - 1]);
    }
  }

  lemma {:induction false} SpacedSpan(times: seq<Time>, gap: Time)
    requires Spaced(times, gap) && |times| > 0
    ensures times[|times| - 1] - times[0] >= (|times| - 1) * gap
  {
    if |times| > 1 {
      var init := times[..|times| - 1];
      SpacedSpan(init, gap);
      assert times[|times| - 1] - init[|init| - 1] >= gap;
      assert (|times| - 1) * gap == (|init| - 1) * gap + gap;
    }
  }

  /** Over any run of calls, reads, reports (owned, stale or late) and resets:
      the slot is occupied only in half-open, an episode grants at most one
      probe, and k admissions with no closed state between them span at least
      k-1 cooldowns. */
  lemma ProbeDiscipline(g: Timing, run: seq<Event>, clock: Time)
    requires ClockOrdered(run, clock)
    ensures var t := NextAll(g, Start(), run);
            && (t.m.probe.Some? ==> t.m.name == HalfOpen)
            && t.episode <= 1
            && (|t.admissions| > 0 ==>
                  t.admissions[|t.admissions| - 1] - t.admissions[0] >= (|t.admissions| - 1) * g.cooldown)
  {
    RunKeepsInv(g, run, clock);
    var t := NextAll(g, Start(), run);
    if |t.admissions| > 0 {
      SpacedSpan(t.admissions, g.cooldown);
    }
  }

  /** In every reachable state outside closed, only the holder of the latest
      grant can move the machine by reporting: older permissions, permissions
      granted while closed and second holders are absorbed. */
  lemma OnlyLatestGrantMoves(g: Timing, run: seq<Event>, clock: Time, grant: Option<Grant>, outcome: Outcome, trips: bool, now: Time)
    requires ClockOrdered(run, clock)
    ensures var t := NextAll(g, Start(), run);
            t.m.name != Closed && Report(t.m, grant, outcome, trips, now) != t.m ==>
              t.m.name == HalfOpen && grant.Some? && grant == t.m.probe && grant.value.serial == t.m.issued - 1
  {
    RunKeepsInv(g, run, clock);
  }

  /** Nothing but an operator's reset, or the latest probe's own report of a
      completed call before its deadline, closes a breaker in any run: not a late
      report, not one the gateway cut short, not one by another permission. */
  lemma OnlyHealthyProbesClose(g: Timing, run: seq<Event>, clock: Time, e: Event)
    requires ClockOrdered(run, clock)
    ensures var t := NextAll(g, Start(), run);
            t.m.name != Closed ==>
              (Next(g, t, e).m.name == Closed <==>
               || e.Force?
               || (&& e.Tell? && t.m.name == HalfOpen && e.grant.Some? && t.m.probe == e.grant
                   && e.grant.value.serial == t.m.issued - 1 && e.now <= e.grant.value.deadline
                   && e.outcome != ServerFault && e.outcome != GatewayTerminated))
  {
    RunKeepsInv(g, run, clock);
    var t := NextAll(g, Start(), run);
    if e.Tell? && t.m.name != Closed {
      if e.grant.None? || t.m.probe != e.grant {
        StrangerMovesNothing(t.m, e.grant, e.outcome, e.trips, e.now);
      } else if e.outcome == GatewayTerminated {
        GatewayCutNeverCloses(t.m, e.grant, e.trips, e.now);
      } else if t.m.name == HalfOpen && Late(t.m, e.now) {
        ExpiredProbeIsReclaimed(g, t.m, e.now, e.outcome);
      }
    }
  }

  /** In no run does reading a breaker's position change what the next call gets
      or leaves. */
  lemma ReadsAreInvisible(g: Timing, run: seq<Event>, clock: Time, now: Time)
    requires g.cooldown > 0 && ClockOrdered(run, clock)
    ensures var m := NextAll(g, Start(), run).m;
            Allow(g, Observe(g, m, now), now) == Allow(g, m, now)
  {
    RunKeepsInv(g, run, clock);
    var m := NextAll(g, Start(), run).m;
    if m.name == Open && now - m.openedAt >= g.cooldown {
      ObserveLeavesSlotFree(g, m, now);
    } else if m.name == HalfOpen && Late(m, now) {
      ExpiredProbeIsReclaimed(g, m, now, Success);
    }
  }

  /** What the i-th event of a run hands out. */
  function GrantAt(g: Timing, run: seq<Event>, i: nat): Option<Grant>
    requires i < |run|
  {
    if !run[i].Call? then None
    else match Allow(g, NextAll(g, Start(), run[..i]).m, run[i].now).1
         case Denied => None
         case Admitted(grant) => grant
  }

  lemma IssuedOnce(g: Timing, t: Track, e: Event)
    ensures Next(g, t, e).m.issued >= t.m.issued
  {
  }

  lemma {:induction false} IssuedNeverFalls(g: Timing, run: seq<Event>, i: nat, j: nat)
    requires i <= j <= |run|
    ensures NextAll(g, Start(), run[..i]).m.issued <= NextAll(g, Start(), run[..j]).m.issued
    decreases j
  {
    if i < j {
      IssuedNeverFalls(g, run, i, j - 1);
      IssuedOneMore(g, run, j - 1);
    }
  }

  lemma IssuedOneMore(g: Timing, run: seq<Event>, i: nat)
    requires i < |run|
    ensures NextAll(g, Start(), run[..i]).m.issued <= NextAll(g, Start(), run[..i + 1]).m.issued
  {
    NextOne(g, run, i);
    IssuedOnce(g, NextAll(g, Start(), run[..i]), run[i]);
  }

  lemma NextOne(g: Timing, run: seq<Event>, i: nat)
    requires i < |run|
    ensures NextAll(g, Start(), run[..i + 1]) == Next(g, NextAll(g, Start(), run[..i]), run[i])
  {
    assert run[..i + 1][..i] == run[..i];
  }

  /** No two probes of a run carry the same grant, so a stale permission is never
      taken for the outstanding one. */
  lemma GrantsNeverRepeat(g: Timing, run: seq<Event>, i: nat, j: nat)
    requires i < j < |run| && GrantAt(g, run, i).Some? && GrantAt(g, run, j).Some?
    ensures GrantAt(g, run, i).value.serial < GrantAt(g, run, j).value.serial
  {
    GrantIsFresh(g, NextAll(g, Start(), run[..i]).m, run[i].now);
    GrantIsFresh(g, NextAll(g, Start(), run[..j]).m, run[j].now);
    NextOne(g, run, i);
    IssuedNeverFalls(g, run, i + 1, j);
  }

  // ---------------------------------------------------------------------
  // Decisions by what happened
  // ---------------------------------------------------------------------

  /** The machine after a run from a fresh breaker. */
  function After(g: Timing, run: seq<Event>): Machine { NextAll(g, Start(), run).m }

  /** The instant of the last event of a run that opened the breaker. */
  function LastOpening(g: Timing, run: seq<Event>): Option<Time> {
    if |run| == 0 then None
    else
      var init := run[..|run| - 1];
      if After(g, init).name != Open && After(g, run).name == Open then Some(run[|run| - 1].now) else LastOpening(g, init)
  }

  lemma OpeningIsStamped(g: Timing, t: Track, e: Event)
    ensures var m := Next(g, t, e).m;
            m.name != Closed ==> m.openedAt == if t.m.name != Open && m.name == Open then e.now else t.m.openedAt
  {
  }

  lemma {:induction false} OpenedWhen(g: Timing, run: seq<Event>)
    ensures After(g, run).name != Closed ==> LastOpening(g, run) == Some(After(g, run).openedAt)
  {
    if |run| > 0 {
      var init := run[..|run| - 1];
      OpenedWhen(g, init);
      OpeningIsStamped(g, NextAll(g, Start(), init), run[|run| - 1]);
      ClosedOpensFirst(g, NextAll(g, Start(), init), run[|run| - 1]);
    }
  }

  /** The way out of closed leads to open. */
  lemma ClosedOpensFirst(g: Timing, t: Track, e: Event)
    ensures t.m.name == Closed && Next(g, t, e).m.name != Closed ==> Next(g, t, e).m.name == Open
  {
  }

  /** In any run a call is admitted exactly when the breaker is closed, or a whole
      cooldown has passed since it last opened and no probe is out; outside closed
      it is the probe, to be reported within the probe's own time. */
  lemma CallAdmittedIff(g: Timing, run: seq<Event>, clock: Time, now: Time)
    requires ClockOrdered(run, clock) && (if |run| == 0 then clock else run[|run| - 1].now) <= now
    ensures var m, v := After(g, run), Allow(g, After(g, run), now).1;
            && (v.Admitted? <==>
                  m.name == Closed || (m.probe == None && LastOpening(g, run).Some? && now - LastOpening(g, run).value >= g.cooldown))
            && (v.Admitted? ==> v.grant == if m.name == Closed then None else Some(Grant(m.issued, now + g.probeTimeout)))
  {
    RunKeepsInv(g, run, clock);
    OpenedWhen(g, run);
  }

  /** And the position read is open exactly within a cooldown of the last opening,
      or when an overdue probe has just been found. */
  lemma PositionRead(g: Timing, run: seq<Event>, clock: Time, now: Time)
    requires ClockOrdered(run, clock) && (if |run| == 0 then clock else run[|run| - 1].now) <= now
    ensures var m, read := After(g, run), Observe(g, After(g, run), now);
            if m.name == Closed then read == m
            else if m.probe.Some? && now > m.probe.value.deadline then read == Machine(Open, now, None, m.issued)
            else LastOpening(g, run).Some?
                 && read.name == (if now - LastOpening(g, run).value < g.cooldown then Open else HalfOpen)
                 && read == m.(name := read.name)
  {
    RunKeepsInv(g, run, clock);
    OpenedWhen(g, run);
  }

  /** The outstanding probe's own report: a healthy one in time closes, any other
      opens for a whole new cooldown; the slot is free either way. */
  lemma ProbeReportDecides(m: Machine, outcome: Outcome, trips: bool, now: Time)
    requires m.name == HalfOpen && m.probe.Some?
    ensures Report(m, m.probe, outcome, trips, now) ==
              if now <= m.probe.value.deadline && (outcome == Success || outcome == ClientFault || outcome == Slow)
              then Machine(Closed, m.openedAt, None, m.issued) else Machine(Open, now, None, m.issued)
  {
  }

  /** The i-th event is a call that is let through. */
  ghost predicate AdmittedAt(g: Timing, run: seq<Event>, i: nat)
    requires i < |run|
  {
    run[i].Call? && Allow(g, After(g, run[..i]), run[i].now).1.Admitted?
  }

  /** Not closed at any point after the i-th event and before the j-th. */
  ghost predicate NeverClosed(g: Timing, run: seq<Event>, i: nat, j: nat)
    requires j <= |run|
  {
    forall k :: i < k <= j ==> After(g, run[..k]).name != Closed
  }

  lemma ProbeGoesOut(g: Timing, t: Track, now: Time)
    requires Allow(g, t.m, now).1.Admitted? && Next(g, t, Call(now)).m.name != Closed
    ensures Next(g, t, Call(now)).m.probe.Some?
  {
  }

  lemma ProbeComesBack(g: Timing, t: Track, e: Event, since: Time)
    requires t.m.name != Closed && Next(g, t, e).m.name != Closed && since <= e.now
    requires t.m.probe.Some? || t.m.openedAt >= since
    ensures Next(g, t, e).m.probe.Some? || Next(g, t, e).m.openedAt >= since
  {
  }

  /** An admitted probe is still out, or the breaker has opened since. */
  lemma {:induction false} ProbeStillOut(g: Timing, run: seq<Event>, clock: Time, i: nat, j: nat)
    requires ClockOrdered(run, clock) && i < j <= |run| && AdmittedAt(g, run, i) && NeverClosed(g, run, i, j)
    ensures After(g, run[..j]).probe.Some? || After(g, run[..j]).openedAt >= run[i].now
    decreases j
  {
    NextOne(g, run, j - 1);
    var before := NextAll(g, Start(), run[..j - 1]);
    if i < j - 1 {
      ProbeStillOut(g, run, clock, i, j - 1);
      ProbeComesBack(g, before, run[j - 1], run[i].now);
    } else {
      ProbeGoesOut(g, before, run[i].now);
    }
  }

  /** Any two admitted calls of a run with the breaker not closed in between are at
      least a cooldown apart. */
  lemma AdmissionsApart(g: Timing, run: seq<Event>, clock: Time, i: nat, j: nat)
    requires ClockOrdered(run, clock) && i < j < |run| && AdmittedAt(g, run, i) && AdmittedAt(g, run, j)
    requires NeverClosed(g, run, i, j)
    ensures run[j].now - run[i].now >= g.cooldown
  {
    ProbeStillOut(g, run, clock, i, j);
    RunKeepsInv(g, run[..j], clock);
  }

  // ---------------------------------------------------------------------
  // The machine in place
  // ---------------------------------------------------------------------

  /** The permission of an admitted call. */
  class Permission {
    const grant: Option<Grant>
    var reported: bool

    constructor (grant: Option<Grant>)
      ensures this.grant == grant && !reported
    {
      this.grant := grant;
      reported := false;
    }
  }

  class BreakerMachine {
    const timing: Timing
    var name: Position
    var openedAt: Time
    var probe: Option<Grant>
    var issued: nat

    ghost function Value(): Machine
      reads this
    {
      Machine(name, openedAt, probe, issued)
    }

    constructor (timing: Timing)
      ensures Value() == Start().m && this.timing == timing
    {
      this.timing := timing;
      name, openedAt, probe, issued := Closed, 0, None, 0;
    }

    method Move(to: Position, now: Time)
      modifies this
      ensures Value() == Enter(old(Value()), to, now)
    {
      if name == to {
        return;
      }
      name := to;
      if to == Open {
        openedAt := now;
      }
      if to == Closed {
        probe := None;
      }
    }

    method Abandon(now: Time)
      modifies this
      ensures Value() == Reclaim(old(Value()), now)
    {
      probe := None;
      Move(Open, now);
      openedAt := now;
    }

    method Take(now: Time) returns (verdict: Verdict)
      modifies this
      ensures (Value(), verdict) == Grab(timing, old(Value()), now)
    {
      var grant := Grant(issued, now + timing.probeTimeout);
      probe := Some(grant);
      issued := issued + 1;
      verdict := Admitted(Some(grant));
    }

    method Admit(now: Time) returns (verdict: Verdict)
      modifies this
      ensures (Value(), verdict) == Allow(timing, old(Value()), now)
    {
      match name {
        case Closed =>
          return Admitted(None);
        case Open =>
          if now - openedAt < timing.cooldown {
            return Denied;
          }
          Move(HalfOpen, now);
          verdict := Take(now);
        case HalfOpen =>
          if probe.Some? {
            if now > probe.value.deadline {
              Abandon(now);
            }
            return Denied;
          }
          verdict := Take(now);
      }
    }

    method Look(now: Time) returns (position: Position)
      modifies this
      ensures Value() == Observe(timing, old(Value()), now) && position == name
    {
      match name {
        case Open =>
          if now - openedAt >= timing.cooldown {
            Move(HalfOpen, now);
            return HalfOpen;
          }
        case HalfOpen =>
          if probe.Some? && now > probe.value.deadline {
            Abandon(now);
          }
        case Closed =>
      }
      position := name;
    }
  }
}
