/** Keeping an upstream in rotation: the operator's and the system's disable
    channels, the hook that retires credentials and gives up on the upstream with
    the last one, and the callback that revives the ring. The switch has a lock;
    the ring's flags are single atomic cells; nothing spans both. */
module Rotation {

  type Id = string
  type Tid = nat

  // ---------------------------------------------------------------------
  // The switch
  // ---------------------------------------------------------------------

  datatype Channels = Channels(manual: set<Id>, auto: set<Id>)

  datatype Answer = Done | AlreadyOut | Unknown

  predicate Enabled(c: Channels, id: Id) { id !in c.manual && id !in c.auto }

  function OperatorSet(c: Channels, id: Id, on: bool): Channels {
    if on then Channels(c.manual - {id}, c.auto - {id}) else Channels(c.manual + {id}, c.auto - {id})
  }

  function AutoDisabled(c: Channels, id: Id): Channels {
    if id in c.manual then c else Channels(c.manual, c.auto + {id})
  }

  function AutoEnabled(c: Channels, id: Id): Channels { Channels(c.manual, c.auto - {id}) }

  ghost predicate Apart(c: Channels) { c.manual !! c.auto }

  class Switch {
    const known: set<Id>
    var disabled: set<Id>
    var autoDisabled: map<Id, string>

    ghost function Value(): Channels
      reads this
    {
      Channels(disabled, autoDisabled.Keys)
    }

    constructor (known: set<Id>)
      ensures Value() == Channels({}, {}) && this.known == known
    {
      this.known, disabled, autoDisabled := known, {}, map[];
    }

    /** Reports whether the enable callback is owed. */
    method SetUpstream(id: Id, on: bool) returns (answer: Answer, callback: bool)
      modifies this
      ensures answer == (if id in known then Done else Unknown) && callback == (id in known && on)
      ensures Value() == if id in known then OperatorSet(old(Value()), id, on) else old(Value())
      ensures autoDisabled == if id in known then old(autoDisabled) - {id} else old(autoDisabled)
    {
      if id !in known {
        return Unknown, false;
      }
      if on {
        disabled := disabled - {id};
        autoDisabled := autoDisabled - {id};
      } else {
        autoDisabled := autoDisabled - {id};
        disabled := disabled + {id};
      }
      assert autoDisabled.Keys == old(autoDisabled.Keys) - {id};
      return Done, on;
    }

    /** The first report records its reason; later ones change nothing, and a
        manual disable subsumes it. */
    method AutoDisableUpstream(id: Id, reason: string) returns (answer: Answer)
      modifies this
      ensures answer == if id !in known then Unknown
                        else if Enabled(old(Value()), id) then Done else AlreadyOut
      ensures Value() == if id in known then AutoDisabled(old(Value()), id) else old(Value())
      ensures autoDisabled == if answer == Done then old(autoDisabled)[id := reason] else old(autoDisabled)
    {
      if id !in known {
        return Unknown;
      }
      if id in disabled {
        return AlreadyOut;
      }
      if id in autoDisabled {
        assert autoDisabled.Keys + {id} == autoDisabled.Keys;
        return AlreadyOut;
      }
      autoDisabled := autoDisabled[id := reason];
      assert autoDisabled.Keys == old(autoDisabled.Keys) + {id};
      return Done;
    }

    method AutoEnableUpstream(id: Id) returns (answer: Answer, callback: bool)
      modifies this
      ensures answer == (if id in known then Done else Unknown) && callback == (id in known)
      ensures Value() == if id in known then AutoEnabled(old(Value()), id) else old(Value())
    {
      if id !in known {
        return Unknown, false;
      }
      autoDisabled := autoDisabled - {id};
      assert autoDisabled.Keys == old(autoDisabled.Keys) - {id};
      return Done, true;
    }

    method UpstreamEnabled(id: Id) returns (on: bool)
      ensures on == Enabled(Value(), id)
    {
      on := id !in disabled && id !in autoDisabled;
    }
  }

  // ---------------------------------------------------------------------
  // The interleaving
  // ---------------------------------------------------------------------

  /** A fatal report running through the hook, one shared cell at a time. */
  datatype Hook =
    | Reported(id: Id, index: int)
    | Scanning(id: Id, next: nat, alive: nat)
    | GivingUp(id: Id)

  /** An enable callback clearing the flags in order. */
  datatype Revival = Revival(id: Id, next: nat)

  datatype State = State(
    known: set<Id>,
    channels: Channels,
    rings: map<Id, seq<bool>>,
    hooks: map<Tid, Hook>,
    revivals: map<Tid, Revival>)

  datatype Label =
    | Report(t: Tid, id: Id, index: int)
    | Retire(t: Tid)
    | Look(t: Tid)
    | Verdict(t: Tid)
    | GiveUp(t: Tid)
    | OperatorOff(id: Id)
    | OperatorOn(t: Tid, id: Id)
    | Recover(t: Tid, id: Id)
    | ReviveOne(t: Tid)
    | ReviveDone(t: Tid)

  ghost predicate CanStep(s: State, l: Label) {
    match l
    case Report(t, id, _) => t !in s.hooks && id in s.known
    case Retire(t) => t in s.hooks && s.hooks[t].Reported? && s.hooks[t].id in s.rings && s.hooks[t].index >= 0
    case Look(t) =>
      && t in s.hooks && s.hooks[t].Scanning? && s.hooks[t].id in s.rings && s.hooks[t].next < |s.rings[s.hooks[t].id]|
    case Verdict(t) =>
      && t in s.hooks
      && ((s.hooks[t].Reported? && (s.hooks[t].id !in s.rings || s.hooks[t].index < 0))
          || (s.hooks[t].Scanning? && s.hooks[t].id in s.rings && s.hooks[t].next >= |s.rings[s.hooks[t].id]|))
    case GiveUp(t) => t in s.hooks && s.hooks[t].GivingUp?
    case OperatorOff(id) => id in s.known
    case OperatorOn(t, id) => t !in s.revivals && id in s.known
    case Recover(t, id) => t !in s.revivals && id in s.known
    case ReviveOne(t) =>
      && t in s.revivals && s.revivals[t].id in s.rings && s.revivals[t].next < |s.rings[s.revivals[t].id]|
    case ReviveDone(t) =>
      && t in s.revivals
      && (s.revivals[t].id !in s.rings || s.revivals[t].next >= |s.rings[s.revivals[t].id]|)
  }

  function SetFlag(ring: seq<bool>, i: int, dead: bool): seq<bool> {
    if 0 <= i < |ring| then ring[i := dead] else ring
  }

  ghost function Next(s: State, l: Label): State
    requires CanStep(s, l)
  {
    match l
    case Report(t, id, index) => s.(hooks := s.hooks[t := Reported(id, index)])
    case Retire(t) =>
      var h := s.hooks[t];
      s.(rings := s.rings[h.id := SetFlag(s.rings[h.id], h.index, true)], hooks := s.hooks[t := Scanning(h.id, 0, 0)])
    case Look(t) =>
      var h := s.hooks[t];
      s.(hooks := s.hooks[t := Scanning(h.id, h.next + 1, h.alive + if s.rings[h.id][h.next] then 0 else 1)])
    case Verdict(t) =>
      var h := s.hooks[t];
      s.(hooks := if h.Scanning? && h.alive > 0 then s.hooks - {t} else s.hooks[t := GivingUp(h.id)])
    case GiveUp(t) =>
      s.(channels := AutoDisabled(s.channels, s.hooks[t].id), hooks := s.hooks - {t})
    case OperatorOff(id) => s.(channels := OperatorSet(s.channels, id, false))
    case OperatorOn(t, id) =>
      s.(channels := OperatorSet(s.channels, id, true), revivals := s.revivals[t := Revival(id, 0)])
    case Recover(t, id) =>
      s.(channels := AutoEnabled(s.channels, id), revivals := s.revivals[t := Revival(id, 0)])
    case ReviveOne(t) =>
      var r := s.revivals[t];
      s.(rings := s.rings[r.id := SetFlag(s.rings[r.id], r.next, false)], revivals := s.revivals[t := Revival(r.id, r.next + 1)])
    case ReviveDone(t) => s.(revivals := s.revivals - {t})
  }

  // ---------------------------------------------------------------------
  // The invariant
  // ---------------------------------------------------------------------

  ghost predicate AllDead(ring: seq<bool>) {
    forall i :: 0 <= i < |ring| ==> ring[i]
  }

  /** A hook that has seen no credential alive since its retirement and is going
      to take the upstream out. */
  predicate WillGiveUp(h: Hook, id: Id) {
    h.id == id && (h.GivingUp? || (h.Scanning? && h.alive == 0))
  }

  predicate WillRevive(r: Revival, id: Id, n: nat) { r.id == id && r.next < n }

  /** An upstream still in rotation over an all-dead ring is about to leave it or
      about to get a credential back. */
  ghost predicate Covered(s: State, id: Id)
    requires id in s.rings
  {
    |s.rings[id]| > 0 && AllDead(s.rings[id]) && Enabled(s.channels, id) ==>
      || (exists t :: t in s.hooks && WillGiveUp(s.hooks[t], id))
      || (exists t :: t in s.revivals && WillRevive(s.revivals[t], id, |s.rings[id]|))
  }

  ghost predicate Inv(s: State) {
    && Apart(s.channels)
    && s.rings.Keys <= s.known
    && (forall t :: t in s.hooks ==> s.hooks[t].id in s.known)
    && (forall id :: id in s.rings ==> Covered(s, id))
  }

  ghost predicate Initial(s: State) {
    && s.channels == Channels({}, {}) && s.hooks == map[] && s.revivals == map[] && s.rings.Keys <= s.known
    && forall id, i :: id in s.rings && 0 <= i < |s.rings[id]| ==> !s.rings[id][i]
  }

  /** A step keeps a ring's promise unless it is the promise's own. */
  lemma StepKeepsCovered(s: State, l: Label, id: Id)
    requires CanStep(s, l) && id in s.rings && Covered(s, id)
    ensures id in Next(s, l).rings && Covered(Next(s, l), id)
  {
    var s' := Next(s, l);
    if l.ReviveOne? && s.revivals[l.t].id == id {
      assert !s'.rings[id][s.revivals[l.t].next];
    } else if |s'.rings[id]| > 0 && AllDead(s'.rings[id]) && Enabled(s'.channels, id) {
      match l
      case Retire(t) =>
        if s.hooks[t].id == id {
          assert WillGiveUp(s'.hooks[t], id);
        } else {
          KeepsWitness(s, s', id);
        }
      case OperatorOn(t, on) =>
        if on == id {
          assert WillRevive(s'.revivals[t], id, |s'.rings[id]|);
        } else {
          KeepsWitness(s, s', id);
        }
      case Recover(t, on) =>
        if on == id {
          assert WillRevive(s'.revivals[t], id, |s'.rings[id]|);
        } else {
          KeepsWitness(s, s', id);
        }
      case _ => KeepsWitness(s, s', id);
    }
  }

  lemma KeepsWitness(s: State, s': State, id: Id)
    requires id in s.rings && id in s'.rings && Covered(s, id)
    requires |s.rings[id]| > 0 && AllDead(s.rings[id]) && Enabled(s.channels, id)
    requires s'.rings[id] == s.rings[id]
    requires forall t :: t in s.hooks && WillGiveUp(s.hooks[t], id) ==> t in s'.hooks && WillGiveUp(s'.hooks[t], id)
    requires forall t :: t in s.revivals && WillRevive(s.revivals[t], id, |s.rings[id]|) ==>
               t in s'.revivals && WillRevive(s'.revivals[t], id, |s.rings[id]|)
    ensures Covered(s', id)
  {
  }

  lemma NextKeepsInv(s: State, l: Label)
    requires Inv(s) && CanStep(s, l)
    ensures Inv(Next(s, l)) && Next(s, l).rings.Keys == s.rings.Keys && Next(s, l).known == s.known
  {
    var s' := Next(s, l);
    assert s'.rings.Keys == s.rings.Keys;
    forall id | id in s'.rings ensures Covered(s', id) {
      assert Covered(s, id);
      StepKeepsCovered(s, l, id);
    }
  }

  // ---------------------------------------------------------------------
  // Every interleaving
  // ---------------------------------------------------------------------

  ghost predicate Run(states: seq<State>, labels: seq<Label>) {
    && |states| == |labels| + 1 && Initial(states[0])
    && forall i :: 0 <= i < |labels| ==> CanStep(states[i], labels[i]) && states[i + 1] == Next(states[i], labels[i])
  }

  lemma InitialIsCovered(s: State)
    requires Initial(s)
    ensures Inv(s)
  {
    forall id | id in s.rings ensures Covered(s, id) {
      if |s.rings[id]| > 0 {
        assert !s.rings[id][0];
      }
    }
  }

  lemma {:induction false} RunKeepsInv(states: seq<State>, labels: seq<Label>, i: nat)
    requires Run(states, labels) && i < |states|
    ensures Inv(states[i])
  {
    if i == 0 {
      InitialIsCovered(states[0]);
    } else {
      RunKeepsInv(states, labels, i - 1);
      NextKeepsInv(states[i - 1], labels[i - 1]);
    }
  }

  /** For every interleaving of reports, retirements, liveness scans, operator
      switches, recoveries and per-flag revivals: once nothing is in flight for an
      upstream, whatever goes on for others, it has a live credential if it is in
      rotation with a non-empty ring. */
  lemma QuietRotationIsLive(states: seq<State>, labels: seq<Label>, i: nat, id: Id)
    requires Run(states, labels) && i < |states| && id in states[i].rings
    requires forall t :: t in states[i].hooks ==> states[i].hooks[t].id != id
    requires forall t :: t in states[i].revivals ==> states[i].revivals[t].id != id
    requires Enabled(states[i].channels, id) && |states[i].rings[id]| > 0
    ensures exists k :: 0 <= k < |states[i].rings[id]| && !states[i].rings[id][k]
  {
    RunKeepsInv(states, labels, i);
    assert Covered(states[i], id);
  }

  // ---------------------------------------------------------------------
  // What a hook has seen
  // ---------------------------------------------------------------------

  predicate FlagAt(s: State, id: Id, k: nat) { id in s.rings && k < |s.rings[id]| && s.rings[id][k] }

  /** The flags a hook has read since it retired its credential, each as it was
      then. */
  ghost function Seen(states: seq<State>, labels: seq<Label>, i: nat, t: Tid): seq<bool>
    requires i <= |labels| < |states|
  {
    if i == 0 then []
    else
      var before, s, l := Seen(states, labels, i - 1, t), states[i - 1], labels[i - 1];
      if l == Retire(t) then []
      else if l == Look(t) && t in s.hooks then before + [FlagAt(s, s.hooks[t].id, |before|)]
      else before
  }

  lemma {:induction false} ScanIsSeen(states: seq<State>, labels: seq<Label>, i: nat, t: Tid)
    requires Run(states, labels) && i < |states| && t in states[i].hooks && states[i].hooks[t].Scanning?
    ensures var h, seen := states[i].hooks[t], Seen(states, labels, i, t);
            && h.id in states[i].rings && h.next == |seen| <= |states[i].rings[h.id]|
            && (h.alive == 0 <==> forall k :: 0 <= k < |seen| ==> seen[k])
  {
    var s, l := states[i - 1], labels[i - 1];
    if l != Retire(t) {
      ScanIsSeen(states, labels, i - 1, t);
      assert s.rings.Keys == states[i].rings.Keys;
      if l == Look(t) {
        var before := Seen(states, labels, i - 1, t);
        var seen := before + [FlagAt(s, s.hooks[t].id, |before|)];
        assert seen == Seen(states, labels, i, t) && seen[|before|] == FlagAt(s, s.hooks[t].id, |before|);
        assert forall k :: 0 <= k < |before| ==> seen[k] == before[k];
      }
    }
  }

  /** A hook decides by every flag of the ring, each read once since its own
      retirement: it gives up exactly when it found none alive, or had no
      credential to retire. */
  lemma HookDecidesBy(states: seq<State>, labels: seq<Label>, i: nat, t: Tid)
    requires Run(states, labels) && i < |labels| && labels[i] == Verdict(t)
    ensures var h, seen := states[i].hooks[t], Seen(states, labels, i, t);
            && (h.Scanning? ==> h.id in states[i].rings && |seen| == |states[i].rings[h.id]|)
            && (if h.Scanning? && exists k :: 0 <= k < |seen| && !seen[k] then t !in states[i + 1].hooks
                else t in states[i + 1].hooks && states[i + 1].hooks[t] == GivingUp(h.id))
  {
    if states[i].hooks[t].Scanning? {
      ScanIsSeen(states, labels, i, t);
    }
  }

  /** The step, of the callback now pending, that cleared a flag. */
  ghost predicate ClearedAt(states: seq<State>, labels: seq<Label>, j: nat, i: nat, t: Tid, id: Id, k: nat)
    requires j < i < |states| == |labels| + 1
  {
    && labels[j] == ReviveOne(t) && t in states[j].revivals && states[j].revivals[t] == Revival(id, k)
    && id in states[j + 1].rings && k < |states[j + 1].rings[id]| && !states[j + 1].rings[id][k]
    && forall m :: j <= m <= i ==> t in states[m].revivals
  }

  lemma {:induction false} CallbackClears(states: seq<State>, labels: seq<Label>, i: nat, t: Tid, k: nat)
    requires Run(states, labels) && i < |states| && t in states[i].revivals && k < states[i].revivals[t].next
    ensures exists j :: 0 <= j < i && ClearedAt(states, labels, j, i, t, states[i].revivals[t].id, k)
  {
    var s, l, r := states[i - 1], labels[i - 1], states[i].revivals[t];
    assert t in s.revivals && s.revivals[t].id == r.id;
    if k < s.revivals[t].next {
      CallbackClears(states, labels, i - 1, t, k);
      var j :| 0 <= j < i - 1 && ClearedAt(states, labels, j, i - 1, t, r.id, k);
      assert ClearedAt(states, labels, j, i, t, r.id, k);
    } else {
      assert l == ReviveOne(t) && s.revivals[t] == Revival(r.id, k);
      assert ClearedAt(states, labels, i - 1, i, t, r.id, k);
    }
  }

  /** A callback that ends has cleared every flag of its ring, each after it
      began. */
  lemma CallbackClearsEveryFlag(states: seq<State>, labels: seq<Label>, i: nat, t: Tid, k: nat)
    requires Run(states, labels) && i < |labels| && labels[i] == ReviveDone(t)
    requires var id := states[i].revivals[t].id; id in states[i].rings && k < |states[i].rings[id]|
    ensures exists j :: 0 <= j < i && ClearedAt(states, labels, j, i, t, states[i].revivals[t].id, k)
  {
    CallbackClears(states, labels, i, t, k);
  }

  function ToInt(b: bool): nat { if b then 1 else 0 }

  /** Nothing in flight is ever stuck or torn: exactly one step of a pending hook is
      possible, and exactly one of a pending callback. */
  lemma OneStepAhead(states: seq<State>, labels: seq<Label>, i: nat, t: Tid)
    requires Run(states, labels) && i < |states|
    ensures var s := states[i];
            ToInt(CanStep(s, Retire(t))) + ToInt(CanStep(s, Look(t))) + ToInt(CanStep(s, Verdict(t))) + ToInt(CanStep(s, GiveUp(t)))
            == ToInt(t in s.hooks)
    ensures var s := states[i];
            ToInt(CanStep(s, ReviveOne(t))) + ToInt(CanStep(s, ReviveDone(t))) == ToInt(t in s.revivals)
  {
    if t in states[i].hooks && states[i].hooks[t].Scanning? {
      ScanIsSeen(states, labels, i, t);
    }
  }

  /** The two channels never hold the same upstream. */
  lemma ChannelsStayApart(states: seq<State>, labels: seq<Label>, i: nat)
    requires Run(states, labels) && i < |states|
    ensures states[i].channels.manual !! states[i].channels.auto
  {
    RunKeepsInv(states, labels, i);
  }

  /** Exactly what moves the channels: an operator's switch both, a hook that gives
      up the automatic one unless an operator holds the upstream off, a recovery the
      automatic one alone. */
  lemma ChannelsMoveIff(s: State, l: Label, id: Id)
    requires CanStep(s, l)
    ensures id in Next(s, l).channels.manual <==>
              || (l.OperatorOff? && l.id == id)
              || (id in s.channels.manual && !(l.OperatorOn? && l.id == id))
    ensures id in Next(s, l).channels.auto <==>
              || (l.GiveUp? && s.hooks[l.t].id == id && id !in s.channels.manual)
              || (id in s.channels.auto && !((l.OperatorOff? || l.OperatorOn? || l.Recover?) && l.id == id))
  {
  }

  /** Exactly what moves a credential's flag: a retirement of that credential sets
      it, a revival that has come to it clears it. */
  lemma FlagsMoveIff(s: State, l: Label, id: Id, i: nat)
    requires CanStep(s, l) && id in s.rings && i < |s.rings[id]|
    ensures id in Next(s, l).rings && |Next(s, l).rings[id]| == |s.rings[id]|
    ensures Next(s, l).rings[id][i] <==>
              || (l.Retire? && s.hooks[l.t].id == id && s.hooks[l.t].index == i)
              || (s.rings[id][i] && !(l.ReviveOne? && s.revivals[l.t].id == id && s.revivals[l.t].next == i))
  {
  }

  /** A manual disable lasts, through reports, recoveries and revivals, until an
      operator switches the upstream on. */
  lemma {:induction false} OnlyOperatorsLiftManual(states: seq<State>, labels: seq<Label>, i: nat, j: nat, id: Id)
    requires Run(states, labels) && i <= j < |states| && id in states[i].channels.manual
    ensures id in states[j].channels.manual || exists k :: i <= k < j && labels[k].OperatorOn? && labels[k].id == id
    decreases j
  {
    if i < j {
      OnlyOperatorsLiftManual(states, labels, i, j - 1, id);
      if id in states[j - 1].channels.manual && id !in states[j].channels.manual {
        assert labels[j - 1].OperatorOn? && labels[j - 1].id == id;
      }
    }
  }
}
