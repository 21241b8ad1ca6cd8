/** The fallback plan: candidate batches resolved only when the attempt loop runs
    past the ones before them, and looked up one attempt early. */
module FallbackPlan {

  type Model = string

  datatype Candidate = Candidate(id: string, seat: nat)

  datatype Batch = Batch(model: Model, candidates: seq<Candidate>)

  datatype Target = Target(candidate: Candidate, model: Model)

  // ---------------------------------------------------------------------
  // The whole plan at once
  // ---------------------------------------------------------------------

  /** What resolving the chain from position i on yields: answers(i) is whatever
      the resolver says when asked for the i-th name, empty for a refusal. A name
      already tried is not asked for. */
  function Rest(chain: seq<Model>, answers: nat -> seq<Candidate>, i: nat, tried: set<Model>): seq<Batch>
    requires i <= |chain|
    decreases |chain| - i
  {
    if i == |chain| then []
    else if chain[i] in tried then Rest(chain, answers, i + 1, tried)
    else if answers(i) == [] then Rest(chain, answers, i + 1, tried + {chain[i]})
    else [Batch(chain[i], answers(i))] + Rest(chain, answers, i + 1, tried + {chain[i]})
  }

  function Targets(b: Batch): seq<Target> {
    seq(|b.candidates|, i requires 0 <= i < |b.candidates| => Target(b.candidates[i], b.model))
  }

  function Flat(batches: seq<Batch>): seq<Target> {
    if |batches| == 0 then []
    else Flat(batches[..|batches| - 1]) + Targets(batches[|batches| - 1])
  }

  /** Reference: attempt n is served by the n-th of all targets in order, then by
      the last one forever. */
  function Served(all: seq<Target>, n: nat): Target
    requires n >= 1 && |all| > 0
  {
    if n <= |all| then all[n - 1] else all[|all| - 1]
  }

  ghost predicate DistinctModels(plan: seq<Batch>) {
    forall i, j :: 0 <= i < j < |plan| ==> plan[i].model != plan[j].model
  }

  lemma {:induction false} RestEntersNoneTwice(chain: seq<Model>, answers: nat -> seq<Candidate>, i: nat, tried: set<Model>)
    requires i <= |chain|
    ensures var rest := Rest(chain, answers, i, tried);
            && DistinctModels(rest)
            && (forall k :: 0 <= k < |rest| ==> rest[k].model !in tried && rest[k].model in chain[i..] && |rest[k].candidates| > 0)
    decreases |chain| - i
  {
    if i < |chain| {
      var later := if chain[i] in tried then tried else tried + {chain[i]};
      RestEntersNoneTwice(chain, answers, i + 1, later);
      var tail := Rest(chain, answers, i + 1, later);
      assert Rest(chain, answers, i, tried) ==
             if chain[i] in tried || |answers(i)| == 0 then tail else [Batch(chain[i], answers(i))] + tail;
      assert forall m :: m in chain[i + 1..] ==> m in chain[i..];
    }
  }

  /** A fallback name contributes its first mention's answer, and nothing when
      that answer was a refusal: it is never asked again. */
  lemma {:induction false} FirstMentionDecides(chain: seq<Model>, answers: nat -> seq<Candidate>, i: nat, tried: set<Model>, j: nat)
    requires i <= j < |chain| && chain[j] !in tried && chain[j] !in chain[i..j]
    ensures var rest := Rest(chain, answers, i, tried);
            && (answers(j) != [] ==> Batch(chain[j], answers(j)) in rest)
            && (answers(j) == [] ==> forall k :: 0 <= k < |rest| ==> rest[k].model != chain[j])
    decreases j - i
  {
    if i == j {
      RestEntersNoneTwice(chain, answers, i + 1, tried + {chain[j]});
    } else {
      assert chain[i..j][0] == chain[i];
      assert chain[i..j] == [chain[i]] + chain[i + 1..j];
      var later := if chain[i] in tried then tried else tried + {chain[i]};
      FirstMentionDecides(chain, answers, i + 1, later, j);
      var tail := Rest(chain, answers, i + 1, later);
      assert Rest(chain, answers, i, tried) ==
             if chain[i] in tried || answers(i) == [] then tail else [Batch(chain[i], answers(i))] + tail;
    }
  }

  lemma Regroup<T>(a: seq<T>, b: seq<T>, c: seq<T>)
    ensures a + (b + c) == (a + b) + c
  {
  }

  lemma SplitLast<T>(s: seq<T>)
    requires s != []
    ensures s == s[..|s| - 1] + [s[|s| - 1]]
  {
  }

  lemma {:induction false} FlatJoins(a: seq<Batch>, b: seq<Batch>)
    ensures Flat(a + b) == Flat(a) + Flat(b)
    decreases |b|
  {
    if |b| == 0 {
      assert a + b == a;
    } else {
      var init, last := b[..|b| - 1], b[|b| - 1];
      FlatJoins(a, init);
      FlatAppends(a + init, last);
      SplitLast(b);
      Regroup(a, init, [last]);
      Regroup(Flat(a), Flat(init), Targets(last));
    }
  }

  lemma FlatAppends(a: seq<Batch>, b: Batch)
    ensures Flat(a + [b]) == Flat(a) + Targets(b)
  {
    assert (a + [b])[..|a|] == a;
  }

  /** The attempt the last batch of a walk begins at. */
  ghost function StartOfLast(batches: seq<Batch>): nat
    requires |batches| > 0
  {
    1 + |Flat(batches[..|batches| - 1])|
  }

  /** Every batch so far is a tried model's and serves someone; the last began
      where the ones before it ran out. */
  ghost predicate Walked(batches: seq<Batch>, start: nat, attempted: set<Model>) {
    && |batches| > 0
    && (forall k :: 0 <= k < |batches| ==> |batches[k].candidates| > 0 && batches[k].model in attempted)
    && start == StartOfLast(batches)
  }

  lemma WalkOn(batches: seq<Batch>, start: nat, attempted: set<Model>, next: Batch, more: set<Model>)
    requires Walked(batches, start, attempted) && attempted <= more && next.model in more && |next.candidates| > 0
    ensures Walked(batches + [next], start + |batches[|batches| - 1].candidates|, more)
  {
    assert (batches + [next])[..|batches|] == batches;
  }

  lemma Middle(before: seq<Target>, mid: seq<Target>, after: seq<Target>, i: nat)
    requires i < |mid|
    ensures (before + mid + after)[|before| + i] == mid[i]
  {
  }

  lemma InsideLast(batches: seq<Batch>, ahead: seq<Batch>, n: nat)
    requires |batches| > 0 && StartOfLast(batches) <= n < StartOfLast(batches) + |batches[|batches| - 1].candidates|
    ensures |Flat(batches + ahead)| > 0
    ensures var b := batches[|batches| - 1];
            Served(Flat(batches + ahead), n) == Target(b.candidates[n - StartOfLast(batches)], b.model)
  {
    FlatJoins(batches, ahead);
    var before, mid := Flat(batches[..|batches| - 1]), Targets(batches[|batches| - 1]);
    assert Flat(batches) == before + mid;
    Middle(before, mid, Flat(ahead), n - 1 - |before|);
  }

  /** The job's own candidates, then whatever its chain resolves to. */
  function PlanOf(model: Model, candidates: seq<Candidate>, chain: seq<Model>, resolves: bool, answers: nat -> seq<Candidate>): seq<Batch> {
    [Batch(model, candidates)] + if resolves then Rest(chain, answers, 0, {model}) else []
  }

  lemma PlanServes(model: Model, candidates: seq<Candidate>, chain: seq<Model>, resolves: bool, answers: nat -> seq<Candidate>)
    requires |candidates| > 0
    ensures |Flat(PlanOf(model, candidates, chain, resolves, answers))| > 0
  {
    var first := [Batch(model, candidates)];
    FlatAppends([], first[0]);
    FlatJoins(first, if resolves then Rest(chain, answers, 0, {model}) else []);
    assert [] + first == first;
  }

  /** A name of the chain that serves: not the job's own model, not mentioned
      before, and resolved when asked for. */
  predicate Serves(model: Model, chain: seq<Model>, answers: nat -> seq<Candidate>, j: nat)
    requires j < |chain|
  {
    chain[j] != model && chain[j] !in chain[..j] && answers(j) != []
  }

  /** The batches of those names from position i on, in the chain's order. */
  function Serving(model: Model, chain: seq<Model>, answers: nat -> seq<Candidate>, i: nat): seq<Batch>
    requires i <= |chain|
    decreases |chain| - i
  {
    if i == |chain| then []
    else if Serves(model, chain, answers, i) then [Batch(chain[i], answers(i))] + Serving(model, chain, answers, i + 1)
    else Serving(model, chain, answers, i + 1)
  }

  function Mentioned(model: Model, chain: seq<Model>, i: nat): set<Model>
    requires i <= |chain|
  {
    {model} + set j | 0 <= j < i :: chain[j]
  }

  lemma {:induction false} RestIsServing(model: Model, chain: seq<Model>, answers: nat -> seq<Candidate>, i: nat)
    requires i <= |chain|
    ensures Rest(chain, answers, i, Mentioned(model, chain, i)) == Serving(model, chain, answers, i)
    decreases |chain| - i
  {
    if i < |chain| {
      RestIsServing(model, chain, answers, i + 1);
      assert Mentioned(model, chain, i + 1) == Mentioned(model, chain, i) + {chain[i]};
      assert chain[i] in Mentioned(model, chain, i) ==> Mentioned(model, chain, i + 1) == Mentioned(model, chain, i);
      assert chain[i] in Mentioned(model, chain, i) <==> chain[i] == model || chain[i] in chain[..i];
    }
  }

  /** The whole plan: the job's own candidates, then, when there is a resolver, in
      the chain's order every other name's, at its first mention and if resolved. */
  lemma PlanIs(model: Model, candidates: seq<Candidate>, chain: seq<Model>, resolves: bool, answers: nat -> seq<Candidate>)
    ensures PlanOf(model, candidates, chain, resolves, answers) ==
              [Batch(model, candidates)] + if resolves then Serving(model, chain, answers, 0) else []
  {
    RestIsServing(model, chain, answers, 0);
    assert Mentioned(model, chain, 0) == {model};
  }

  /** How many candidates some batches hold together. */
  function Held(batches: seq<Batch>): nat {
    if |batches| == 0 then 0
    else Held(batches[..|batches| - 1]) + |batches[|batches| - 1].candidates|
  }

  lemma {:induction false} FlatSize(batches: seq<Batch>)
    ensures |Flat(batches)| == Held(batches)
    decreases |batches|
  {
    if |batches| > 0 {
      FlatSize(batches[..|batches| - 1]);
    }
  }

  /** A batch serves, candidate by candidate, the attempts that follow those of
      the batches before it. */
  lemma ServedInOrder(before: seq<Batch>, b: Batch, after: seq<Batch>, o: nat)
    requires o < |b.candidates|
    ensures |Flat(before + [b] + after)| >= Held(before) + |b.candidates|
    ensures Served(Flat(before + [b] + after), Held(before) + o + 1) == Target(b.candidates[o], b.model)
  {
    FlatSize(before);
    FlatAppends(before, b);
    FlatJoins(before + [b], after);
    Middle(Flat(before), Targets(b), Flat(after), o);
  }

  /** Past the end of the plan its last candidate serves. */
  lemma ServedPastTheEnd(before: seq<Batch>, b: Batch, n: nat)
    requires |b.candidates| > 0 && n > Held(before) + |b.candidates|
    ensures |Flat(before + [b])| > 0
    ensures Served(Flat(before + [b]), n) == Target(b.candidates[|b.candidates| - 1], b.model)
  {
    FlatSize(before);
    FlatAppends(before, b);
  }

  // ---------------------------------------------------------------------
  // The lazy walk
  // ---------------------------------------------------------------------

  class Walk {
    const chain: seq<Model>
    const resolves: bool
    const answers: nat -> seq<Candidate>
    var batches: seq<Batch>
    var batchIndex: nat
    var batchStart: nat
    var fallbackIndex: nat
    var attempted: set<Model>
    /** Every batch the walk will ever have. */
    ghost const plan: seq<Batch>
    /** Their targets in order. */
    ghost const all: seq<Target>

    ghost function Ahead(): seq<Batch>
      reads this
      requires fallbackIndex <= |chain|
    {
      if resolves then Rest(chain, answers, fallbackIndex, attempted) else []
    }

    ghost predicate Valid()
      reads this
    {
      && fallbackIndex <= |chain|
      && Walked(batches, batchStart, attempted) && batchIndex == |batches| - 1
      && plan == batches + Ahead() && all == Flat(plan) && |all| > 0
      && DistinctModels(plan)
    }

    /** The attempt is the one being walked or the one after it. */
    ghost predicate Ready(attempt: nat)
      reads this
      requires Valid()
    {
      attempt >= batchStart && (attempt <= batchStart + |batches[batchIndex].candidates| || Ahead() == [])
    }

    constructor (model: Model, candidates: seq<Candidate>, chain: seq<Model>, resolves: bool, answers: nat -> seq<Candidate>)
      requires |candidates| > 0
      ensures Valid() && Ready(1)
      ensures plan == PlanOf(model, candidates, chain, resolves, answers) && all == Flat(plan)
    {
      this.chain, this.resolves, this.answers := chain, resolves, answers;
      batches, batchIndex, batchStart := [Batch(model, candidates)], 0, 1;
      fallbackIndex, attempted := 0, {model};
      plan := PlanOf(model, candidates, chain, resolves, answers);
      all := Flat(PlanOf(model, candidates, chain, resolves, answers));
      RestEntersNoneTwice(chain, answers, 0, {model});
      PlanServes(model, candidates, chain, resolves, answers);
    }

    /** Past the current batch with nothing ahead: the reference answers the last
        candidate of the current batch. */
    lemma DrainedIsLast(attempt: nat)
      requires Valid() && Ahead() == [] && attempt >= batchStart + |batches[batchIndex].candidates|
      ensures var b := batches[batchIndex]; Served(all, attempt) == Target(b.candidates[|b.candidates| - 1], b.model)
    {
      assert plan == batches;
      assert batches[..batchIndex] + [batches[batchIndex]] == batches;
    }

    /** Inside the current batch the reference answers by offset. */
    lemma InsideIsOffset(attempt: nat)
      requires Valid() && batchStart <= attempt < batchStart + |batches[batchIndex].candidates|
      ensures var b := batches[batchIndex]; Served(all, attempt) == Target(b.candidates[attempt - batchStart], b.model)
    {
      InsideLast(batches, Ahead(), attempt);
    }

    /** So the current batch answers: by offset, or past its end with nothing ahead
        by its last candidate. */
    lemma CurrentAnswers(attempt: nat, offset: nat)
      requires Valid() && Ready(attempt)
      requires var n := |batches[batchIndex].candidates|;
               if attempt < batchStart + n then offset == attempt - batchStart else Ahead() == [] && offset == n - 1
      ensures var b := batches[batchIndex];
              offset < |b.candidates| && Served(all, attempt) == Target(b.candidates[offset], b.model)
      ensures Ready(attempt + 1)
    {
      if attempt < batchStart + |batches[batchIndex].candidates| {
        InsideIsOffset(attempt);
      } else {
        DrainedIsLast(attempt);
      }
    }

    /** Reads on in the chain to the next untried fallback that resolves. */
    method NextAnswer() returns (found: bool, next: Batch)
      requires fallbackIndex <= |chain| && resolves
      modifies this`fallbackIndex, this`attempted
      ensures fallbackIndex <= |chain| && old(attempted) <= attempted
      ensures found == (old(Ahead()) != [])
      ensures found ==> next.model in attempted && |next.candidates| > 0 && old(Ahead()) == [next] + Ahead()
      ensures !found ==> Ahead() == []
    {
      next := Batch("", []);
      while fallbackIndex < |chain|
        invariant fallbackIndex <= |chain| && old(attempted) <= attempted
        invariant Rest(chain, answers, fallbackIndex, attempted) == old(Ahead())
      {
        var model := chain[fallbackIndex];
        var asked := fallbackIndex;
        fallbackIndex := fallbackIndex + 1;
        if model in attempted {
          continue;
        }
        attempted := attempted + {model};
        var candidates := answers(asked);
        if |candidates| == 0 {
          continue;
        }
        return true, Batch(model, candidates);
      }
      found := false;
    }

    /** Makes the next fallback that resolves current, starting at the attempt. */
    method Advance(attempt: nat) returns (moved: bool)
      requires Valid() && attempt >= batchStart + |batches[batchIndex].candidates|
      requires attempt == batchStart + |batches[batchIndex].candidates| || Ahead() == []
      modifies this
      ensures Valid()
      ensures moved == (old(Ahead()) != [])
      ensures moved ==> batchStart == attempt && batches == old(batches) + [old(Ahead())[0]]
      ensures !moved ==> Ahead() == [] && batches == old(batches) && batchStart == old(batchStart)
    {
      if !resolves {
        return false;
      }
      var next: Batch;
      moved, next := NextAnswer();
      if moved {
        WalkOn(batches, batchStart, old(attempted), next, attempted);
        Regroup(batches, [next], Ahead());
        batches, batchIndex, batchStart := batches + [next], |batches|, attempt;
      }
    }

    /** The candidate and model of an attempt; asking one attempt early, or again,
        answers the same. */
    method TargetOf(attempt: nat) returns (t: Target)
      requires Valid() && Ready(attempt)
      modifies this
      ensures Valid() && Ready(attempt) && Ready(attempt + 1)
      ensures t == Served(all, attempt)
    {
      var offset := attempt - batchStart;
      while offset >= |batches[batchIndex].candidates|
        invariant Valid() && Ready(attempt) && offset == attempt - batchStart
        decreases |plan| - |batches|
      {
        var moved := Advance(attempt);
        if !moved {
          offset := |batches[batchIndex].candidates| - 1;
          break;
        }
        offset := attempt - batchStart;
      }
      CurrentAnswers(attempt, offset);
      var b := batches[batchIndex];
      t := Target(b.candidates[offset], b.model);
    }
  }
}
