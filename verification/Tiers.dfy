/** Layered limits: a tier template, user and key overrides, folded into the one
    snapshot requests are judged by. */
module Tiers {
  import opened Basics

  type Model = string

  datatype Tier = Tier(
    rpm: int, tpm: int, maxTokens: int, monthlyQuota: int, concurrency: int,
    allowed: seq<Model>, denied: seq<Model>, quotas: map<Model, int>)

  datatype Override = Override(
    rpm: Option<int>, tpm: Option<int>, maxTokens: Option<int>, monthlyQuota: Option<int>, concurrency: Option<int>,
    allowed: Option<seq<Model>>, denied: seq<Model>, quotas: map<Model, int>)

  const WILDCARD: string := "*"

  /** A list names the model or everything. */
  predicate Names(list: seq<Model>, model: Model) { WILDCARD in list || model in list }

  /** Denies win; otherwise the allow list decides, and an empty one admits
      nothing. */
  predicate Admits(t: Tier, model: Model) { !Names(t.denied, model) && Names(t.allowed, model) }

  method Scan(list: seq<Model>, model: Model) returns (found: bool)
    ensures found == Names(list, model)
  {
    var i := 0;
    while i < |list|
      invariant 0 <= i <= |list| && !Names(list[..i], model)
    {
      if list[i] == WILDCARD || list[i] == model {
        return true;
      }
      i := i + 1;
    }
    assert list[..|list|] == list;
    found := false;
  }

  method AllowsModel(t: Tier, model: Model) returns (allows: bool)
    ensures allows == Admits(t, model)
    ensures allows <==> WILDCARD !in t.denied && model !in t.denied && (WILDCARD in t.allowed || model in t.allowed)
  {
    var denied := Scan(t.denied, model);
    if denied {
      return false;
    }
    allows := Scan(t.allowed, model);
  }

  // ---------------------------------------------------------------------
  // Tightening an allow list
  // ---------------------------------------------------------------------

  /** The entries of a list that are in another, in order. */
  function Within(list: seq<Model>, other: set<Model>): seq<Model> {
    if |list| == 0 then []
    else
      var last := list[|list| - 1];
      Within(list[..|list| - 1], other) + if last in other then [last] else []
  }

  /** The first mentions in a list of entries outside another, in order. */
  function Outside(list: seq<Model>, other: set<Model>): seq<Model> {
    if |list| == 0 then []
    else
      var last, init := list[|list| - 1], list[..|list| - 1];
      Outside(init, other) + if last in other || last in init then [] else [last]
  }

  /** The parent's entries the child names, then what the child names under the
      parent's wildcard; a wildcard in the child leaves the parent as it is. */
  function Intersect(parent: seq<Model>, child: seq<Model>): seq<Model> {
    if WILDCARD in child then parent
    else Within(parent, Elements(child)) + if WILDCARD in parent then Outside(child, Elements(parent)) else []
  }

  lemma {:induction false} WithinHas(list: seq<Model>, other: set<Model>, m: Model)
    ensures m in Within(list, other) <==> m in list && m in other
  {
    if list != [] {
      WithinHas(list[..|list| - 1], other, m);
      assert list == list[..|list| - 1] + [list[|list| - 1]];
    }
  }

  lemma {:induction false} OutsideHas(list: seq<Model>, other: set<Model>, m: Model)
    ensures m in Outside(list, other) <==> m in list && m !in other
  {
    if list != [] {
      OutsideHas(list[..|list| - 1], other, m);
      assert list == list[..|list| - 1] + [list[|list| - 1]];
    }
  }

  /** The tightened list names exactly what both name, the wildcard included. */
  lemma IntersectNamesBoth(parent: seq<Model>, child: seq<Model>, m: Model)
    ensures Names(Intersect(parent, child), m) <==> Names(parent, m) && Names(child, m)
  {
    forall x ensures x in Within(parent, Elements(child)) <==> x in parent && x in child {
      WithinHas(parent, Elements(child), x);
    }
    forall x ensures x in Outside(child, Elements(parent)) <==> x in child && x !in parent {
      OutsideHas(child, Elements(parent), x);
    }
  }

  lemma {:induction false} WithinKeepsAll(list: seq<Model>, other: set<Model>)
    requires Elements(list) <= other
    ensures Within(list, other) == list
  {
    if |list| > 0 {
      var init, last := list[..|list| - 1], list[|list| - 1];
      assert list == init + [last];
      WithinKeepsAll(init, other);
    }
  }

  lemma {:induction false} OutsideKeepsAll(list: seq<Model>, other: set<Model>)
    requires Distinct(list) && Elements(list) !! other
    ensures Outside(list, other) == list
  {
    if |list| > 0 {
      var init, last := list[..|list| - 1], list[|list| - 1];
      assert list == init + [last];
      assert last in Elements(list);
      OutsideKeepsAll(init, other);
    }
  }

  lemma {:induction false} OutsideIsDistinct(list: seq<Model>, other: set<Model>)
    ensures Distinct(Outside(list, other))
  {
    if |list| > 0 {
      OutsideIsDistinct(list[..|list| - 1], other);
      OutsideHas(list[..|list| - 1], other, list[|list| - 1]);
    }
  }

  lemma {:induction false} WithinIsDistinct(list: seq<Model>, other: set<Model>)
    requires Distinct(list)
    ensures Distinct(Within(list, other))
  {
    if |list| > 0 {
      WithinIsDistinct(list[..|list| - 1], other);
      WithinHas(list[..|list| - 1], other, list[|list| - 1]);
    }
  }

  /** A list tightened by itself, or by one with the wildcard, is as it was; the
      bare wildcard yields to any list that names nothing twice; and no entry is
      ever doubled. */
  lemma TighteningKeepsOrder(parent: seq<Model>, child: seq<Model>)
    ensures Intersect(parent, parent) == parent
    ensures WILDCARD in child ==> Intersect(parent, child) == parent
    ensures Distinct(child) && WILDCARD !in child ==> Intersect([WILDCARD], child) == child
    ensures Distinct(parent) ==> Distinct(Intersect(parent, child))
  {
    if WILDCARD !in parent {
      WithinKeepsAll(parent, Elements(parent));
    }
    if WILDCARD !in child {
      if Distinct(child) {
        assert [WILDCARD] == [] + [WILDCARD] && Within([], Elements(child)) == [];
        OutsideKeepsAll(child, Elements([WILDCARD]));
      }
      if Distinct(parent) {
        WithinIsDistinct(parent, Elements(child));
        OutsideIsDistinct(child, Elements(parent));
        Apart(parent, child);
        assert Within(parent, Elements(child)) + [] == Within(parent, Elements(child));
      }
    }
  }

  /** What the parent keeps and what the child adds have nothing in common. */
  lemma Apart(parent: seq<Model>, child: seq<Model>)
    requires Distinct(Within(parent, Elements(child))) && Distinct(Outside(child, Elements(parent)))
    ensures Distinct(Within(parent, Elements(child)) + Outside(child, Elements(parent)))
  {
    var kept, added := Within(parent, Elements(child)), Outside(child, Elements(parent));
    forall i, j | 0 <= i < |kept| && 0 <= j < |added| ensures kept[i] != added[j] {
      WithinHas(parent, Elements(child), kept[i]);
      OutsideHas(child, Elements(parent), added[j]);
    }
  }

  method Members(list: seq<Model>) returns (members: set<Model>, wildcard: bool)
    ensures members == Elements(list) && wildcard == (WILDCARD in list)
  {
    members, wildcard := {}, false;
    var i := 0;
    while i < |list|
      invariant 0 <= i <= |list| && members == Elements(list[..i]) && wildcard == (WILDCARD in list[..i])
    {
      if list[i] == WILDCARD {
        wildcard := true;
      }
      members := members + {list[i]};
      i := i + 1;
    }
    assert list[..|list|] == list;
  }

  method KeepNamed(list: seq<Model>, other: set<Model>) returns (out: seq<Model>)
    ensures out == Within(list, other)
  {
    out := [];
    var i := 0;
    while i < |list|
      invariant 0 <= i <= |list| && out == Within(list[..i], other)
    {
      assert list[..i + 1][..i] == list[..i];
      if list[i] in other {
        out := out + [list[i]];
      }
      i := i + 1;
    }
    assert list[..|list|] == list;
  }

  method AddNew(list: seq<Model>, other: set<Model>) returns (out: seq<Model>)
    ensures out == Outside(list, other)
  {
    out := [];
    var done := other;
    var i := 0;
    while i < |list|
      invariant 0 <= i <= |list| && done == other + Elements(list[..i])
      invariant out == Outside(list[..i], other)
    {
      assert list[..i + 1][..i] == list[..i];
      assert list[i] in done <==> list[i] in other || list[i] in list[..i];
      if list[i] !in done {
        out := out + [list[i]];
        done := done + {list[i]};
      }
      i := i + 1;
    }
    assert list[..|list|] == list;
  }

  method IntersectLists(parent: seq<Model>, child: seq<Model>) returns (out: seq<Model>)
    ensures out == Intersect(parent, child)
  {
    if |child| == 0 {
      IntersectEmpty(parent);
      return [];
    }
    var childSet, childHas := Members(child);
    if childHas {
      return parent;
    }
    var parentSet, parentHas := Members(parent);
    out := KeepNamed(parent, childSet);
    if parentHas {
      var added := AddNew(child, parentSet);
      out := out + added;
    }
  }

  lemma {:induction false} IntersectEmpty(parent: seq<Model>)
    ensures Intersect(parent, []) == []
  {
    assert Outside([], Elements(parent)) == [];
    WithinEmpty(parent);
  }

  lemma {:induction false} WithinEmpty(list: seq<Model>)
    ensures Within(list, Elements([])) == []
  {
    if list != [] {
      WithinEmpty(list[..|list| - 1]);
    }
  }

  // ---------------------------------------------------------------------
  // Folding the layers
  // ---------------------------------------------------------------------

  function Or(own: Option<int>, inherited: int): int { if own.Some? then own.value else inherited }

  function Layer(t: Tier, o: Override): Tier {
    Tier(Or(o.rpm, t.rpm), Or(o.tpm, t.tpm), Or(o.maxTokens, t.maxTokens), Or(o.monthlyQuota, t.monthlyQuota),
         Or(o.concurrency, t.concurrency),
         if o.allowed.Some? then Intersect(t.allowed, o.allowed.value) else t.allowed,
         t.denied + o.denied, t.quotas + o.quotas)
  }

  function Merged(base: Tier, overrides: seq<Override>): Tier {
    if |overrides| == 0 then base
    else Layer(Merged(base, overrides[..|overrides| - 1]), overrides[|overrides| - 1])
  }

  method MergeTier(base: Tier, overrides: seq<Override>) returns (merged: Tier)
    ensures merged == Merged(base, overrides)
  {
    var rpm, tpm, maxTokens := base.rpm, base.tpm, base.maxTokens;
    var monthlyQuota, concurrency := base.monthlyQuota, base.concurrency;
    var allowed, denied, quotas := base.allowed, base.denied, base.quotas;
    var i := 0;
    while i < |overrides|
      invariant 0 <= i <= |overrides|
      invariant Tier(rpm, tpm, maxTokens, monthlyQuota, concurrency, allowed, denied, quotas) == Merged(base, overrides[..i])
    {
      var o := overrides[i];
      assert overrides[..i + 1][..i] == overrides[..i];
      if o.rpm.Some? { rpm := o.rpm.value; }
      if o.tpm.Some? { tpm := o.tpm.value; }
      if o.maxTokens.Some? { maxTokens := o.maxTokens.value; }
      if o.monthlyQuota.Some? { monthlyQuota := o.monthlyQuota.value; }
      if o.concurrency.Some? { concurrency := o.concurrency.value; }
      denied := denied + o.denied;
      if o.allowed.Some? {
        allowed := IntersectLists(allowed, o.allowed.value);
      }
      quotas := MergeQuotas(quotas, o.quotas);
      i := i + 1;
    }
    assert overrides[..|overrides|] == overrides;
    merged := Tier(rpm, tpm, maxTokens, monthlyQuota, concurrency, allowed, denied, quotas);
  }

  /** Taking one more entry over, in whatever order. */
  lemma OneMoreQuota(quotas: map<Model, int>, more: map<Model, int>, left: set<Model>, model: Model)
    requires left <= more.Keys && model in left
    ensures (quotas + (more - left))[model := more[model]] == quotas + (more - (left - {model}))
  {
    var next := more - (left - {model});
    assert next.Keys == (more - left).Keys + {model};
    assert forall m :: m in more - left ==> m in next && next[m] == (more - left)[m];
  }

  method MergeQuotas(quotas: map<Model, int>, more: map<Model, int>) returns (merged: map<Model, int>)
    ensures merged == quotas + more
  {
    merged := quotas;
    var left := more.Keys;
    assert more - left == map[];
    while left != {}
      invariant left <= more.Keys
      invariant merged == quotas + (more - left)
      decreases left
    {
      var model :| model in left;
      OneMoreQuota(quotas, more, left, model);
      merged := merged[model := more[model]];
      left := left - {model};
    }
    assert more - left == more;
  }

  // ---------------------------------------------------------------------
  // What the merge decides
  // ---------------------------------------------------------------------

  /** A layer neither denies the model nor has a list that omits it. */
  predicate Passes(o: Override, model: Model) {
    !Names(o.denied, model) && (o.allowed.Some? ==> Names(o.allowed.value, model))
  }

  /** The merged tier admits a model exactly when the base does and every layer
      lets it pass. */
  lemma {:induction false} MergedAdmitsIff(base: Tier, overrides: seq<Override>, model: Model)
    ensures Admits(Merged(base, overrides), model) <==>
              Admits(base, model) && forall o :: o in overrides ==> Passes(o, model)
  {
    if overrides != [] {
      var init, last := overrides[..|overrides| - 1], overrides[|overrides| - 1];
      MergedAdmitsIff(base, init, model);
      assert overrides == init + [last];
      var below := Merged(base, init);
      assert Names(below.denied + last.denied, model) <==> Names(below.denied, model) || Names(last.denied, model);
      if last.allowed.Some? {
        IntersectNamesBoth(below.allowed, last.allowed.value, model);
      }
      assert Admits(Merged(base, overrides), model) <==> Admits(below, model) && Passes(last, model);
      assert (forall o :: o in overrides ==> Passes(o, model)) <==>
             (forall o :: o in init ==> Passes(o, model)) && Passes(last, model) by {
        assert forall o :: o in overrides <==> o in init || o == last;
      }
    }
  }

  /** No layer, wherever it is put, admits what was refused without it. */
  lemma NoLayerWidens(base: Tier, before: seq<Override>, o: Override, after: seq<Override>, model: Model)
    requires Admits(Merged(base, before + [o] + after), model)
    ensures Admits(Merged(base, before + after), model)
  {
    MergedAdmitsIff(base, before + [o] + after, model);
    MergedAdmitsIff(base, before + after, model);
  }

  /** The decision does not depend on the order of the layers. */
  lemma OrderDoesNotDecide(base: Tier, a: seq<Override>, b: seq<Override>, model: Model)
    requires multiset(a) == multiset(b)
    ensures Admits(Merged(base, a), model) <==> Admits(Merged(base, b), model)
  {
    MergedAdmitsIff(base, a, model);
    MergedAdmitsIff(base, b, model);
    forall o ensures o in a <==> o in b {
      assert o in a <==> o in multiset(a);
      assert o in b <==> o in multiset(b);
    }
  }

  /** The numeric limits by name. */
  datatype Scalar = Rpm | Tpm | MaxTokens | MonthlyQuota | Concurrency

  function Limit(t: Tier, s: Scalar): int {
    match s
    case Rpm => t.rpm
    case Tpm => t.tpm
    case MaxTokens => t.maxTokens
    case MonthlyQuota => t.monthlyQuota
    case Concurrency => t.concurrency
  }

  function SetLimit(o: Override, s: Scalar): Option<int> {
    match s
    case Rpm => o.rpm
    case Tpm => o.tpm
    case MaxTokens => o.maxTokens
    case MonthlyQuota => o.monthlyQuota
    case Concurrency => o.concurrency
  }

  /** The last layer that sets a limit wins; nobody setting it keeps the base's. */
  lemma {:induction false} NearestLimitWins(base: Tier, overrides: seq<Override>, s: Scalar, k: int)
    requires -1 <= k < |overrides| && (k >= 0 ==> SetLimit(overrides[k], s).Some?)
    requires forall j :: k < j < |overrides| ==> SetLimit(overrides[j], s).None?
    ensures Limit(Merged(base, overrides), s) == if k < 0 then Limit(base, s) else SetLimit(overrides[k], s).value
  {
    if overrides != [] && k < |overrides| - 1 {
      NearestLimitWins(base, overrides[..|overrides| - 1], s, k);
    }
  }

  /** The same per model for quotas. */
  lemma {:induction false} NearestQuotaWins(base: Tier, overrides: seq<Override>, model: Model, k: int)
    requires -1 <= k < |overrides| && (k >= 0 ==> model in overrides[k].quotas)
    requires forall j :: k < j < |overrides| ==> model !in overrides[j].quotas
    ensures var q := Merged(base, overrides).quotas;
            if k >= 0 then model in q && q[model] == overrides[k].quotas[model]
            else (model in q <==> model in base.quotas) && (model in q ==> q[model] == base.quotas[model])
  {
    if overrides != [] && k < |overrides| - 1 {
      NearestQuotaWins(base, overrides[..|overrides| - 1], model, k);
    }
  }
}
