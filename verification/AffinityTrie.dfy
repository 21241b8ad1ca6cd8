/** The prompt-prefix trie on the heap: nodes with child maps updated in place.
    Each method is proved to compute what module Affinity says about the value
    the nodes stand for. */
module AffinityTrie {
  import opened Basics
  import opened Affinity

  class Node {
    var children: map<Hash, Node>
    var endpoints: set<Id>
    var touched: Time
    /** Where the node hangs. */
    ghost const path: Path

    constructor (now: Time, ghost path: Path)
      ensures children == map[] && endpoints == {} && touched == now && this.path == path
    {
      children, endpoints, touched := map[], {}, now;
      this.path := path;
    }
  }

  /** Where each candidate sits in router order; a repeated one at its last
      place. */
  method Positions(ids: seq<Id>) returns (pos: map<Id, nat>)
    ensures pos.Keys == set id | id in ids
    ensures forall id :: id in pos ==> pos[id] < |ids| && ids[pos[id]] == id && LastAt(ids, pos[id])
  {
    pos := map[];
    for i := 0 to |ids|
      invariant pos.Keys == set id | id in ids[..i]
      invariant forall id :: id in pos ==> pos[id] < i && ids[pos[id]] == id && id !in ids[pos[id] + 1..i]
    {
      pos := pos[ids[i] := i];
      assert ids[..i + 1] == ids[..i] + [ids[i]];
    }
    assert ids[..|ids|] == ids;
    forall id | id in pos ensures LastAt(ids, pos[id]) {
      assert ids[pos[id] + 1..|ids|] == ids[pos[id] + 1..];
    }
  }

  lemma LastIsUnique(ids: seq<Id>, i: nat, j: nat)
    requires i < |ids| && j < |ids| && ids[i] == ids[j] && LastAt(ids, i) && LastAt(ids, j)
    ensures i == j
  {
  }

  method BestHit(endpoints: set<Id>, pos: map<Id, nat>, ghost ids: seq<Id>) returns (hit: int)
    requires pos.Keys == set id | id in ids
    requires forall id :: id in pos ==> pos[id] < |ids| && ids[pos[id]] == id && LastAt(ids, pos[id])
    ensures hit == Hit(endpoints, ids)
  {
    hit := -1;
    var todo := endpoints;
    while todo != {}
      invariant todo <= endpoints
      invariant hit == -1 || (0 <= hit < |ids| && ids[hit] in endpoints && LastAt(ids, hit))
      invariant forall id :: id in endpoints && id !in todo && id in pos ==> 0 <= hit <= pos[id]
      decreases todo
    {
      var id :| id in todo;
      todo := todo - {id};
      if id in pos && (hit < 0 || pos[id] < hit) {
        hit := pos[id];
      }
    }
    assert IsHit(endpoints, ids, hit) by {
      forall i | 0 <= i < |ids| && ids[i] in endpoints && LastAt(ids, i) ensures 0 <= hit <= i {
        LastIsUnique(ids, i, pos[ids[i]]);
      }
      if hit < 0 {
        forall i | 0 <= i < |ids| ensures ids[i] !in endpoints {
          assert ids[i] in pos;
        }
      }
    }
    HitIsUnique(endpoints, ids, hit, Hit(endpoints, ids));
  }

  ghost function Deepest(ps: set<Path>): (d: nat)
    ensures forall p :: p in ps ==> |p| <= d
  {
    if ps == {} then 0
    else
      var p :| p in ps;
      var d := Deepest(ps - {p});
      if |p| > d then |p| else d
  }

  lemma StepUp(p: Path, h: Hash)
    ensures Parent(p + [h]) == p && (p + [h])[|p|] == h
  {
  }

  lemma SiblingsDiffer(p: Path, q: Path)
    requires p != [] && q != [] && Parent(p) == Parent(q) && p != q
    ensures p[|p| - 1] != q[|q| - 1]
  {
    assert p == Parent(p) + [p[|p| - 1]] && q == Parent(q) + [q[|q| - 1]];
  }

  lemma AddedLeaf(t: Trie, q: Path, info: Info)
    requires Rooted(t) && q != [] && q !in t && Parent(q) in t
    ensures Rooted(t[q := info]) && Nodes(t[q := info]) == Nodes(t) + 1
  {
    assert t[q := info].Keys == t.Keys + {q};
  }

  /** Removing a leaf leaves every other path its parent. */
  lemma RemovedLeaf(t: Trie, q: Path)
    requires Rooted(t) && q in t && q != []
    requires forall r :: r in t && q <= r ==> r == q
    ensures [] in t - {q} && Rooted(t - {q}) && Nodes(t - {q}) == Nodes(t) - 1
  {
    var s := t - {q};
    forall r | r in s && r != [] ensures Parent(r) in s {
      assert Parent(r) in t && Parent(r) <= r;
    }
    assert t.Keys == s.Keys + {q};
  }

  class PrefixTrie {
    var root: Node
    var nodes: int
    /** The node at each path. */
    ghost var at: map<Path, Node>
    /** The value the nodes stand for. */
    ghost var value: Trie

    ghost predicate Valid()
      reads this, at.Values
    {
      && [] in at && at[[]] == root && value.Keys == at.Keys && Rooted(value) && nodes == Nodes(value)
      && (forall p {:trigger Shown(p)} :: p in at ==> Shown(p))
      && (forall p {:trigger Kept(p)} :: p in at ==> Kept(p))
      && (forall p {:trigger Edge(p)} :: p in at && p != [] ==> Edge(p))
    }

    /** The node knows its path and stands for the value there. */
    ghost predicate Shown(p: Path)
      requires p in at && p in value
      reads this, at[p]
    {
      at[p].path == p && value[p] == Info(at[p].endpoints, at[p].touched)
    }

    /** Every child entry leads to a path of the trie. */
    ghost predicate Kept(p: Path)
      requires p in at
      reads this, at[p]
    {
      forall h {:trigger p + [h]} :: h in at[p].children ==> p + [h] in at
    }

    /** The parent's child entry leads to the node. */
    ghost predicate Edge(p: Path)
      requires p != [] && p in at && Parent(p) in at
      reads this, at[Parent(p)]
    {
      p[|p| - 1] in at[Parent(p)].children && at[Parent(p)].children[p[|p| - 1]] == at[p]
    }

    constructor (now: Time)
      ensures Valid() && value == NewTrie(now) && fresh(at.Values)
    {
      root := new Node(now, []);
      nodes := 0;
      new;
      at, value := map[[] := root], NewTrie(now);
    }

    /** The child of a node on the chain, or nothing below the trie. */
    lemma ChildAt(chunks: seq<Hash>, k: nat)
      requires Valid() && k < |chunks| && chunks[..k] in at
      ensures chunks[k] in at[chunks[..k]].children <==> chunks[..k + 1] in at
      ensures chunks[k] in at[chunks[..k]].children ==> at[chunks[..k + 1]] == at[chunks[..k]].children[chunks[k]]
    {
      var p, q := chunks[..k], chunks[..k + 1];
      assert p + [chunks[k]] == q && Parent(q) == p && q[|q| - 1] == chunks[k];
      assert Kept(p);
      assert q in at ==> Edge(q);
    }

    method Touch(ghost p: Path, n: Node, now: Time)
      requires Valid() && p in at && at[p] == n
      modifies this`value, n`touched
      ensures Valid() && at == old(at)
      ensures value == old(value)[p := old(value)[p].(touched := now)]
    {
      assert Shown(p);
      n.touched := now;
      value := value[p := value[p].(touched := now)];
      SetKeeps(p);
    }

    /** With the same child entries, a changed set or touch breaks no link. */
    twostate lemma SetKeeps(p: Path)
      requires old(Valid()) && p in at && p in value && Shown(p)
      requires at == old(at) && root == old(root) && nodes == old(nodes) && value == old(value)[p := value[p]]
      requires forall q :: q in at ==> at[q].children == old(at[q].children)
      requires forall q :: q in at && at[q] != at[p] ==> at[q].endpoints == old(at[q].endpoints) && at[q].touched == old(at[q].touched)
      ensures Valid()
    {
      assert value.Keys == old(value.Keys);
      forall q | q in at ensures Shown(q) && Kept(q) {
        assert old(Shown(q)) && old(Kept(q));
      }
      forall q | q in at && q != [] ensures Edge(q) {
        assert Parent(q) in at && old(Edge(q));
      }
    }

    /** One depth of the walk. */
    method Descend(ghost chunks: seq<Hash>, k: nat, h: Hash, n: Node, pos: map<Id, nat>, ghost ids: seq<Id>, now: Time)
      returns (child: Node?, hit: int)
      requires Valid() && k < |chunks| && h == chunks[k] && chunks[..k] in at && n == at[chunks[..k]]
      requires pos.Keys == set id | id in ids
      requires forall id :: id in pos ==> pos[id] < |ids| && ids[pos[id]] == id && LastAt(ids, pos[id])
      modifies this`value, at.Values
      ensures Valid() && at == old(at)
      ensures child == null <==> chunks[..k + 1] !in at
      ensures child == null ==> value == old(value)
      ensures child != null ==>
        var p := chunks[..k + 1];
        && child == at[p] && hit == Hit(old(value)[p].endpoints, ids)
        && value == old(value)[p := old(value)[p].(touched := now)]
    {
      ChildAt(chunks, k);
      if h in n.children {
        child := n.children[h];
        assert Shown(chunks[..k + 1]);
        Touch(chunks[..k + 1], child, now);
        hit := BestHit(child.endpoints, pos, ids);
      } else {
        child, hit := null, -1;
      }
    }

    method Match(chunks: seq<Hash>, ids: seq<Id>, now: Time) returns (best: int)
      requires Valid()
      modifies this`value, at.Values
      ensures Valid() && at == old(at)
      ensures (value, best) == Affinity.Match(old(value), chunks, ids, now)
    {
      var pos := Positions(ids);
      var n := root;
      best := -1;
      ghost var goal := Affinity.Match(value, chunks, ids, now);
      assert chunks[..0] == [];
      var k := 0;
      while k < |chunks|
        invariant k <= |chunks| && Valid() && at == old(at)
        invariant chunks[..k] in at && n == at[chunks[..k]]
        invariant MatchFrom(value, chunks, k, ids, now, best) == goal
      {
        MatchStep(value, chunks, k, ids, now, best);
        var child, hit := Descend(chunks, k, chunks[k], n, pos, ids, now);
        if child == null {
          return;
        }
        if hit < 0 {
          return;
        }
        n := child;
        best := hit;
        k := k + 1;
      }
    }

    /** A node the chain passes gains the upstream and the touch. */
    method Stamp(ghost p: Path, n: Node, id: Id, now: Time)
      requires Valid() && p in at && at[p] == n
      modifies this`value, n`endpoints, n`touched
      ensures Valid() && at == old(at)
      ensures value == old(value)[p := Info(old(value)[p].endpoints + {id}, now)]
    {
      assert Shown(p);
      n.endpoints := n.endpoints + {id};
      n.touched := now;
      value := value[p := Info(n.endpoints, now)];
      SetKeeps(p);
    }

    /** A missing node is hung below its parent and counted. */
    method Hang(ghost p: Path, n: Node, h: Hash, now: Time) returns (child: Node)
      requires Valid() && p in at && at[p] == n && p + [h] !in at
      modifies this`at, this`value, this`nodes, n`children
      ensures Valid() && fresh(child) && at == old(at)[p + [h] := child]
      ensures value == old(value)[p + [h] := Info({}, now)]
    {
      ghost var q := p + [h];
      StepUp(p, h);
      child := new Node(now, q);
      n.children := n.children[h := child];
      nodes := nodes + 1;
      at, value := at[q := child], value[q := Info({}, now)];
      HangKeeps(q);
    }

    twostate lemma HangKeeps(q: Path)
      requires q != [] && old(Valid()) && Parent(q) in old(at) && q !in old(at) && q in at && q in value
      requires root == old(root) && nodes == old(nodes) + 1
      requires at == old(at)[q := at[q]] && at[q] !in old(at.Values) && value == old(value)[q := value[q]]
      requires Shown(q) && at[q].children == map[]
      requires old(at)[Parent(q)].children == old(at[Parent(q)].children)[q[|q| - 1] := at[q]]
      requires forall r :: r in old(at) ==> old(at)[r].endpoints == old(at[r].endpoints) && old(at)[r].touched == old(at[r].touched)
      requires forall r :: r in old(at) && old(at)[r] != old(at)[Parent(q)] ==> old(at)[r].children == old(at[r].children)
      ensures Valid()
    {
      AddedLeaf(old(value), q, value[q]);
      assert old(Shown(Parent(q))) && old(Kept(Parent(q)));
      assert q == Parent(q) + [q[|q| - 1]];
      forall r | r in at ensures Shown(r) && Kept(r) {
        if r != q {
          assert old(Shown(r)) && old(Kept(r));
        }
      }
      forall r | r in at && r != [] ensures Edge(r) {
        if r != q {
          assert Parent(r) in old(at) && old(Edge(r));
          if Parent(r) == Parent(q) {
            SiblingsDiffer(r, q);
          } else {
            assert old(Shown(Parent(r)));
            assert at[Parent(r)] != at[Parent(q)];
          }
        }
      }
    }

    /** One depth of the recording, null when the node ceiling cuts the chain. */
    method Extend(ghost chunks: seq<Hash>, ghost k: nat, h: Hash, n: Node, id: Id, now: Time) returns (child: Node?)
      requires Valid() && k < |chunks| && h == chunks[k] && chunks[..k] in at && n == at[chunks[..k]]
      modifies this`at, this`value, this`nodes, at.Values
      ensures Valid() && fresh(at.Values - old(at.Values))
      ensures var p, t := chunks[..k + 1], old(value);
        && (child == null <==> p !in t && Nodes(t) >= MAX_NODES)
        && (child == null ==> value == t)
        && (child != null ==> p in at && child == at[p] && value == t[p := Info(HeldBefore(t, p) + {id}, now)])
    {
      ChildAt(chunks, k);
      ghost var p := chunks[..k + 1];
      assert p == chunks[..k] + [h];
      if h in n.children {
        child := n.children[h];
      } else if nodes >= MAX_NODES {
        return null;
      } else {
        child := Hang(chunks[..k], n, h, now);
      }
      Stamp(p, child, id, now);
    }

    method Record(chunks: seq<Hash>, id: Id, now: Time)
      requires Valid()
      modifies this`at, this`value, this`nodes, at.Values
      ensures Valid() && fresh(at.Values - old(at.Values))
      ensures value == Affinity.Record(old(value), chunks, id, now)
    {
      ghost var goal := Affinity.Record(value, chunks, id, now);
      Touch([], root, now);
      var n := root;
      assert chunks[..0] == [];
      var k := 0;
      while k < |chunks|
        invariant k <= |chunks| && Valid() && fresh(at.Values - old(at.Values))
        invariant chunks[..k] in at && n == at[chunks[..k]]
        invariant RecordFrom(value, chunks, k, id, now) == goal
      {
        RecordStep(value, chunks, k, id, now);
        var child := Extend(chunks, k, chunks[k], n, id, now);
        if child == null {
          return;
        }
        n := child;
        k := k + 1;
      }
    }

    /** What Pick does to the model's trie: match, choose, record. */
    method MatchAndRecord(chunks: seq<Hash>, ids: seq<Id>, now: Time) returns (chosen: nat)
      requires Valid() && ids != []
      modifies this`at, this`value, this`nodes, at.Values
      ensures Valid() && fresh(at.Values - old(at.Values))
      ensures (value, chosen) == Affinity.MatchAndRecord(old(value), chunks, ids, now)
    {
      MatchRange(value, chunks, 0, ids, now, -1);
      var best := Match(chunks, ids, now);
      chosen := if best < 0 then 0 else best;
      Record(chunks, ids[chosen], now);
    }

    /** A node with nothing below it is unhung and no longer counted. */
    method Unhang(ghost p: Path, n: Node, h: Hash)
      requires Valid() && p in at && at[p] == n && p + [h] in at
      requires forall q :: q in value && p + [h] <= q ==> q == p + [h]
      modifies this`at, this`value, this`nodes, n`children
      ensures Valid()
      ensures at == old(at) - {p + [h]} && value == old(value) - {p + [h]}
    {
      ghost var q := p + [h];
      StepUp(p, h);
      n.children := n.children - {h};
      nodes := nodes - 1;
      at, value := at - {q}, value - {q};
      UnhangKeeps(q);
    }

    /** What unhanging the leaf at q changes. */
    twostate predicate Unhanging(q: Path)
      reads this, at.Values
    {
      && q != [] && old(Valid()) && q in old(at) && Parent(q) in at
      && root == old(root) && nodes == old(nodes) - 1
      && at == old(at) - {q} && value == old(value) - {q}
      && at[Parent(q)].children == old(at[Parent(q)].children) - {q[|q| - 1]}
      && (forall r :: r in at ==> at[r].endpoints == old(at[r].endpoints) && at[r].touched == old(at[r].touched))
      && (forall r :: r in at && at[r] != at[Parent(q)] ==> at[r].children == old(at[r].children))
    }

    twostate lemma UnhangKeepsEdges(q: Path)
      requires Unhanging(q) && Rooted(value) && value.Keys == at.Keys
      ensures forall r {:trigger Edge(r)} :: r in at && r != [] ==> Edge(r)
    {
      forall r | r in at && r != [] ensures Edge(r) {
        assert Parent(r) in at && old(Edge(r));
        if Parent(r) == Parent(q) {
          SiblingsDiffer(r, q);
        } else {
          assert old(Shown(Parent(r))) && old(Shown(Parent(q)));
          assert at[Parent(r)] != at[Parent(q)];
        }
      }
    }

    twostate lemma UnhangKeeps(q: Path)
      requires Unhanging(q) && forall r :: r in old(value) && q <= r ==> r == q
      ensures Valid()
    {
      RemovedLeaf(old(value), q);
      assert old(Shown(Parent(q))) && old(Kept(Parent(q)));
      UnhangKeepsEdges(q);
      forall r | r in at ensures Shown(r) && Kept(r) {
        assert old(Shown(r)) && old(Kept(r));
        forall k | k in at[r].children ensures r + [k] in at {
          StepUp(r, k);
          assert r + [k] in old(at);
        }
      }
    }

    /** The sweep of one subtree, children first; it reports whether the node
        itself is now an expired leaf. Children are visited in any order. */
    method Prune(ghost p: Path, n: Node, now: Time, ttl: Time, ghost depth: nat) returns (dead: bool)
      requires Valid() && p in at && at[p] == n
      requires FreshAbove(value)
      requires forall q :: q in at ==> |q| <= depth
      modifies this`at, this`value, this`nodes, at.Values
      ensures Valid() && at.Keys <= old(at).Keys && forall q :: q in at ==> at[q] == old(at)[q]
      ensures p in at && value == PrunedBelow(old(value), p, now, ttl)
      ensures dead == Expired(old(value)[p], now, ttl)
      decreases depth - |p|, 1
    {
      ghost var t := value;
      ghost var done: set<Hash> := {};
      ghost var kids := n.children.Keys;
      Children(p, n);
      var todo := n.children.Keys;
      assert value == PrunedSome(t, p, done, now, ttl);
      while todo != {}
        invariant Valid() && p in at && at[p] == n
        invariant at.Keys <= old(at).Keys && forall q :: q in at ==> at[q] == old(at)[q]
        invariant value == PrunedSome(t, p, done, now, ttl)
        invariant forall h :: h in kids ==> h in todo || h in done
        invariant forall h :: h in todo ==> h in kids && h !in done
        decreases todo
      {
        var h :| h in todo;
        todo := todo - {h};
        PruneChild(p, n, h, now, ttl, depth, t, done);
        done := done + {h};
      }
      PrunedAll(t, p, done, now, ttl);
      NoChildrenLeft(t, p, n, now, ttl);
      dead := n.children == map[] && now - n.touched > ttl;
    }

    /** The sweep of one trie: exactly the nodes untouched for longer than the
        TTL go, and the counter follows. */
    method PruneAll(now: Time, ttl: Time)
      requires Valid() && FreshAbove(value)
      modifies this`at, this`value, this`nodes, at.Values
      ensures Valid() && at.Values <= old(at.Values)
      ensures value == Unexpired(old(value), now, ttl)
      ensures root.children == map[] <==> Nodes(value) == 0
    {
      PrunedRoot(value, now, ttl);
      ghost var depth := Deepest(at.Keys);
      var _ := Prune([], root, now, ttl, depth);
      Children([], root);
      EmptyAtRoot();
    }

    lemma EmptyAtRoot()
      requires Valid()
      ensures root.children == map[] <==> Nodes(value) == 0
    {
      Children([], root);
      if root.children == map[] {
        forall q | q in at ensures q == [] {
          if q != [] {
            assert q[..1] == [] + [q[0]];
            PrefixPresent(value, q, 1);
          }
        }
        assert at.Keys == {[]};
      } else {
        var h :| h in root.children;
        assert {[], [] + [h]} <= at.Keys;
        SubsetSize({[], [] + [h]}, at.Keys);
      }
    }

    lemma NoChildrenLeft(t: Trie, p: Path, n: Node, now: Time, ttl: Time)
      requires Valid() && p in at && at[p] == n && p in t && value == PrunedBelow(t, p, now, ttl)
      requires Expired(t[p], now, ttl) ==> forall q :: p < q ==> q !in value
      ensures n.touched == t[p].touched
      ensures Expired(t[p], now, ttl) ==> n.children == map[]
    {
      Children(p, n);
      assert value[p] == t[p] && Shown(p);
      if Expired(t[p], now, ttl) {
        forall h ensures h !in n.children {
          assert p < p + [h];
        }
      }
    }

    lemma Children(p: Path, n: Node)
      requires Valid() && p in at && at[p] == n
      ensures forall h :: h in n.children <==> p + [h] in at
    {
      forall h ensures h in n.children <==> p + [h] in at {
        var q := p + [h];
        StepUp(p, h);
        assert Kept(p) && (q in at ==> Edge(q));
      }
    }

    /** The sweep of one child's subtree, which drops the child itself when it is
        left an expired leaf. */
    method PruneChild(ghost p: Path, n: Node, h: Hash, now: Time, ttl: Time, ghost depth: nat, ghost t: Trie, ghost done: set<Hash>)
      requires Valid() && p in at && at[p] == n && p + [h] in t && h !in done
      requires Rooted(t) && FreshAbove(t) && value == PrunedSome(t, p, done, now, ttl)
      requires forall q :: q in at ==> |q| <= depth
      modifies this`at, this`value, this`nodes, at.Values
      ensures Valid() && at.Keys <= old(at).Keys && forall q :: q in at ==> at[q] == old(at)[q]
      ensures p in at && value == PrunedSome(t, p, done + {h}, now, ttl)
      decreases depth - |p|, 0
    {
      ghost var c := p + [h];
      assert c[|p|] == h;
      assert c in value;
      Children(p, n);
      ChildNode(p, n, h);
      PrunedIsFresh(t, p, done, now, ttl);
      var dead := Prune(c, n.children[h], now, ttl, depth);
      if dead {
        PrunedDeadChild(t, p, h, done, now, ttl);
        DeadChildIsLeaf(t, p, c, done, now, ttl);
        Unhang(p, n, h);
      } else {
        PrunedLiveChild(t, p, h, done, now, ttl);
      }
    }

    lemma ChildNode(p: Path, n: Node, h: Hash)
      requires Valid() && p in at && at[p] == n && h in n.children && p + [h] in at
      ensures at[p + [h]] == n.children[h]
    {
      var q := p + [h];
      StepUp(p, h);
      assert Edge(q);
    }
  }
}
