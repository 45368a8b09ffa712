/**
 The generic rose tree of Unity/TreeNode.cs: a node holds a value that never
 changes, an ordered list of children and a back-pointer to its parent.

 The nodes live in an arena: a map from node id to the node's value, parent
 id and child ids. A fresh node always receives an id larger than every
 existing one, so a child's id is always larger than its parent's; this
 ordering is the arena's invariant and the reason the recursive walks
 (Flatten, Traverse, Reverse) terminate.
 */
module RoseTree {
  import opened Common

  datatype Node<T> = Node(value: T, parent: Option<nat>, children: seq<nat>)

  type Nodes<T> = map<nat, Node<T>>

  /** Every id is below `next`, every referenced id exists, children come after their parent. */
  ghost predicate WellFormed<T>(nodes: Nodes<T>, next: nat)
  {
    IdsBelow(nodes, next) && ChildrenAfter(nodes) && ParentsBefore(nodes)
  }

  ghost predicate IdsBelow<T>(nodes: Nodes<T>, next: nat)
  {
    forall id :: id in nodes ==> id < next
  }

  ghost predicate ChildrenAfter<T>(nodes: Nodes<T>)
  {
    forall id, c :: id in nodes && c in nodes[id].children ==> c in nodes && id < c
  }

  ghost predicate ParentsBefore<T>(nodes: Nodes<T>)
  {
    forall id :: id in nodes && nodes[id].parent.Some? ==>
      nodes[id].parent.value in nodes && nodes[id].parent.value < id
  }

  /** Every node of `before` is still present in `after` and holds the same value. */
  ghost predicate ValuesKept<T>(before: Nodes<T>, after: Nodes<T>)
  {
    forall id :: id in before ==> id in after && after[id].value == before[id].value
  }

  /** The ids of a list of children are all nodes that come after `p`. */
  ghost predicate ChildIds<T>(nodes: Nodes<T>, p: nat, ids: seq<nat>)
  {
    forall k :: 0 <= k < |ids| ==> ids[k] in nodes && p < ids[k]
  }

  /**
   The state after connecting each node of `cs` to `p` in turn (ConnectChild):
   `cs` is appended to `p`'s child list and every node of `cs` gets parent `p`.
   */
  function Connected<T>(nodes: Nodes<T>, p: nat, cs: seq<nat>): Nodes<T>
    requires p in nodes && p !in cs
  {
    var moved := map id | id in nodes :: if id in cs then nodes[id].(parent := Some(p)) else nodes[id];
    moved[p := nodes[p].(children := nodes[p].children + cs)]
  }

  lemma ConnectedShape<T>(nodes: Nodes<T>, p: nat, cs: seq<nat>)
    requires p in nodes && p !in cs
    ensures var r := Connected(nodes, p, cs);
      && r.Keys == nodes.Keys
      && r[p] == nodes[p].(children := nodes[p].children + cs)
      && (forall id :: id in nodes && id != p && id in cs ==> r[id] == nodes[id].(parent := Some(p)))
      && (forall id :: id in nodes && id != p && id !in cs ==> r[id] == nodes[id])
  {
  }

  lemma ConnectedStep<T>(nodes: Nodes<T>, p: nat, cs: seq<nat>, c: nat)
    requires p in nodes && c in nodes && p != c && p !in cs
    ensures var before := Connected(nodes, p, cs);
      Connected(nodes, p, cs + [c])
        == before[p := before[p].(children := before[p].children + [c])][c := before[c].(parent := Some(p))]
  {
    var before := Connected(nodes, p, cs);
    var lhs := Connected(nodes, p, cs + [c]);
    var rhs := before[p := before[p].(children := before[p].children + [c])][c := before[c].(parent := Some(p))];
    assert lhs.Keys == rhs.Keys;
    forall id | id in lhs
      ensures lhs[id] == rhs[id]
    {
      if id != p && id != c {
        assert (id in cs + [c]) == (id in cs);
      }
    }
  }

  /**
   The state after RemoveSelf on node `m`: a root loses its children;
   otherwise every child of `m` is connected to `m`'s parent (appended to the
   parent's list and re-parented) and `m` is then removed from the parent's
   list. Node `m` itself keeps its parent and its child list.
   */
  function RemovedSelf<T>(nodes: Nodes<T>, m: nat): Nodes<T>
    requires m in nodes
    requires nodes[m].parent.Some? ==>
      nodes[m].parent.value in nodes && nodes[m].parent.value !in nodes[m].children
  {
    var n := nodes[m];
    match n.parent
    case None => nodes[m := n.(children := [])]
    case Some(p) =>
      var joined := Connected(nodes, p, n.children);
      joined[p := joined[p].(children := RemoveFirst(joined[p].children, m))]
  }

  lemma {:induction false} RemoveFirstBeforeTail(s: seq<nat>, t: seq<nat>, m: nat)
    requires m !in t
    ensures RemoveFirst(s + t, m) == RemoveFirst(s, m) + t
  {
    var k := IndexOf(s + t, m);
    if m in s {
      var j := IndexOf(s, m);
      assert (s + t)[j] == m;
      assert k == j;
      assert (s + t)[..k] == s[..j];
      assert (s + t)[k + 1..] == s[j + 1..] + t;
    } else {
      assert m !in s + t;
    }
  }

  /**
   RemoveSelf on a node with a parent `p`: `p`'s new child list is its old
   list without `m`, followed by `m`'s children in their order; each of those
   children now has `p` as parent; `m` itself and every other node are
   unchanged; the arena stays well formed.
   */
  lemma SpliceRemoval<T>(nodes: Nodes<T>, next: nat, m: nat)
    requires WellFormed(nodes, next) && m in nodes && nodes[m].parent.Some?
    ensures nodes[m].parent.value !in nodes[m].children
    ensures var p := nodes[m].parent.value;
      var r := RemovedSelf(nodes, m);
      && r.Keys == nodes.Keys
      && r[p].children == RemoveFirst(nodes[p].children, m) + nodes[m].children
      && r[p].value == nodes[p].value && r[p].parent == nodes[p].parent
      && (forall c :: c in nodes[m].children ==> r[c] == nodes[c].(parent := Some(p)))
      && r[m] == nodes[m]
      && (forall id :: id in nodes && id != p && id !in nodes[m].children ==> r[id] == nodes[id])
      && ValuesKept(nodes, r)
      && WellFormed(r, next)
  {
    var n := nodes[m];
    var p := n.parent.value;
    assert p < m;
    assert p !in n.children;
    assert m !in n.children;
    var joined := Connected(nodes, p, n.children);
    ConnectedShape(nodes, p, n.children);
    var r := RemovedSelf(nodes, m);
    assert r == joined[p := joined[p].(children := RemoveFirst(joined[p].children, m))];
    RemoveFirstBeforeTail(nodes[p].children, n.children, m);
    assert r[p].children == RemoveFirst(nodes[p].children, m) + n.children;
    SplicedWellFormed(nodes, next, m, r);
  }

  lemma SplicedWellFormed<T>(nodes: Nodes<T>, next: nat, m: nat, r: Nodes<T>)
    requires WellFormed(nodes, next) && m in nodes && nodes[m].parent.Some?
    requires var p := nodes[m].parent.value;
      && r.Keys == nodes.Keys
      && r[p].children == RemoveFirst(nodes[p].children, m) + nodes[m].children
      && r[p].parent == nodes[p].parent
      && (forall c :: c in nodes[m].children && c != p ==> r[c] == nodes[c].(parent := Some(p)))
      && (forall id :: id in nodes && id != p && id !in nodes[m].children ==> r[id] == nodes[id])
    ensures WellFormed(r, next)
  {
    var p := nodes[m].parent.value;
    forall id, c | id in r && c in r[id].children
      ensures c in r && id < c
    {
      if id == p {
        var old_ := nodes[p].children;
        if c in RemoveFirst(old_, m) {
          if m in old_ {
            assert multiset(RemoveFirst(old_, m)) <= multiset(old_);
          }
          assert c in old_;
        } else {
          assert c in nodes[m].children;
        }
      } else if id in nodes[m].children {
        assert r[id].children == nodes[id].children;
      }
    }
    forall id | id in r && r[id].parent.Some?
      ensures r[id].parent.value in r && r[id].parent.value < id
    {
      if id in nodes[m].children && id != p {
        assert m < id;
      }
    }
  }

  /** RemoveSelf on a root clears its child list and changes nothing else. */
  lemma RootRemoval<T>(nodes: Nodes<T>, next: nat, m: nat)
    requires WellFormed(nodes, next) && m in nodes && nodes[m].parent.None?
    ensures RemovedSelf(nodes, m)[m].children == []
    ensures forall id :: id in nodes && id != m ==> RemovedSelf(nodes, m)[id] == nodes[id]
    ensures RemovedSelf(nodes, m)[m].value == nodes[m].value
    ensures RemovedSelf(nodes, m).Keys == nodes.Keys && WellFormed(RemovedSelf(nodes, m), next)
  {
    var n := nodes[m];
    assert RemovedSelf(nodes, m) == nodes[m := n.(children := [])];
    ReplacedWellFormed(nodes, next, m, n.(children := []));
  }

  /** A child of a node of a well-formed arena is a node that comes after it. */
  lemma ChildInRange<T>(nodes: Nodes<T>, next: nat, id: nat, c: nat)
    requires WellFormed(nodes, next) && id in nodes && c in nodes[id].children
    ensures c in nodes && id < c < next
  {
  }

  /** The child list of a node of a well-formed arena holds child ids. */
  lemma OwnChildIds<T>(nodes: Nodes<T>, next: nat, p: nat)
    requires WellFormed(nodes, next) && p in nodes
    ensures ChildIds(nodes, p, nodes[p].children)
  {
    forall k | 0 <= k < |nodes[p].children|
      ensures nodes[p].children[k] in nodes && p < nodes[p].children[k]
    {
      ChildInRange(nodes, next, p, nodes[p].children[k]);
    }
  }

  /**
   Replacing one node keeps the arena well formed when the replacement's
   children and parent respect the ordering.
   */
  lemma ReplacedWellFormed<T>(nodes: Nodes<T>, next: nat, k: nat, n: Node<T>)
    requires WellFormed(nodes, next) && k in nodes
    requires forall c :: c in n.children ==> c in nodes && k < c
    requires n.parent.Some? ==> n.parent.value in nodes && n.parent.value < k
    ensures WellFormed(nodes[k := n], next)
  {
    var r := nodes[k := n];
    assert r.Keys == nodes.Keys;
    forall id | id in r
      ensures id < next
    {
      assert id in nodes;
    }
    forall id, c | id in r && c in r[id].children
      ensures c in r && id < c
    {
      if id != k {
        assert r[id] == nodes[id];
        ChildInRange(nodes, next, id, c);
      }
    }
    forall id | id in r && r[id].parent.Some?
      ensures r[id].parent.value in r && r[id].parent.value < id
    {
      if id != k {
        assert r[id] == nodes[id];
      }
    }
    assert IdsBelow(r, next) && ChildrenAfter(r) && ParentsBefore(r);
  }

  /** The nodes RemoveSelf on `m` may touch: `m`, its parent and its children. */
  ghost function Around<T>(nodes: Nodes<T>, m: nat): set<nat>
    requires m in nodes
  {
    {m} + (if nodes[m].parent.Some? then {nodes[m].parent.value} else {})
        + (set c | c in nodes[m].children)
  }

  /** Every node of `before` outside `changed` is present and identical in `after`. */
  ghost predicate Untouched<T>(before: Nodes<T>, after: Nodes<T>, changed: set<nat>)
  {
    forall id :: id in before && id !in changed ==> id in after && after[id] == before[id]
  }

  /**
   RemoveSelf touches nothing but `m`, its parent and its children; it keeps
   every node and value, `m`'s parent field and the arena's well-formedness;
   the parent's list loses `m` and gains `m`'s children at its end.
   */
  lemma RemovalFrame<T>(nodes: Nodes<T>, next: nat, m: nat)
    requires WellFormed(nodes, next) && m in nodes
    ensures var r := RemovedSelf(nodes, m);
      && r.Keys == nodes.Keys && WellFormed(r, next) && ValuesKept(nodes, r)
      && r[m].parent == nodes[m].parent
      && Untouched(nodes, r, Around(nodes, m))
      && (nodes[m].parent.Some? ==>
            var p := nodes[m].parent.value;
            r[p].children == RemoveFirst(nodes[p].children, m) + r[m].children)
  {
    if nodes[m].parent.None? {
      RootRemoval(nodes, next, m);
    } else {
      SpliceRemoval(nodes, next, m);
    }
  }

  /**
   RemoveSelf on a node without children only unlinks it from its parent's
   list (and does nothing at all to a root).
   */
  lemma LeafRemoval<T>(nodes: Nodes<T>, next: nat, m: nat)
    requires WellFormed(nodes, next) && m in nodes && nodes[m].children == []
    ensures nodes[m].parent.None? ==> RemovedSelf(nodes, m) == nodes
    ensures nodes[m].parent.Some? ==>
      var p := nodes[m].parent.value;
      RemovedSelf(nodes, m) == nodes[p := nodes[p].(children := RemoveFirst(nodes[p].children, m))]
  {
    var n := nodes[m];
    if n.parent.None? {
      assert n.(children := []) == n;
      assert nodes[m := n] == nodes;
    } else {
      var p := n.parent.value;
      ConnectedShape(nodes, p, []);
      assert nodes[p].children + [] == nodes[p].children;
      assert Connected(nodes, p, []) == nodes;
    }
  }

  /** Flatten: the node's value, then the flattening of each child in order (pre-order). */
  function PreOrder<T>(nodes: Nodes<T>, next: nat, id: nat): seq<T>
    requires WellFormed(nodes, next) && id in nodes
    decreases next - id, 1
  {
    [nodes[id].value] + PreOrderAll(nodes, next, id, nodes[id].children)
  }

  function PreOrderAll<T>(nodes: Nodes<T>, next: nat, p: nat, ids: seq<nat>): seq<T>
    requires WellFormed(nodes, next) && p in nodes && ChildIds(nodes, p, ids)
    decreases next - p, 0, |ids|
  {
    if ids == [] then []
    else PreOrder(nodes, next, ids[0]) + PreOrderAll(nodes, next, p, ids[1..])
  }

  /** Reverse: each child's post-order walk in order, then the node's own value. */
  function PostOrder<T>(nodes: Nodes<T>, next: nat, id: nat): seq<T>
    requires WellFormed(nodes, next) && id in nodes
    decreases next - id, 1
  {
    PostOrderAll(nodes, next, id, nodes[id].children) + [nodes[id].value]
  }

  function PostOrderAll<T>(nodes: Nodes<T>, next: nat, p: nat, ids: seq<nat>): seq<T>
    requires WellFormed(nodes, next) && p in nodes && ChildIds(nodes, p, ids)
    decreases next - p, 0, |ids|
  {
    if ids == [] then []
    else PostOrder(nodes, next, ids[0]) + PostOrderAll(nodes, next, p, ids[1..])
  }

  /** The number of nodes in the subtree of `id`, counted through child lists. */
  function Size<T>(nodes: Nodes<T>, next: nat, id: nat): nat
    requires WellFormed(nodes, next) && id in nodes
    decreases next - id, 1
  {
    1 + SizeAll(nodes, next, id, nodes[id].children)
  }

  function SizeAll<T>(nodes: Nodes<T>, next: nat, p: nat, ids: seq<nat>): nat
    requires WellFormed(nodes, next) && p in nodes && ChildIds(nodes, p, ids)
    decreases next - p, 0, |ids|
  {
    if ids == [] then 0
    else Size(nodes, next, ids[0]) + SizeAll(nodes, next, p, ids[1..])
  }

  /** The pre-order walk visits exactly as many values as the subtree has nodes. */
  lemma {:induction false} PreOrderLength<T>(nodes: Nodes<T>, next: nat, id: nat)
    requires WellFormed(nodes, next) && id in nodes
    ensures |PreOrder(nodes, next, id)| == Size(nodes, next, id)
    decreases next - id, 1
  {
    PreOrderAllLength(nodes, next, id, nodes[id].children);
  }

  lemma {:induction false} PreOrderAllLength<T>(nodes: Nodes<T>, next: nat, p: nat, ids: seq<nat>)
    requires WellFormed(nodes, next) && p in nodes && ChildIds(nodes, p, ids)
    ensures |PreOrderAll(nodes, next, p, ids)| == SizeAll(nodes, next, p, ids)
    decreases next - p, 0, |ids|
  {
    if ids != [] {
      assert ids[0] in ids;
      PreOrderLength(nodes, next, ids[0]);
      PreOrderAllLength(nodes, next, p, ids[1..]);
    }
  }

  /** The post-order walk visits the same values as the pre-order walk, in another order. */
  lemma {:induction false} PostOrderPermutesPreOrder<T>(nodes: Nodes<T>, next: nat, id: nat)
    requires WellFormed(nodes, next) && id in nodes
    ensures multiset(PostOrder(nodes, next, id)) == multiset(PreOrder(nodes, next, id))
    decreases next - id, 1
  {
    PostOrderAllPermutes(nodes, next, id, nodes[id].children);
  }

  lemma {:induction false} PostOrderAllPermutes<T>(nodes: Nodes<T>, next: nat, p: nat, ids: seq<nat>)
    requires WellFormed(nodes, next) && p in nodes && ChildIds(nodes, p, ids)
    ensures multiset(PostOrderAll(nodes, next, p, ids)) == multiset(PreOrderAll(nodes, next, p, ids))
    decreases next - p, 0, |ids|
  {
    if ids != [] {
      assert ids[0] in ids;
      PostOrderPermutesPreOrder(nodes, next, ids[0]);
      PostOrderAllPermutes(nodes, next, p, ids[1..]);
    }
  }

  /** Two arenas that agree on every node from `lo` on. */
  ghost predicate AgreeFrom<T>(a: Nodes<T>, b: Nodes<T>, lo: nat)
  {
    forall id :: lo <= id && id in a ==> id in b && a[id] == b[id]
  }

  /** A subtree's walk reads only the nodes at or after its root. */
  lemma {:induction false} PreOrderFrame<T>(a: Nodes<T>, na: nat, b: Nodes<T>, nb: nat, id: nat)
    requires WellFormed(a, na) && WellFormed(b, nb) && id in a && AgreeFrom(a, b, id)
    ensures PreOrder(a, na, id) == PreOrder(b, nb, id)
    decreases na - id, 1
  {
    PreOrderAllFrame(a, na, b, nb, id, a[id].children);
  }

  lemma {:induction false} PreOrderAllFrame<T>(a: Nodes<T>, na: nat, b: Nodes<T>, nb: nat, p: nat, ids: seq<nat>)
    requires WellFormed(a, na) && WellFormed(b, nb) && p in a && p in b
    requires ChildIds(a, p, ids) && ChildIds(b, p, ids) && AgreeFrom(a, b, p + 1)
    ensures PreOrderAll(a, na, p, ids) == PreOrderAll(b, nb, p, ids)
    decreases na - p, 0, |ids|
  {
    if ids != [] {
      assert ids[0] in ids;
      PreOrderFrame(a, na, b, nb, ids[0]);
      PreOrderAllFrame(a, na, b, nb, p, ids[1..]);
    }
  }

  lemma {:induction false} PreOrderAllAppend<T>(nodes: Nodes<T>, next: nat, p: nat, ids: seq<nat>, c: nat)
    requires WellFormed(nodes, next) && p in nodes && ChildIds(nodes, p, ids) && ChildIds(nodes, p, ids + [c])
    requires c in nodes && p < c
    ensures PreOrderAll(nodes, next, p, ids + [c])
         == PreOrderAll(nodes, next, p, ids) + PreOrder(nodes, next, c)
    decreases |ids|
  {
    if ids == [] {
      assert ([] + [c])[1..] == [];
    } else {
      assert (ids + [c])[1..] == ids[1..] + [c];
      assert ids[0] in ids + [c];
      PreOrderAllAppend(nodes, next, p, ids[1..], c);
    }
  }

  /** The state after AddChild(p, v): the new node `id` is appended to `p`'s children. */
  function AddedChild<T>(nodes: Nodes<T>, p: nat, id: nat, v: T): Nodes<T>
    requires p in nodes
  {
    nodes[p := nodes[p].(children := nodes[p].children + [id])][id := Node(v, Some(p), [])]
  }

  lemma AddedChildWellFormed<T>(nodes: Nodes<T>, next: nat, p: nat, v: T)
    requires WellFormed(nodes, next) && p in nodes
    ensures WellFormed(AddedChild(nodes, p, next, v), next + 1)
    ensures AgreeFrom(nodes, AddedChild(nodes, p, next, v), p + 1)
  {
    var r := AddedChild(nodes, p, next, v);
    var wider := nodes[next := Node(v, Some(p), [])];
    LeafAddedWellFormed(nodes, next, Node(v, Some(p), []));
    forall c | c in nodes[p].children + [next]
      ensures c in wider && p < c
    {
      if c != next {
        ChildInRange(nodes, next, p, c);
      }
    }
    ReplacedWellFormed(wider, next + 1, p, nodes[p].(children := nodes[p].children + [next]));
    assert r == wider[p := nodes[p].(children := nodes[p].children + [next])];
    forall id | p + 1 <= id && id in nodes
      ensures id in r && nodes[id] == r[id]
    {
      assert id != next;
    }
  }

  /** A node with no children, whose parent exists, may take the id `next`. */
  lemma LeafAddedWellFormed<T>(nodes: Nodes<T>, next: nat, leaf: Node<T>)
    requires WellFormed(nodes, next) && leaf.children == []
    requires leaf.parent.Some? ==> leaf.parent.value in nodes
    ensures WellFormed(nodes[next := leaf], next + 1)
  {
    var wider := nodes[next := leaf];
    forall id | id in wider
      ensures id < next + 1
    {
      assert id in nodes || id == next;
    }
    assert IdsBelow(wider, next + 1);
    LeafAddedChildrenAfter(nodes, next, wider);
    forall id | id in wider && wider[id].parent.Some?
      ensures wider[id].parent.value in wider && wider[id].parent.value < id
    {
      if id != next {
        assert wider[id] == nodes[id];
      }
    }
    assert ParentsBefore(wider);
  }

  /** Adding a childless node keeps every child after its parent. */
  lemma LeafAddedChildrenAfter<T>(nodes: Nodes<T>, next: nat, r: Nodes<T>)
    requires WellFormed(nodes, next) && next in r && r[next].children == []
    requires forall id :: id in nodes ==> id in r
    requires forall id :: id in r && id != next ==> id in nodes && r[id] == nodes[id]
    ensures ChildrenAfter(r)
  {
    forall id, c | id in r && c in r[id].children
      ensures c in r && id < c
    {
      if id != next {
        ChildInRange(nodes, next, id, c);
      }
    }
  }

  /** After AddChild(p, v), flattening `p` yields what it yielded before, followed by `v`. */
  lemma AddChildExtendsFlatten<T>(nodes: Nodes<T>, next: nat, p: nat, v: T)
    requires WellFormed(nodes, next) && p in nodes
    ensures WellFormed(AddedChild(nodes, p, next, v), next + 1)
    ensures PreOrder(AddedChild(nodes, p, next, v), next + 1, p) == PreOrder(nodes, next, p) + [v]
  {
    var r := AddedChild(nodes, p, next, v);
    AddedChildWellFormed(nodes, next, p, v);
    assert p in r && r[p] == nodes[p].(children := nodes[p].children + [next]);
    assert next in r && r[next] == Node(v, Some(p), []);
    LeafAppendedFlatten(nodes, next, r, p, v);
  }

  lemma LeafAppendedFlatten<T>(nodes: Nodes<T>, next: nat, r: Nodes<T>, p: nat, v: T)
    requires WellFormed(nodes, next) && WellFormed(r, next + 1) && p in nodes
    requires AgreeFrom(nodes, r, p + 1)
    requires p in r && r[p] == nodes[p].(children := nodes[p].children + [next])
    requires next in r && r[next] == Node(v, Some(p), [])
    ensures PreOrder(r, next + 1, p) == PreOrder(nodes, next, p) + [v]
  {
    var ids := nodes[p].children;
    AppendedChildIds(nodes, next, r, p);
    assert PreOrder(r, next + 1, p) == [nodes[p].value] + PreOrderAll(r, next + 1, p, ids + [next]);
    PreOrderAllAppend(r, next + 1, p, ids, next);
    LeafFlatten(r, next + 1, next);
    PreOrderAllFrame(nodes, next, r, next + 1, p, ids);
    assert PreOrder(nodes, next, p) == [nodes[p].value] + PreOrderAll(nodes, next, p, ids);
  }

  lemma AppendedChildIds<T>(nodes: Nodes<T>, next: nat, r: Nodes<T>, p: nat)
    requires WellFormed(nodes, next) && p in nodes && next in r
    requires AgreeFrom(nodes, r, p + 1)
    ensures var ids := nodes[p].children;
      ChildIds(nodes, p, ids) && ChildIds(r, p, ids) && ChildIds(r, p, ids + [next])
  {
    var ids := nodes[p].children;
    forall k | 0 <= k < |ids + [next]|
      ensures (ids + [next])[k] in r && p < (ids + [next])[k]
    {
      if k < |ids| {
        assert (ids + [next])[k] == ids[k] && ids[k] in ids;
        ChildInRange(nodes, next, p, ids[k]);
      } else {
        assert p < next;
      }
    }
    forall k | 0 <= k < |ids|
      ensures ids[k] in nodes && p < ids[k]
    {
      assert ids[k] in ids;
      ChildInRange(nodes, next, p, ids[k]);
    }
  }

  /** A node without children flattens to its own value alone. */
  lemma LeafFlatten<T>(nodes: Nodes<T>, next: nat, id: nat)
    requires WellFormed(nodes, next) && id in nodes && nodes[id].children == []
    ensures PreOrder(nodes, next, id) == [nodes[id].value]
  {
    assert PreOrderAll(nodes, next, id, []) == [];
  }

  /** The nodes `ids` are the leaves of `p` holding `values`, at consecutive ids from `lo`. */
  ghost predicate NewLeaves<T>(nodes: Nodes<T>, p: nat, lo: nat, ids: seq<nat>, values: seq<T>)
  {
    && |ids| <= |values|
    && forall j :: 0 <= j < |ids| ==>
         ids[j] == lo + j && ids[j] in nodes && nodes[ids[j]] == Node(values[j], Some(p), [])
  }

  lemma NewLeavesGrow<T>(nodes: Nodes<T>, p: nat, lo: nat, ids: seq<nat>, values: seq<T>, id: nat)
    requires p in nodes && p < lo && NewLeaves(nodes, p, lo, ids, values) && |ids| < |values|
    requires id == lo + |ids|
    ensures NewLeaves(AddedChild(nodes, p, id, values[|ids|]), p, lo, ids + [id], values)
  {
    var r := AddedChild(nodes, p, id, values[|ids|]);
    forall j | 0 <= j < |ids|
      ensures ids[j] in r && r[ids[j]] == nodes[ids[j]]
    {
      assert ids[j] != id && ids[j] != p;
    }
  }

  /**
   `after` is `before` with the nodes `ids` added under `p`: `p` keeps its
   value and parent and its list gains `ids` at the end, the only new nodes
   are `ids`, and every other node is unchanged.
   */
  ghost predicate LeavesAdded<T>(before: Nodes<T>, after: Nodes<T>, p: nat, ids: seq<nat>)
  {
    && p in before && p in after
    && after[p] == before[p].(children := before[p].children + ids)
    && after.Keys == before.Keys + (set id | id in ids)
    && (forall id :: id in before && id != p ==> id in after && after[id] == before[id])
  }

  lemma LeavesAddedGrow<T>(before: Nodes<T>, mid: Nodes<T>, p: nat, ids: seq<nat>, id: nat, v: T)
    requires LeavesAdded(before, mid, p, ids) && id !in before
    ensures LeavesAdded(before, AddedChild(mid, p, id, v), p, ids + [id])
  {
    var after := AddedChild(mid, p, id, v);
    assert (set x | x in ids + [id]) == (set x | x in ids) + {id};
    assert after[p].children == mid[p].children + [id];
    assert before[p].children + ids + [id] == before[p].children + (ids + [id]);
  }

  lemma ValuesKeptTrans<T>(a: Nodes<T>, b: Nodes<T>, c: Nodes<T>)
    requires ValuesKept(a, b) && ValuesKept(b, c)
    ensures ValuesKept(a, c)
  {
  }

  /**
   The rose tree as an object: TreeNode<T> instances are the entries of
   `nodes`, and a reference to a TreeNode is its id.
   */
  class Arena<T> {
    var nodes: Nodes<T>
    var next: nat

    ghost predicate Valid()
      reads this
    {
      WellFormed(nodes, next)
    }

    /** `new TreeNode<T>(value)`: a single root, id 0, with no parent and no children. */
    constructor (value: T)
      ensures Valid()
      ensures nodes == map[0 := Node(value, None, [])] && next == 1
    {
      nodes := map[0 := Node(value, None, [])];
      next := 1;
    }

    /** The indexer `this[i]`: the i-th child, or None where the source throws. */
    function ChildAt(p: nat, i: int): (c: Option<nat>)
      reads this
      requires Valid() && p in nodes
      ensures c.Some? <==> 0 <= i < |nodes[p].children|
      ensures c.Some? ==> c.value == nodes[p].children[i] && c.value in nodes && p < c.value
    {
      if 0 <= i < |nodes[p].children| then Some(nodes[p].children[i]) else None
    }

    /**
     AddChild: a fresh node with value `v`, parent `p` and no children is
     appended at the end of `p`'s child list; nothing else changes.
     */
    method AddChild(p: nat, v: T) returns (id: nat)
      requires Valid() && p in nodes
      modifies this
      ensures Valid()
      ensures id == old(next) && id !in old(nodes) && next == old(next) + 1
      ensures nodes == AddedChild(old(nodes), p, id, v)
      ensures nodes[p].children == old(nodes[p].children) + [id]
      ensures ValuesKept(old(nodes), nodes)
    {
      id := next;
      AddedChildWellFormed(nodes, next, p, v);
      nodes := AddedChild(nodes, p, id, v);
      next := next + 1;
      assert nodes[p].children == old(nodes[p].children) + [id];
      forall k | k in old(nodes)
        ensures k in nodes && nodes[k].value == old(nodes)[k].value
      {
        assert k != id;
      }
    }

    /**
     AddChildren: AddChild for each value in order; the new nodes take
     consecutive fresh ids and are appended to `p`'s child list in that order.
     */
    method AddChildren(p: nat, values: seq<T>) returns (ids: seq<nat>)
      requires Valid() && p in nodes
      modifies this
      ensures Valid() && next == old(next) + |values| && |ids| == |values|
      ensures NewLeaves(nodes, p, old(next), ids, values)
      ensures LeavesAdded(old(nodes), nodes, p, ids)
      ensures ValuesKept(old(nodes), nodes)
    {
      ids := [];
      assert p < next;
      for k := 0 to |values|
        invariant Valid() && p in nodes && p < old(next) && next == old(next) + k && |ids| == k
        invariant NewLeaves(nodes, p, old(next), ids, values)
        invariant LeavesAdded(old(nodes), nodes, p, ids)
        invariant ValuesKept(old(nodes), nodes)
      {
        ghost var before := nodes;
        var id := AddChild(p, values[k]);
        NewLeavesGrow(before, p, old(next), ids, values, id);
        LeavesAddedGrow(old(nodes), before, p, ids, id, values[k]);
        ValuesKeptTrans(old(nodes), before, nodes);
        ids := ids + [id];
      }
    }

    /**
     ConnectChild: `c` is appended at the end of `p`'s child list and its
     parent becomes `p`; it is not removed from a previous parent's list.
     */
    method ConnectChild(p: nat, c: nat)
      requires Valid() && p in nodes && c in nodes && p < c
      modifies this
      ensures Valid() && next == old(next)
      ensures nodes == old(nodes)[p := old(nodes)[p].(children := old(nodes)[p].children + [c])]
                                 [c := old(nodes)[c].(parent := Some(p))]
    {
      forall x | x in nodes[p].children + [c]
        ensures x in nodes && p < x
      {
        if x != c {
          ChildInRange(nodes, next, p, x);
        }
      }
      var n1 := nodes[p := nodes[p].(children := nodes[p].children + [c])];
      ReplacedWellFormed(nodes, next, p, nodes[p].(children := nodes[p].children + [c]));
      assert n1[c] == nodes[c];
      forall x | x in n1[c].children
        ensures x in n1 && c < x
      {
        ChildInRange(nodes, next, c, x);
      }
      ReplacedWellFormed(n1, next, c, n1[c].(parent := Some(p)));
      nodes := n1[c := n1[c].(parent := Some(p))];
    }

    /**
     RemoveChild: the first occurrence of `c` leaves `p`'s child list, the
     others keep their order; the result says whether `c` was there. The
     removed node keeps its parent field.
     */
    method RemoveChild(p: nat, c: nat) returns (removed: bool)
      requires Valid() && p in nodes
      modifies this
      ensures Valid() && next == old(next)
      ensures removed <==> c in old(nodes[p].children)
      ensures nodes == old(nodes)[p := old(nodes)[p].(children := RemoveFirst(old(nodes)[p].children, c))]
    {
      removed := c in nodes[p].children;
      var s := nodes[p].children;
      var kept := RemoveFirst(s, c);
      forall x | x in kept
        ensures x in nodes && p < x
      {
        if c in s {
          assert multiset(kept) <= multiset(s);
        }
        assert x in s;
        ChildInRange(nodes, next, p, x);
      }
      ReplacedWellFormed(nodes, next, p, nodes[p].(children := kept));
      nodes := nodes[p := nodes[p].(children := kept)];
    }

    /** RemoveSelf: see RemovedSelf, SpliceRemoval and RootRemoval. */
    method RemoveSelf(m: nat)
      requires Valid() && m in nodes
      modifies this
      ensures Valid() && next == old(next)
      ensures nodes == RemovedSelf(old(nodes), m)
    {
      var n := nodes[m];
      if n.parent.None? {
        nodes := nodes[m := n.(children := [])];
        RootRemoval(old(nodes), next, m);
      } else {
        var p := n.parent.value;
        assert p !in n.children;
        assert n.children[..0] == [];
        ConnectedShape(nodes, p, []);
        assert nodes[p].children + [] == nodes[p].children;
        assert Connected(nodes, p, []) == nodes;
        var i := 0;
        while i < |n.children|
          invariant 0 <= i <= |n.children| && Valid() && next == old(next)
          invariant nodes == Connected(old(nodes), p, n.children[..i])
        {
          var c := n.children[i];
          ghost var cs := n.children[..i];
          assert cs + [c] == n.children[..i + 1];
          assert c in old(nodes)[m].children;
          assert c in old(nodes) && m < c;
          assert p !in cs;
          ConnectedShape(old(nodes), p, cs);
          ConnectedStep(old(nodes), p, cs, c);
          ConnectChild(p, c);
          assert nodes == Connected(old(nodes), p, cs + [c]);
          i := i + 1;
        }
        assert n.children[..i] == n.children;
        ConnectedShape(old(nodes), p, n.children);
        ghost var joined := nodes;
        var _ := RemoveChild(p, m);
        assert nodes == joined[p := joined[p].(children := RemoveFirst(joined[p].children, m))];
      }
    }

    /** Flatten, as the sequence it enumerates. */
    function Flatten(id: nat): (s: seq<T>)
      reads this
      requires Valid() && id in nodes
      ensures ChildIds(nodes, id, nodes[id].children)
              && s == [nodes[id].value] + PreOrderAll(nodes, next, id, nodes[id].children)
      ensures |s| == Size(nodes, next, id)
    {
      OwnChildIds(nodes, next, id);
      PreOrderLength(nodes, next, id);
      PreOrder(nodes, next, id)
    }

    /** Traverse(action): the values passed to `action`, in the order of the calls. */
    method Traverse(id: nat) returns (visited: seq<T>)
      requires Valid() && id in nodes
      ensures visited == PreOrder(nodes, next, id)
      decreases next - id
    {
      visited := [nodes[id].value];
      var ch := nodes[id].children;
      var i := 0;
      while i < |ch|
        invariant 0 <= i <= |ch| && ChildIds(nodes, id, ch[..i])
        invariant visited == [nodes[id].value] + PreOrderAll(nodes, next, id, ch[..i])
      {
        assert ch[i] in nodes[id].children;
        ChildInRange(nodes, next, id, ch[i]);
        assert ChildIds(nodes, id, ch[..i] + [ch[i]]);
        var sub := Traverse(ch[i]);
        PreOrderAllAppend(nodes, next, id, ch[..i], ch[i]);
        assert ch[..i + 1] == ch[..i] + [ch[i]];
        visited := visited + sub;
        i := i + 1;
      }
      assert ch[..i] == ch;
    }

    /** Reverse(action): the values passed to `action`, in the order of the calls. */
    method Reverse(id: nat) returns (visited: seq<T>)
      requires Valid() && id in nodes
      ensures visited == PostOrder(nodes, next, id)
      decreases next - id
    {
      visited := [];
      var ch := nodes[id].children;
      var i := 0;
      while i < |ch|
        invariant 0 <= i <= |ch| && ChildIds(nodes, id, ch[..i])
        invariant visited == PostOrderAll(nodes, next, id, ch[..i])
      {
        assert ch[i] in nodes[id].children;
        ChildInRange(nodes, next, id, ch[i]);
        assert ChildIds(nodes, id, ch[..i] + [ch[i]]);
        var sub := Reverse(ch[i]);
        PostOrderAllAppend(nodes, next, id, ch[..i], ch[i]);
        assert ch[..i + 1] == ch[..i] + [ch[i]];
        visited := visited + sub;
        i := i + 1;
      }
      assert ch[..i] == ch;
      visited := visited + [nodes[id].value];
    }
  }

  lemma {:induction false} PostOrderAllAppend<T>(nodes: Nodes<T>, next: nat, p: nat, ids: seq<nat>, c: nat)
    requires WellFormed(nodes, next) && p in nodes && ChildIds(nodes, p, ids) && ChildIds(nodes, p, ids + [c])
    requires c in nodes && p < c
    ensures PostOrderAll(nodes, next, p, ids + [c])
         == PostOrderAll(nodes, next, p, ids) + PostOrder(nodes, next, c)
    decreases |ids|
  {
    if ids == [] {
      assert ([] + [c])[1..] == [];
    } else {
      assert (ids + [c])[1..] == ids[1..] + [c];
      assert ids[0] in ids + [c];
      PostOrderAllAppend(nodes, next, p, ids[1..], c);
    }
  }

  /** The ids Flatten visits, in its order: the node, then each child's subtree in turn. */
  ghost function PreOrderIds<T>(nodes: Nodes<T>, next: nat, id: nat): seq<nat>
    requires WellFormed(nodes, next) && id in nodes
    decreases next - id, 1
  {
    [id] + PreOrderIdsAll(nodes, next, id, nodes[id].children)
  }

  ghost function PreOrderIdsAll<T>(nodes: Nodes<T>, next: nat, p: nat, ids: seq<nat>): seq<nat>
    requires WellFormed(nodes, next) && p in nodes && ChildIds(nodes, p, ids)
    decreases next - p, 0, |ids|
  {
    if ids == [] then []
    else PreOrderIds(nodes, next, ids[0]) + PreOrderIdsAll(nodes, next, p, ids[1..])
  }

  /** A sequence that holds no element twice. */
  ghost predicate Distinct(s: seq<nat>)
  {
    forall x :: multiset(s)[x] <= 1
  }

  /** A walk visits only nodes of the arena: its root, then nodes after it. */
  lemma {:induction false} PreOrderIdsRange<T>(nodes: Nodes<T>, next: nat, id: nat)
    requires WellFormed(nodes, next) && id in nodes
    ensures forall y :: y in PreOrderIds(nodes, next, id) ==> y in nodes && id <= y
    decreases next - id, 1
  {
    PreOrderIdsAllRange(nodes, next, id, nodes[id].children);
  }

  lemma {:induction false} PreOrderIdsAllRange<T>(nodes: Nodes<T>, next: nat, p: nat, ids: seq<nat>)
    requires WellFormed(nodes, next) && p in nodes && ChildIds(nodes, p, ids)
    ensures forall y :: y in PreOrderIdsAll(nodes, next, p, ids) ==> y in nodes && p < y
    decreases next - p, 0, |ids|
  {
    if ids != [] {
      PreOrderIdsRange(nodes, next, ids[0]);
      PreOrderIdsAllRange(nodes, next, p, ids[1..]);
    }
  }

  lemma {:induction false} PreOrderIdsAllConcat<T>(nodes: Nodes<T>, next: nat, p: nat, a: seq<nat>, b: seq<nat>)
    requires WellFormed(nodes, next) && p in nodes && ChildIds(nodes, p, a) && ChildIds(nodes, p, b)
    ensures ChildIds(nodes, p, a + b)
    ensures PreOrderIdsAll(nodes, next, p, a + b)
         == PreOrderIdsAll(nodes, next, p, a) + PreOrderIdsAll(nodes, next, p, b)
    decreases |a|
  {
    if a == [] {
      assert a + b == b;
    } else {
      var ab := a + b;
      assert ab[0] == a[0] && ab[1..] == a[1..] + b;
      assert ChildIds(nodes, p, a[1..]);
      PreOrderIdsAllConcat(nodes, next, p, a[1..], b);
      var head := PreOrderIds(nodes, next, a[0]);
      assert PreOrderIdsAll(nodes, next, p, ab) == head + PreOrderIdsAll(nodes, next, p, ab[1..]);
      assert PreOrderIdsAll(nodes, next, p, a) == head + PreOrderIdsAll(nodes, next, p, a[1..]);
      AppendAssoc(head, PreOrderIdsAll(nodes, next, p, a[1..]), PreOrderIdsAll(nodes, next, p, b));
    }
  }

  /** The walk of a list of children does not depend on which parent it is taken under. */
  lemma {:induction false} PreOrderIdsAllParent<T>(nodes: Nodes<T>, next: nat, p: nat, q: nat, ids: seq<nat>)
    requires WellFormed(nodes, next) && p in nodes && q in nodes
    requires ChildIds(nodes, p, ids) && ChildIds(nodes, q, ids)
    ensures PreOrderIdsAll(nodes, next, p, ids) == PreOrderIdsAll(nodes, next, q, ids)
    decreases |ids|
  {
    if ids != [] {
      PreOrderIdsAllParent(nodes, next, p, q, ids[1..]);
    }
  }

  /** `k` copies of `x`. */
  ghost function Copies<U>(x: U, k: nat): multiset<U>
  {
    multiset{}[x := k]
  }

  lemma CopiesAdd<U>(x: U, a: nat, b: nat)
    ensures Copies(x, a) + Copies(x, b) == Copies(x, a + b)
  {
    assert forall y :: (Copies(x, a) + Copies(x, b))[y] == Copies(x, a + b)[y];
  }

  /** Taking `m` out of `p`'s list and appending `m`'s children loses exactly `m` from the walk. */
  lemma SpliceLosesOne<T>(nodes: Nodes<T>, next: nat, p: nat, m: nat)
    requires WellFormed(nodes, next) && p in nodes && m in nodes[p].children
    ensures ChildIds(nodes, p, nodes[p].children)
    ensures ChildIds(nodes, p, RemoveFirst(nodes[p].children, m) + nodes[m].children)
    ensures multiset(PreOrderIdsAll(nodes, next, p, nodes[p].children))
         == multiset(PreOrderIdsAll(nodes, next, p, RemoveFirst(nodes[p].children, m) + nodes[m].children))
            + multiset{m}
  {
    var ch := nodes[p].children;
    var k := IndexOf(ch, m);
    var front, back := ch[..k], ch[k + 1..];
    assert ch == front + [m] + back;
    assert RemoveFirst(ch, m) == front + back;
    ChildInRange(nodes, next, p, m);
    OwnChildIds(nodes, next, p);
    ChildIdsSlices(nodes, p, ch, k);
    SpliceParts(nodes, next, p, m, front, back);
  }

  lemma SpliceParts<T>(nodes: Nodes<T>, next: nat, p: nat, m: nat, front: seq<nat>, back: seq<nat>)
    requires WellFormed(nodes, next) && p in nodes && m in nodes && p < m
    requires ChildIds(nodes, p, front) && ChildIds(nodes, p, back) && ChildIds(nodes, p, [m])
    ensures ChildIds(nodes, p, front + [m] + back)
    ensures ChildIds(nodes, p, front + back + nodes[m].children)
    ensures multiset(PreOrderIdsAll(nodes, next, p, front + [m] + back))
         == multiset(PreOrderIdsAll(nodes, next, p, front + back + nodes[m].children)) + multiset{m}
  {
    var cm := nodes[m].children;
    assert ChildIds(nodes, p, cm) by {
      OwnChildIds(nodes, next, m);
    }
    var a, b, c := PreOrderIdsAll(nodes, next, p, front), PreOrderIdsAll(nodes, next, p, back),
                   PreOrderIdsAll(nodes, next, p, cm);
    SpliceWhole(nodes, next, p, m, front, back);
    SpliceRest(nodes, next, p, front, back, cm);
    SpliceHead(nodes, next, p, m);
    SpliceMultiset(PreOrderIdsAll(nodes, next, p, front + [m] + back),
                   PreOrderIdsAll(nodes, next, p, front + back + cm), a, b, c, m);
  }

  lemma SpliceWhole<T>(nodes: Nodes<T>, next: nat, p: nat, m: nat, front: seq<nat>, back: seq<nat>)
    requires WellFormed(nodes, next) && p in nodes && m in nodes
    requires ChildIds(nodes, p, front) && ChildIds(nodes, p, back) && ChildIds(nodes, p, [m])
    ensures ChildIds(nodes, p, front + [m] + back)
    ensures PreOrderIdsAll(nodes, next, p, front + [m] + back)
         == PreOrderIdsAll(nodes, next, p, front) + PreOrderIds(nodes, next, m) + PreOrderIdsAll(nodes, next, p, back)
  {
    PreOrderIdsAllConcat(nodes, next, p, front, [m]);
    PreOrderIdsAllConcat(nodes, next, p, front + [m], back);
    assert PreOrderIdsAll(nodes, next, p, [m]) == PreOrderIds(nodes, next, m);
  }

  lemma SpliceRest<T>(nodes: Nodes<T>, next: nat, p: nat, front: seq<nat>, back: seq<nat>, cm: seq<nat>)
    requires WellFormed(nodes, next) && p in nodes
    requires ChildIds(nodes, p, front) && ChildIds(nodes, p, back) && ChildIds(nodes, p, cm)
    ensures ChildIds(nodes, p, front + back + cm)
    ensures PreOrderIdsAll(nodes, next, p, front + back + cm)
         == PreOrderIdsAll(nodes, next, p, front) + PreOrderIdsAll(nodes, next, p, back) + PreOrderIdsAll(nodes, next, p, cm)
  {
    PreOrderIdsAllConcat(nodes, next, p, front, back);
    PreOrderIdsAllConcat(nodes, next, p, front + back, cm);
  }

  lemma SpliceHead<T>(nodes: Nodes<T>, next: nat, p: nat, m: nat)
    requires WellFormed(nodes, next) && p in nodes && m in nodes && p < m
    ensures ChildIds(nodes, p, nodes[m].children)
    ensures PreOrderIds(nodes, next, m) == [m] + PreOrderIdsAll(nodes, next, p, nodes[m].children)
  {
    OwnChildIds(nodes, next, m);
    PreOrderIdsAllParent(nodes, next, m, p, nodes[m].children);
  }

  lemma ChildIdsSlices<T>(nodes: Nodes<T>, p: nat, ch: seq<nat>, k: nat)
    requires ChildIds(nodes, p, ch) && k < |ch|
    ensures ChildIds(nodes, p, ch[..k]) && ChildIds(nodes, p, ch[k + 1..]) && ChildIds(nodes, p, [ch[k]])
  {
    var back := ch[k + 1..];
    forall j | 0 <= j < |back|
      ensures back[j] in nodes && p < back[j]
    {
      assert back[j] == ch[k + 1 + j];
    }
  }

  lemma SpliceMultiset(whole: seq<nat>, spliced: seq<nat>, a: seq<nat>, b: seq<nat>, c: seq<nat>, m: nat)
    requires whole == a + ([m] + c) + b && spliced == a + b + c
    ensures multiset(whole) == multiset(spliced) + multiset{m}
  {
  }

  /**
   The child lists after RemoveSelf on `m` below `p`: `p`'s list spliced,
   every other list as before, the same nodes.
   */
  ghost predicate SplicedLists<T>(nodes: Nodes<T>, r: Nodes<T>, m: nat, p: nat)
  {
    && m in nodes && p in nodes && r.Keys == nodes.Keys
    && r[p].children == RemoveFirst(nodes[p].children, m) + nodes[m].children
    && (forall id :: id in nodes && id != p ==> r[id].children == nodes[id].children)
  }

  /**
   Each occurrence of `p` in a walk takes one occurrence of `m` out of it
   when `m` is spliced out of `p`'s list; nothing else changes in number.
   */
  lemma {:induction false} SplicedIds<T>(nodes: Nodes<T>, next: nat, r: Nodes<T>, m: nat, p: nat, x: nat)
    requires WellFormed(nodes, next) && WellFormed(r, next) && SplicedLists(nodes, r, m, p)
    requires m in nodes[p].children && x in nodes
    ensures multiset(PreOrderIds(r, next, x)) + Copies(m, multiset(PreOrderIds(nodes, next, x))[p])
         == multiset(PreOrderIds(nodes, next, x))
    decreases next - x, 2
  {
    if x == p {
      SplicedIdsAtParent(nodes, next, r, m, p);
      assert Copies(m, 1) == multiset{m};
    } else {
      var ch := nodes[x].children;
      assert r[x].children == ch;
      OwnChildIds(nodes, next, x);
      SplicedIdsAll(nodes, next, r, m, p, x, ch);
      var k := multiset(PreOrderIdsAll(nodes, next, x, ch))[p];
      CountCons(PreOrderIds(nodes, next, x), PreOrderIdsAll(nodes, next, x, ch), x, p);
      CopiesCons(PreOrderIds(nodes, next, x), PreOrderIdsAll(nodes, next, x, ch),
                 PreOrderIds(r, next, x), PreOrderIdsAll(r, next, x, ch), x, m, k);
    }
  }

  lemma {:induction false} SplicedIdsAtParent<T>(nodes: Nodes<T>, next: nat, r: Nodes<T>, m: nat, p: nat)
    requires WellFormed(nodes, next) && WellFormed(r, next) && SplicedLists(nodes, r, m, p)
    requires m in nodes[p].children
    ensures multiset(PreOrderIds(nodes, next, p))[p] == 1
    ensures multiset(PreOrderIds(r, next, p)) + multiset{m} == multiset(PreOrderIds(nodes, next, p))
    decreases next - p, 1
  {
    var l := RemoveFirst(nodes[p].children, m) + nodes[m].children;
    SpliceLosesOne(nodes, next, p, m);
    OwnChildIds(r, next, p);
    SplicedIdsAll(nodes, next, r, m, p, p, l);
    NotInOwnWalk(nodes, next, p, l);
    NotInOwnWalk(nodes, next, p, nodes[p].children);
    assert Copies(m, 0) == multiset{};
  }

  /** A parent never appears in the walk of its own children. */
  lemma NotInOwnWalk<T>(nodes: Nodes<T>, next: nat, p: nat, ids: seq<nat>)
    requires WellFormed(nodes, next) && p in nodes && ChildIds(nodes, p, ids)
    ensures multiset(PreOrderIdsAll(nodes, next, p, ids))[p] == 0
  {
    PreOrderIdsAllRange(nodes, next, p, ids);
  }

  lemma {:induction false} SplicedIdsAll<T>(nodes: Nodes<T>, next: nat, r: Nodes<T>, m: nat, p: nat, q: nat,
                                            ids: seq<nat>)
    requires WellFormed(nodes, next) && WellFormed(r, next) && SplicedLists(nodes, r, m, p)
    requires m in nodes[p].children && q in nodes && ChildIds(nodes, q, ids)
    ensures ChildIds(r, q, ids)
    ensures multiset(PreOrderIdsAll(r, next, q, ids)) + Copies(m, multiset(PreOrderIdsAll(nodes, next, q, ids))[p])
         == multiset(PreOrderIdsAll(nodes, next, q, ids))
    decreases next - q, 0, |ids|
  {
    SameKeysChildIds(nodes, r, q, ids);
    if ids != [] {
      var h, rest := ids[0], ids[1..];
      SplicedIds(nodes, next, r, m, p, h);
      SplicedIdsAll(nodes, next, r, m, p, q, rest);
      CopiesSplit(PreOrderIdsAll(r, next, q, ids), PreOrderIds(r, next, h), PreOrderIdsAll(r, next, q, rest),
                  PreOrderIdsAll(nodes, next, q, ids), PreOrderIds(nodes, next, h),
                  PreOrderIdsAll(nodes, next, q, rest), m, p);
    }
  }

  lemma SameKeysChildIds<T>(nodes: Nodes<T>, r: Nodes<T>, q: nat, ids: seq<nat>)
    requires r.Keys == nodes.Keys && ChildIds(nodes, q, ids)
    ensures ChildIds(r, q, ids) && (ids != [] ==> ChildIds(nodes, q, ids[1..]) && ChildIds(r, q, ids[1..]))
  {
  }

  /** The Copies equation of two walks carries over to their concatenation. */
  lemma CopiesSplit(a: seq<nat>, a0: seq<nat>, a1: seq<nat>, b: seq<nat>, b0: seq<nat>, b1: seq<nat>, m: nat, p: nat)
    requires a == a0 + a1 && b == b0 + b1
    requires multiset(a0) + Copies(m, multiset(b0)[p]) == multiset(b0)
    requires multiset(a1) + Copies(m, multiset(b1)[p]) == multiset(b1)
    ensures multiset(a) + Copies(m, multiset(b)[p]) == multiset(b)
  {
    CopiesAdd(m, multiset(b0)[p], multiset(b1)[p]);
  }

  /**
   RemoveSelf on a node `m` listed under its parent `p`, seen from any node
   `r` whose flattening contains `p` and repeats no node: afterwards the
   flattening of `r` holds exactly its old nodes except `m`, and still
   repeats none.
   */
  lemma RemoveSelfFlattenIds<T>(nodes: Nodes<T>, next: nat, m: nat, r: nat)
    requires WellFormed(nodes, next) && m in nodes && nodes[m].parent.Some? && r in nodes
    requires m in nodes[nodes[m].parent.value].children
    requires Distinct(PreOrderIds(nodes, next, r)) && nodes[m].parent.value in PreOrderIds(nodes, next, r)
    ensures nodes[m].parent.value !in nodes[m].children
    ensures RemovedSelf(nodes, m).Keys == nodes.Keys && WellFormed(RemovedSelf(nodes, m), next)
    ensures m in PreOrderIds(nodes, next, r)
    ensures multiset(PreOrderIds(RemovedSelf(nodes, m), next, r)) == multiset(PreOrderIds(nodes, next, r)) - multiset{m}
    ensures Distinct(PreOrderIds(RemovedSelf(nodes, m), next, r))
  {
    var p := nodes[m].parent.value;
    var after := RemovedSelf(nodes, m);
    RemovedSelfSpliced(nodes, next, m);
    SplicedIds(nodes, next, after, m, p, r);
    var b, a := PreOrderIds(nodes, next, r), PreOrderIds(after, next, r);
    assert multiset(b)[p] == 1;
    LosesOne(a, b, m, multiset(b)[p]);
  }

  /** RemoveSelf on a node with a parent splices the parent's list and keeps every other list. */
  lemma RemovedSelfSpliced<T>(nodes: Nodes<T>, next: nat, m: nat)
    requires WellFormed(nodes, next) && m in nodes && nodes[m].parent.Some?
    ensures nodes[m].parent.value !in nodes[m].children
    ensures RemovedSelf(nodes, m).Keys == nodes.Keys && WellFormed(RemovedSelf(nodes, m), next)
    ensures SplicedLists(nodes, RemovedSelf(nodes, m), m, nodes[m].parent.value)
  {
    var p := nodes[m].parent.value;
    SpliceRemoval(nodes, next, m);
    var after := RemovedSelf(nodes, m);
    forall id | id in nodes && id != p
      ensures after[id].children == nodes[id].children
    {
      if id in nodes[m].children {
        assert after[id] == nodes[id].(parent := Some(p));
      }
    }
  }

  /** A walk without repeats that loses the copies of `m` it held, held once. */
  lemma LosesOne(a: seq<nat>, b: seq<nat>, m: nat, k: nat)
    requires k == 1 && multiset(a) + Copies(m, k) == multiset(b) && Distinct(b)
    ensures m in b
    ensures multiset(a) == multiset(b) - multiset{m}
    ensures Distinct(a)
  {
    assert Copies(m, 1) == multiset{m};
    assert multiset(b)[m] >= 1;
    assert forall y :: multiset(a)[y] <= multiset(b)[y];
  }

  /** The nodes after AddChild(p, v) took the id `next`. */
  ghost predicate AppendedLeaf<T>(nodes: Nodes<T>, b: Nodes<T>, p: nat, next: nat, v: T)
  {
    && p in nodes && next !in nodes && b.Keys == nodes.Keys + {next}
    && b[p].value == nodes[p].value && b[p].children == nodes[p].children + [next]
    && b[next] == Node(v, Some(p), [])
    && (forall id :: id in nodes && id != p ==> b[id] == nodes[id])
  }

  /**
   AddChild(p, v) in the eyes of a walk from `x`: each occurrence of `p`
   brings one occurrence of the new node; nothing else changes in number.
   */
  lemma {:induction false} AddedIds<T>(nodes: Nodes<T>, next: nat, b: Nodes<T>, p: nat, v: T, x: nat)
    requires WellFormed(nodes, next) && WellFormed(b, next + 1) && AppendedLeaf(nodes, b, p, next, v)
    requires x in nodes
    ensures multiset(PreOrderIds(b, next + 1, x))
         == multiset(PreOrderIds(nodes, next, x)) + Copies(next, multiset(PreOrderIds(nodes, next, x))[p])
    decreases next - x, 2
  {
    if x == p {
      AddedIdsAtParent(nodes, next, b, p, v);
      assert Copies(next, 1) == multiset{next};
    } else {
      var ch := nodes[x].children;
      OwnChildIds(nodes, next, x);
      assert b[x] == nodes[x];
      AddedIdsAll(nodes, next, b, p, v, x, ch);
      CountCons(PreOrderIds(nodes, next, x), PreOrderIdsAll(nodes, next, x, ch), x, p);
      CopiesCons(PreOrderIds(b, next + 1, x), PreOrderIdsAll(b, next + 1, x, ch),
                 PreOrderIds(nodes, next, x), PreOrderIdsAll(nodes, next, x, ch), x, next,
                 multiset(PreOrderIdsAll(nodes, next, x, ch))[p]);
    }
  }

  lemma {:induction false} AddedIdsAtParent<T>(nodes: Nodes<T>, next: nat, b: Nodes<T>, p: nat, v: T)
    requires WellFormed(nodes, next) && WellFormed(b, next + 1) && AppendedLeaf(nodes, b, p, next, v)
    ensures multiset(PreOrderIds(nodes, next, p))[p] == 1
    ensures multiset(PreOrderIds(b, next + 1, p)) == multiset(PreOrderIds(nodes, next, p)) + multiset{next}
    decreases next - p, 1
  {
    var ch := nodes[p].children;
    OwnChildIds(nodes, next, p);
    ParentWalkAppended(nodes, next, b, p, v);
    AddedIdsAll(nodes, next, b, p, v, p, ch);
    NotInOwnWalk(nodes, next, p, ch);
    CountHead(PreOrderIds(nodes, next, p), PreOrderIdsAll(nodes, next, p, ch), p);
    CopiesSnoc(PreOrderIds(b, next + 1, p), PreOrderIdsAll(b, next + 1, p, ch),
               PreOrderIds(nodes, next, p), PreOrderIdsAll(nodes, next, p, ch), p, next);
  }

  /** After AddChild(p, v) the walk from `p` is the old children's walk with the new leaf at its end. */
  lemma ParentWalkAppended<T>(nodes: Nodes<T>, next: nat, b: Nodes<T>, p: nat, v: T)
    requires WellFormed(nodes, next) && WellFormed(b, next + 1) && AppendedLeaf(nodes, b, p, next, v)
    requires ChildIds(nodes, p, nodes[p].children)
    ensures PreOrderIds(b, next + 1, p) == [p] + PreOrderIdsAll(b, next + 1, p, nodes[p].children) + [next]
  {
    var ch := nodes[p].children;
    assert ChildIds(b, p, ch) && ChildIds(b, p, [next]);
    PreOrderIdsAllConcat(b, next + 1, p, ch, [next]);
    assert PreOrderIdsAll(b, next + 1, next, []) == [];
    assert PreOrderIdsAll(b, next + 1, p, [next]) == PreOrderIds(b, next + 1, next) == [next];
  }

  lemma {:induction false} AddedIdsAll<T>(nodes: Nodes<T>, next: nat, b: Nodes<T>, p: nat, v: T, q: nat,
                                          ids: seq<nat>)
    requires WellFormed(nodes, next) && WellFormed(b, next + 1) && AppendedLeaf(nodes, b, p, next, v)
    requires q in nodes && ChildIds(nodes, q, ids)
    ensures q in b && ChildIds(b, q, ids)
    ensures multiset(PreOrderIdsAll(b, next + 1, q, ids))
         == multiset(PreOrderIdsAll(nodes, next, q, ids)) + Copies(next, multiset(PreOrderIdsAll(nodes, next, q, ids))[p])
    decreases next - q, 0, |ids|
  {
    if ids != [] {
      AddedIds(nodes, next, b, p, v, ids[0]);
      AddedIdsAll(nodes, next, b, p, v, q, ids[1..]);
      CopiesJoin(PreOrderIdsAll(b, next + 1, q, ids), PreOrderIds(b, next + 1, ids[0]),
                 PreOrderIdsAll(b, next + 1, q, ids[1..]), PreOrderIdsAll(nodes, next, q, ids),
                 PreOrderIds(nodes, next, ids[0]), PreOrderIdsAll(nodes, next, q, ids[1..]), next,
                 multiset(PreOrderIds(nodes, next, ids[0]))[p], multiset(PreOrderIdsAll(nodes, next, q, ids[1..]))[p]);
    }
  }

  /** The same for the values of the walk: each occurrence of `p` brings one `v`. */
  lemma {:induction false} AddedValues<T>(nodes: Nodes<T>, next: nat, b: Nodes<T>, p: nat, v: T, x: nat)
    requires WellFormed(nodes, next) && WellFormed(b, next + 1) && AppendedLeaf(nodes, b, p, next, v)
    requires x in nodes
    ensures multiset(PreOrder(b, next + 1, x))
         == multiset(PreOrder(nodes, next, x)) + Copies(v, multiset(PreOrderIds(nodes, next, x))[p])
    decreases next - x, 2
  {
    if x == p {
      AddedValuesAtParent(nodes, next, b, p, v);
      assert Copies(v, 1) == multiset{v};
    } else {
      var ch := nodes[x].children;
      OwnChildIds(nodes, next, x);
      assert b[x] == nodes[x];
      AddedValuesAll(nodes, next, b, p, v, x, ch);
      CountCons(PreOrderIds(nodes, next, x), PreOrderIdsAll(nodes, next, x, ch), x, p);
      CopiesCons(PreOrder(b, next + 1, x), PreOrderAll(b, next + 1, x, ch),
                 PreOrder(nodes, next, x), PreOrderAll(nodes, next, x, ch), nodes[x].value, v,
                 multiset(PreOrderIdsAll(nodes, next, x, ch))[p]);
    }
  }

  lemma {:induction false} AddedValuesAtParent<T>(nodes: Nodes<T>, next: nat, b: Nodes<T>, p: nat, v: T)
    requires WellFormed(nodes, next) && WellFormed(b, next + 1) && AppendedLeaf(nodes, b, p, next, v)
    ensures multiset(PreOrderIds(nodes, next, p))[p] == 1
    ensures multiset(PreOrder(b, next + 1, p)) == multiset(PreOrder(nodes, next, p)) + multiset{v}
    decreases next - p, 1
  {
    var ch := nodes[p].children;
    OwnChildIds(nodes, next, p);
    ParentValuesAppended(nodes, next, b, p, v);
    AddedValuesAll(nodes, next, b, p, v, p, ch);
    NotInOwnWalk(nodes, next, p, ch);
    CountHead(PreOrderIds(nodes, next, p), PreOrderIdsAll(nodes, next, p, ch), p);
    CopiesSnoc(PreOrder(b, next + 1, p), PreOrderAll(b, next + 1, p, ch),
               PreOrder(nodes, next, p), PreOrderAll(nodes, next, p, ch), nodes[p].value, v);
  }

  /** After AddChild(p, v) the values of the walk from `p` end with `v`. */
  lemma ParentValuesAppended<T>(nodes: Nodes<T>, next: nat, b: Nodes<T>, p: nat, v: T)
    requires WellFormed(nodes, next) && WellFormed(b, next + 1) && AppendedLeaf(nodes, b, p, next, v)
    requires ChildIds(nodes, p, nodes[p].children)
    ensures PreOrder(b, next + 1, p) == [nodes[p].value] + PreOrderAll(b, next + 1, p, nodes[p].children) + [v]
  {
    var ch := nodes[p].children;
    assert ChildIds(b, p, ch) && ChildIds(b, p, ch + [next]);
    PreOrderAllAppend(b, next + 1, p, ch, next);
    LeafFlatten(b, next + 1, next);
  }

  lemma {:induction false} AddedValuesAll<T>(nodes: Nodes<T>, next: nat, b: Nodes<T>, p: nat, v: T, q: nat,
                                             ids: seq<nat>)
    requires WellFormed(nodes, next) && WellFormed(b, next + 1) && AppendedLeaf(nodes, b, p, next, v)
    requires q in nodes && ChildIds(nodes, q, ids)
    ensures q in b && ChildIds(b, q, ids)
    ensures multiset(PreOrderAll(b, next + 1, q, ids))
         == multiset(PreOrderAll(nodes, next, q, ids)) + Copies(v, multiset(PreOrderIdsAll(nodes, next, q, ids))[p])
    decreases next - q, 0, |ids|
  {
    if ids != [] {
      AddedValues(nodes, next, b, p, v, ids[0]);
      AddedValuesAll(nodes, next, b, p, v, q, ids[1..]);
      CopiesJoin(PreOrderAll(b, next + 1, q, ids), PreOrder(b, next + 1, ids[0]),
                 PreOrderAll(b, next + 1, q, ids[1..]), PreOrderAll(nodes, next, q, ids),
                 PreOrder(nodes, next, ids[0]), PreOrderAll(nodes, next, q, ids[1..]), v,
                 multiset(PreOrderIds(nodes, next, ids[0]))[p], multiset(PreOrderIdsAll(nodes, next, q, ids[1..]))[p]);
    }
  }

  /** A walk that starts at a node other than `p` counts `p` as often as its tail does. */
  lemma CountCons(w: seq<nat>, tail: seq<nat>, h: nat, p: nat)
    requires w == [h] + tail && h != p
    ensures multiset(w)[p] == multiset(tail)[p]
  {
  }

  /** A walk that starts at `p` and does not return to it counts `p` once. */
  lemma CountHead(w: seq<nat>, tail: seq<nat>, p: nat)
    requires w == [p] + tail && multiset(tail)[p] == 0
    ensures multiset(w)[p] == 1
  {
  }

  /** Equal heads keep the copies a tail gained. */
  lemma CopiesCons<U>(a: seq<U>, a1: seq<U>, b: seq<U>, b1: seq<U>, h: U, x: U, k: nat)
    requires a == [h] + a1 && b == [h] + b1
    requires multiset(a1) == multiset(b1) + Copies(x, k)
    ensures multiset(a) == multiset(b) + Copies(x, k)
  {
  }

  /** A walk with one more element `x` at its end, and an unchanged middle. */
  lemma CopiesSnoc<U>(a: seq<U>, a1: seq<U>, b: seq<U>, b1: seq<U>, h: U, x: U)
    requires a == [h] + a1 + [x] && b == [h] + b1
    requires multiset(a1) == multiset(b1) + Copies(x, 0)
    ensures multiset(a) == multiset(b) + multiset{x}
  {
    assert Copies(x, 0) == multiset{};
  }

  /** Two walks that each gain some copies of `x` gain their sum when concatenated. */
  lemma CopiesJoin<U>(a: seq<U>, a0: seq<U>, a1: seq<U>, b: seq<U>, b0: seq<U>, b1: seq<U>, x: U, k0: nat, k1: nat)
    requires a == a0 + a1 && b == b0 + b1
    requires multiset(a0) == multiset(b0) + Copies(x, k0)
    requires multiset(a1) == multiset(b1) + Copies(x, k1)
    ensures multiset(a) == multiset(b) + Copies(x, k0 + k1)
  {
    CopiesAdd(x, k0, k1);
  }

  /**
   AddChild(p, v) seen from any node `r` whose flattening contains `p` and
   repeats no node: afterwards the flattening of `r` holds exactly its old
   nodes and the new one, still repeats none, and its values gain exactly
   one `v`.
   */
  lemma AddChildFlattenIds<T>(nodes: Nodes<T>, next: nat, p: nat, v: T, r: nat)
    requires WellFormed(nodes, next) && p in nodes && r in nodes
    requires Distinct(PreOrderIds(nodes, next, r)) && p in PreOrderIds(nodes, next, r)
    ensures WellFormed(AddedChild(nodes, p, next, v), next + 1) && r in AddedChild(nodes, p, next, v)
    ensures multiset(PreOrderIds(AddedChild(nodes, p, next, v), next + 1, r))
         == multiset(PreOrderIds(nodes, next, r)) + multiset{next}
    ensures Distinct(PreOrderIds(AddedChild(nodes, p, next, v), next + 1, r))
    ensures multiset(PreOrder(AddedChild(nodes, p, next, v), next + 1, r))
         == multiset(PreOrder(nodes, next, r)) + multiset{v}
  {
    var b := AddedChild(nodes, p, next, v);
    AddedChildWellFormed(nodes, next, p, v);
    assert next !in nodes;
    assert AppendedLeaf(nodes, b, p, next, v);
    AddedIds(nodes, next, b, p, v, r);
    AddedValues(nodes, next, b, p, v, r);
    PreOrderIdsRange(nodes, next, r);
    var before := multiset(PreOrderIds(nodes, next, r));
    assert before[p] == 1 && before[next] == 0;
    assert Copies(next, 1) == multiset{next};
    assert Copies(v, 1) == multiset{v};
    assert forall y :: (before + multiset{next})[y] <= 1;
  }
}
