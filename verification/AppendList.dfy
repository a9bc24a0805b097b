/**
 * The lock-free append-only list: a heap of nodes, each with an atomic `next`
 * pointer, and the pointer of the list itself.
 */
module AppendList {
  import opened Prelude

  type NodeId = nat

  /** An `AtomicPtr` of the structure: the list's own one or the `next` of a node. */
  datatype Loc = Root | NextOf(node: NodeId)

  datatype Node<+T> = Node(value: T, next: Option<NodeId>)

  datatype Heap<+T> = Heap(root: Option<NodeId>, nodes: seq<Node<T>>) {
    predicate Has(l: Loc) {
      l.NextOf? ==> l.node < |nodes|
    }

    function Load(l: Loc): Option<NodeId>
      requires Has(l)
    {
      if l.Root? then root else nodes[l.node].next
    }

    function Store(l: Loc, p: Option<NodeId>): Heap<T>
      requires Has(l)
    {
      if l.Root? then this.(root := p)
      else this.(nodes := nodes[l.node := nodes[l.node].(next := p)])
    }

    /** A fresh private chain of nodes holding `values`, in order. */
    function Allocate(values: seq<T>): Heap<T> {
      this.(nodes := nodes + seq(|values|, i requires 0 <= i < |values| =>
        Node(values[i], if i + 1 < |values| then Some(|nodes| + i + 1) else None)))
    }

    /** The pointer to that chain. */
    function AllocatedHead(values: seq<T>): Option<NodeId> {
      if values == [] then None else Some(|nodes|)
    }

    /** The nodes met by following `next` from `p`, at most `fuel` of them. */
    function Walk(p: Option<NodeId>, fuel: nat): (ids: seq<NodeId>)
      ensures Within(ids, |nodes|)
      decreases fuel
    {
      if p.None? || fuel == 0 || p.value >= |nodes| then []
      else [p.value] + Walk(nodes[p.value].next, fuel - 1)
    }

    /** The chain hanging off `p`; no acyclic chain is longer than the heap. */
    function Chain(p: Option<NodeId>): (ids: seq<NodeId>)
      ensures Within(ids, |nodes|)
    {
      Walk(p, |nodes|)
    }

    /** The list a reader starting at the list's own pointer would see. */
    function List(): (ids: seq<NodeId>)
      ensures Within(ids, |nodes|)
    {
      Chain(root)
    }

    function ValuesOf(ids: seq<NodeId>): (vs: seq<T>)
      requires Within(ids, |nodes|)
      ensures |vs| == |ids|
      ensures forall i :: 0 <= i < |ids| ==> vs[i] == nodes[ids[i]].value
    {
      seq(|ids|, i requires 0 <= i < |ids| => nodes[ids[i]].value)
    }

    function Values(): seq<T> {
      ValuesOf(List())
    }

    /** `ids` is the null-terminated chain starting at `p`. */
    ghost predicate IsChain(p: Option<NodeId>, ids: seq<NodeId>) {
      && p == At(ids, 0)
      && Within(ids, |nodes|)
      && (forall i :: 0 <= i < |ids| ==> nodes[ids[i]].next == At(ids, i + 1))
    }
  }

  function At(ids: seq<NodeId>, k: nat): Option<NodeId> {
    if k < |ids| then Some(ids[k]) else None
  }

  /** The atomic pointer that refers to element `k` of the list, or is null at its end. */
  function LocAt(ids: seq<NodeId>, k: nat): Loc
    requires k <= |ids|
  {
    if k == 0 then Root else NextOf(ids[k - 1])
  }

  /** A chain determines what a walk sees. */
  lemma {:induction false} WalkFollowsChain<T>(h: Heap<T>, p: Option<NodeId>, ids: seq<NodeId>, fuel: nat)
    requires h.IsChain(p, ids) && |ids| <= fuel
    ensures h.Walk(p, fuel) == ids
    decreases fuel
  {
    if ids != [] {
      var rest := ids[1..];
      assert h.IsChain(h.nodes[ids[0]].next, rest) by {
        assert forall i :: 0 <= i < |rest| ==> rest[i] == ids[i + 1];
        forall i | 0 <= i < |rest| ensures h.nodes[rest[i]].next == At(rest, i + 1) {
          assert h.nodes[ids[i + 1]].next == At(ids, i + 2);
        }
      }
      WalkFollowsChain(h, h.nodes[ids[0]].next, rest, fuel - 1);
    }
  }

  lemma ChainIsWalk<T>(h: Heap<T>, p: Option<NodeId>, ids: seq<NodeId>)
    requires h.IsChain(p, ids) && Distinct(ids)
    ensures h.Chain(p) == ids
  {
    DistinctBelow(ids, |h.nodes|);
    WalkFollowsChain(h, p, ids, |h.nodes|);
  }

  /** Publishing `extra` at the end of `list` makes one longer list. */
  lemma LinkExtends<T>(h: Heap<T>, list: seq<NodeId>, p: Option<NodeId>, extra: seq<NodeId>)
    requires h.IsChain(h.root, list) && h.IsChain(p, extra)
    requires Distinct(list) && forall id :: id in list ==> id !in extra
    ensures h.Has(LocAt(list, |list|))
    ensures var h' := h.Store(LocAt(list, |list|), p);
            h'.IsChain(h'.root, list + extra)
  {
    var l := LocAt(list, |list|);
    var h' := h.Store(l, p);
    var all := list + extra;
    forall i | 0 <= i < |all| ensures h'.nodes[all[i]].next == At(all, i + 1) {
      if i >= |list| {
        assert all[i] == extra[i - |list|] && all[i] in extra;
      }
    }
  }

  /** A store into a node outside a chain leaves the chain alone. */
  lemma StoreKeepsOtherChain<T>(h: Heap<T>, l: Loc, v: Option<NodeId>, p: Option<NodeId>, ids: seq<NodeId>)
    requires h.Has(l) && h.IsChain(p, ids)
    requires l.NextOf? ==> l.node !in ids
    ensures h.Store(l, v).IsChain(p, ids)
  {
  }

  /** The `n` nodes that an allocation adds to `first` existing ones. */
  function NewIds(first: nat, n: nat): (ids: seq<NodeId>)
    ensures |ids| == n && forall i :: 0 <= i < n ==> ids[i] == first + i
  {
    seq(n, i => first + i)
  }

  /** Allocation creates a chain for the new values. */
  lemma AllocateMakesChain<T>(h: Heap<T>, values: seq<T>) returns (added: seq<NodeId>)
    ensures added == NewIds(|h.nodes|, |values|)
    ensures h.Allocate(values).IsChain(h.AllocatedHead(values), added)
    ensures Distinct(added)
    ensures h.Allocate(values).ValuesOf(added) == values
  {
    added := NewIds(|h.nodes|, |values|);
    var h' := h.Allocate(values);
    forall i | 0 <= i < |values|
      ensures h'.nodes[added[i]] == Node(values[i], At(added, i + 1))
    {
      assert added[i] == |h.nodes| + i;
    }
  }

  /** Allocation leaves existing chains alone. */
  lemma AllocateKeepsChain<T>(h: Heap<T>, values: seq<T>, p: Option<NodeId>, ids: seq<NodeId>)
    requires h.IsChain(p, ids)
    ensures h.Allocate(values).IsChain(p, ids)
    ensures h.Allocate(values).ValuesOf(ids) == h.ValuesOf(ids)
  {
  }

  lemma LinkedList<T>(h: Heap<T>, list: seq<NodeId>, p: Option<NodeId>, extra: seq<NodeId>)
    requires h.IsChain(h.root, list) && h.IsChain(p, extra)
    requires Distinct(list) && Distinct(extra) && forall id :: id in list ==> id !in extra
    ensures h.Has(LocAt(list, |list|))
    ensures var h' := h.Store(LocAt(list, |list|), p);
            h'.List() == list + extra && h'.IsChain(h'.root, list + extra) && Distinct(list + extra)
  {
    LinkExtends(h, list, p, extra);
    DistinctConcat(list, extra);
    var h' := h.Store(LocAt(list, |list|), p);
    ChainIsWalk(h', h'.root, list + extra);
  }

  /** The list as the object its owner calls, one call at a time. */
  class SharedList<T> {
    var heap: Heap<T>

    ghost predicate Valid()
      reads this
    {
      heap.IsChain(heap.root, heap.List()) && Distinct(heap.List())
    }

    constructor ()
      ensures Valid() && heap.Values() == []
    {
      heap := Heap(None, []);
    }

    /** The loop of `append_ptr`; the weak exchange fails `spurious` times for no reason. */
    method AppendPtr(p: Option<NodeId>, ghost extra: seq<NodeId>, spurious: nat)
      requires Valid() && heap.IsChain(p, extra) && Distinct(extra)
      requires forall id :: id in heap.List() ==> id !in extra
      modifies this
      ensures Valid() && heap.List() == old(heap.List()) + extra
      ensures |heap.nodes| == |old(heap.nodes)|
      ensures forall id :: 0 <= id < |heap.nodes| ==> heap.nodes[id].value == old(heap.nodes[id].value)
    {
      ghost var list := heap.List();
      ghost var k := 0;
      var at, failures := Root, spurious;
      ghost var h := heap;
      while true
        invariant k <= |list| && at == LocAt(list, k) && heap == h
        decreases |list| - k, failures
      {
        assert k > 0 ==> h.nodes[list[k - 1]].next == At(list, k);
        var head := heap.Load(at);
        if head.Some? {
          at, k := NextOf(head.value), k + 1;
        } else if failures > 0 {
          failures := failures - 1;
        } else {
          LinkedList(heap, list, p, extra);
          heap := heap.Store(at, p);
          return;
        }
      }
    }

    /** `append` and `append_list`: the values go to the end, as a block. */
    method AppendValues(values: seq<T>, spurious: nat)
      requires Valid()
      modifies this
      ensures Valid() && heap.Values() == old(heap.Values()) + values
    {
      ghost var list := heap.List();
      ghost var added := AllocateMakesChain(heap, values);
      AllocateKeepsChain(heap, values, heap.root, list);
      var p := heap.AllocatedHead(values);
      heap := heap.Allocate(values);
      ChainIsWalk(heap, heap.root, list);
      ghost var h := heap;
      AppendPtr(p, added, spurious);
      ValuesAgree(h, heap, list, added);
    }
  }

  lemma ValuesAgree<T>(h: Heap<T>, h': Heap<T>, a: seq<NodeId>, b: seq<NodeId>)
    requires |h.nodes| == |h'.nodes| && Within(a, |h.nodes|) && Within(b, |h.nodes|)
    requires forall id :: 0 <= id < |h.nodes| ==> h'.nodes[id].value == h.nodes[id].value
    ensures Within(a + b, |h.nodes|)
    ensures h'.ValuesOf(a + b) == h.ValuesOf(a) + h.ValuesOf(b)
  {
  }

  /** An iterator: a cursor into the list. */
  class AppendListIterator<T> {
    const list: SharedList<T>
    var at: Loc
    ghost var yielded: seq<NodeId>

    ghost predicate Valid()
      reads this, list
    {
      && list.Valid()
      && yielded <= list.heap.List()
      && at == LocAt(list.heap.List(), |yielded|)
    }

    constructor (list: SharedList<T>)
      requires list.Valid()
      ensures Valid() && yielded == [] && this.list == list
    {
      this.list := list;
      at, yielded := Root, [];
    }

    method Next() returns (r: Option<T>)
      requires Valid()
      modifies this
      ensures Valid()
      ensures r.None? ==> yielded == old(yielded) == list.heap.List()
      ensures r.Some? ==>
        && |yielded| == |old(yielded)| + 1 && yielded[..|old(yielded)|] == old(yielded)
        && r.value == list.heap.Values()[|old(yielded)|]
    {
      ghost var ids := list.heap.List();
      ghost var k := |yielded|;
      assert k > 0 ==> list.heap.nodes[ids[k - 1]].next == At(ids, k);
      var p := list.heap.Load(at);
      if p.None? {
        return None;
      }
      at, yielded := NextOf(p.value), yielded + [p.value];
      return Some(list.heap.nodes[p.value].value);
    }
  }
}
