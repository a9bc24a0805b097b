/**
 * The type map on top of the append-only list: what a cell gives to a reader,
 * and what the first match in a sequence of cells is.
 */
module UserDataCells {
  import opened Prelude

  type TypeId = nat
  type ThreadId = nat

  /** A boxed value together with its dynamic type. */
  datatype Any = Any(ty: TypeId, content: int)

  datatype Inner = ThreadSafe(val: Any) | NonThreadSafe(val: Any, home: ThreadId)

  datatype Query = Query(ty: TypeId, thread: ThreadId)

  /** A cell: a once-set slot. */
  datatype UserData = UserData(inner: Option<Inner>) {
    /** What `get::<T>` gives to a thread. */
    function Get(q: Query): Option<int> {
      match inner
      case None => None
      case Some(ThreadSafe(val)) => if val.ty == q.ty then Some(val.content) else None
      case Some(NonThreadSafe(val, home)) =>
        if home == q.thread && val.ty == q.ty then Some(val.content) else None
    }

    /** `set` and `set_threadsafe`: the first initialisation stays. */
    function SetOnce(value: Inner): UserData {
      if inner.None? then UserData(Some(value)) else this
    }
  }

  const UNSET := UserData(None)

  /** A cell is set once: the first value is seen by those who may, and no later one replaces it. */
  lemma SetOnceKeepsFirst(first: Inner, second: Inner, q: Query)
    ensures UNSET.Get(q) == None && UNSET.SetOnce(first).SetOnce(second) == UNSET.SetOnce(first)
    ensures UNSET.SetOnce(first).Get(q) ==
      if first.val.ty == q.ty && (first.ThreadSafe? || first.home == q.thread) then Some(first.val.content) else None
  {
  }

  /** The first `n` cells show nothing to `q`. */
  ghost predicate NoMatch(cells: seq<UserData>, n: nat, q: Query)
    requires n <= |cells|
  {
    forall i :: 0 <= i < n ==> cells[i].Get(q).None?
  }

  /** `v` is what the first cell visible to `q` holds. */
  ghost predicate IsFirstMatch(cells: seq<UserData>, q: Query, v: int) {
    exists i :: 0 <= i < |cells| && cells[i].Get(q) == Some(v) && NoMatch(cells, i, q)
  }

  /** The answer a lookup must give on a list with these cells. */
  ghost predicate IsAnswer(cells: seq<UserData>, q: Query, r: Option<int>) {
    match r
    case None => NoMatch(cells, |cells|, q)
    case Some(v) => IsFirstMatch(cells, q, v)
  }

  /** There is only one answer, and appending never changes one that was found. */
  lemma AnswerIsStable(cells: seq<UserData>, more: seq<UserData>, q: Query, v: int, r: Option<int>)
    requires IsAnswer(cells, q, Some(v)) && IsAnswer(cells + more, q, r)
    ensures r == Some(v)
  {
    var i :| 0 <= i < |cells| && cells[i].Get(q) == Some(v) && NoMatch(cells, i, q);
    var all := cells + more;
    assert all[i] == cells[i];
    assert forall j :: 0 <= j < i ==> all[j] == cells[j];
    if r.Some? {
      var j :| 0 <= j < |all| && all[j].Get(q) == r && NoMatch(all, j, q);
    }
  }
}

/**
 * Any number of threads appending to, iterating over and looking up in one shared
 * list, one atomic memory access per step.
 */
module ConcurrentUserData {
  import opened Prelude
  import opened AppendList
  import opened UserDataCells

  type TaskId = nat

  /** A call in progress. */
  datatype Task =
    /** `append_ptr(p)`, about to try its compare-exchange on `at`. */
    | Appending(at: Loc, p: Option<NodeId>)
    /**
     * An iterator standing at `at`, which may be polled again after it gave `None`; a
     * lookup is one that ends at the first match or at the end of the list.
     */
    | Iterating(at: Loc, yielded: seq<NodeId>, query: Option<Query>)

  datatype State = State(heap: Heap<UserData>, tasks: map<TaskId, Task>)

  const START := State(Heap(None, []), map[])

  /** One step of one thread. The weak compare-exchange may fail for no reason. */
  datatype Action =
    | BeginAppend(t: TaskId, values: seq<UserData>)
    | TryCas(t: TaskId, spurious: bool)
    | BeginIter(t: TaskId, query: Option<Query>)
    | Next(t: TaskId)
    | DropIter(t: TaskId)

  /** What an observer of the calls sees. */
  datatype Event =
    | Silent
    | Invoked(t: TaskId, values: seq<UserData>)
    | Appended(t: TaskId)
    | Answered(query: Query, result: Option<int>)
    | Exhausted(values: seq<UserData>)

  predicate Enabled(s: State, a: Action) {
    match a
    case BeginAppend(t, _) => t !in s.tasks
    case BeginIter(t, _) => t !in s.tasks
    case TryCas(t, _) => t in s.tasks && s.tasks[t].Appending? && s.heap.Has(s.tasks[t].at)
    case Next(t) =>
      && t in s.tasks && s.tasks[t].Iterating? && s.heap.Has(s.tasks[t].at)
      && (s.heap.Load(s.tasks[t].at).Some? ==> s.heap.Load(s.tasks[t].at).value < |s.heap.nodes|)
    case DropIter(t) => t in s.tasks && s.tasks[t].Iterating?
  }

  /** What a lookup finds in the node it was just given; a plain iterator never stops. */
  function Hit(s: State, query: Option<Query>, id: NodeId): Option<int>
    requires id < |s.heap.nodes|
  {
    if query.None? then None else s.heap.nodes[id].value.Get(query.value)
  }

  function Apply(s: State, a: Action): State
    requires Enabled(s, a)
  {
    match a
    case BeginAppend(t, values) =>
      State(s.heap.Allocate(values), s.tasks[t := Appending(Root, s.heap.AllocatedHead(values))])
    case TryCas(t, spurious) =>
      var task := s.tasks[t];
      var head := s.heap.Load(task.at);
      if head.Some? then s.(tasks := s.tasks[t := Appending(NextOf(head.value), task.p)])
      else if spurious then s
      else State(s.heap.Store(task.at, task.p), s.tasks - {t})
    case BeginIter(t, query) =>
      s.(tasks := s.tasks[t := Iterating(Root, [], query)])
    case Next(t) =>
      var task := s.tasks[t];
      var p := s.heap.Load(task.at);
      if p.None? && task.query.None? then s
      else if p.None? || Hit(s, task.query, p.value).Some? then s.(tasks := s.tasks - {t})
      else s.(tasks := s.tasks[t := task.(at := NextOf(p.value), yielded := task.yielded + [p.value])])
    case DropIter(t) =>
      s.(tasks := s.tasks - {t})
  }

  function EventOf(s: State, a: Action): Event
    requires Enabled(s, a)
  {
    match a
    case BeginAppend(t, values) => Invoked(t, values)
    case TryCas(t, spurious) =>
      if s.heap.Load(s.tasks[t].at).None? && !spurious then Appended(t) else Silent
    case Next(t) =>
      var task := s.tasks[t];
      var p := s.heap.Load(task.at);
      if p.None? then
        if task.query.Some? then Answered(task.query.value, None)
        else if Within(task.yielded, |s.heap.nodes|) then Exhausted(s.heap.ValuesOf(task.yielded))
        else Silent
      else if Hit(s, task.query, p.value).Some? then Answered(task.query.value, Hit(s, task.query, p.value))
      else Silent
    case _ => Silent
  }

  predicate Legal(s: State, acts: seq<Action>)
    decreases |acts|
  {
    acts == [] || (Enabled(s, acts[0]) && Legal(Apply(s, acts[0]), acts[1..]))
  }

  function Run(s: State, acts: seq<Action>): State
    requires Legal(s, acts)
    decreases |acts|
  {
    if acts == [] then s else Run(Apply(s, acts[0]), acts[1..])
  }

  function Trace(s: State, acts: seq<Action>): seq<Event>
    requires Legal(s, acts)
    decreases |acts|
  {
    if acts == [] then [] else [EventOf(s, acts[0])] + Trace(Apply(s, acts[0]), acts[1..])
  }

  // ---------------------------------------------------------------- the sequential list

  /** The list every call should behave as if it acted on at one instant. */
  datatype Spec = Spec(cells: seq<UserData>, pending: map<TaskId, seq<UserData>>)

  ghost predicate SpecStep(c: Spec, e: Event, c': Spec) {
    match e
    case Silent => c' == c
    case Invoked(t, values) => t !in c.pending && c' == c.(pending := c.pending[t := values])
    case Appended(t) => t in c.pending && c' == Spec(c.cells + c.pending[t], c.pending - {t})
    case Answered(q, r) => c' == c && IsAnswer(c.cells, q, r)
    case Exhausted(values) => c' == c && values == c.cells
  }

  ghost predicate SpecRun(c: Spec, es: seq<Event>, c': Spec)
    decreases |es|
  {
    if es == [] then c' == c
    else exists m :: SpecStep(c, es[0], m) && SpecRun(m, es[1..], c')
  }

  // ---------------------------------------------------------------- the invariant

  /** Where a node is: published, or in the chain of the call that is appending it. */
  datatype Owner = Published | InFlight(t: TaskId)

  datatype View = View(list: seq<NodeId>, chains: map<TaskId, seq<NodeId>>, owner: seq<Owner>)

  ghost predicate Placed(v: View, id: NodeId)
    requires id < |v.owner|
  {
    if v.owner[id].Published? then id in v.list
    else v.owner[id].t in v.chains && id in v.chains[v.owner[id].t]
  }

  /** Every node has one owner, and every owner holds exactly its nodes, once each. */
  ghost predicate Owned(v: View) {
    && Distinct(v.list) && Within(v.list, |v.owner|)
    && (forall i :: 0 <= i < |v.list| ==> v.owner[v.list[i]] == Published)
    && (forall t :: t in v.chains ==> Distinct(v.chains[t]) && Within(v.chains[t], |v.owner|))
    && (forall t, i :: t in v.chains && 0 <= i < |v.chains[t]| ==> v.owner[v.chains[t][i]] == InFlight(t))
    && (forall id :: 0 <= id < |v.owner| ==> Placed(v, id))
  }

  ghost predicate OnList(list: seq<NodeId>, at: Loc) {
    at == Root || at.node in list
  }

  ghost predicate TaskOk(h: Heap<UserData>, v: View, t: TaskId, task: Task) {
    match task
    case Appending(at, p) =>
      OnList(v.list, at) && t in v.chains && h.IsChain(p, v.chains[t])
    case Iterating(at, yielded, query) =>
      && yielded <= v.list && Within(v.list, |h.nodes|)
      && at == LocAt(v.list, |yielded|)
      && (query.Some? ==> forall i :: 0 <= i < |yielded| ==> h.nodes[v.list[i]].value.Get(query.value).None?)
  }

  ghost predicate Inv(s: State, v: View) {
    && s.heap.IsChain(s.heap.root, v.list)
    && |v.owner| == |s.heap.nodes| && Owned(v)
    && (forall t :: t in v.chains <==> t in s.tasks && s.tasks[t].Appending?)
    && (forall t :: t in s.tasks ==> TaskOk(s.heap, v, t, s.tasks[t]))
  }

  /** The sequential list a concurrent state stands for. */
  ghost predicate Represents(h: Heap<UserData>, v: View, c: Spec)
    requires |v.owner| == |h.nodes| && Owned(v)
  {
    && h.ValuesOf(v.list) == c.cells
    && (forall t :: t in v.chains <==> t in c.pending)
    && (forall t :: t in v.chains ==> h.ValuesOf(v.chains[t]) == c.pending[t])
  }

  ghost predicate Good(s: State, v: View, c: Spec) {
    Inv(s, v) && Represents(s.heap, v, c)
  }

  /** The view after a call began to append freshly allocated nodes. */
  ghost function Launched(v: View, t: TaskId, n: nat): View {
    View(v.list, v.chains[t := NewIds(|v.owner|, n)], v.owner + seq(n, i => InFlight(t)))
  }

  lemma AllocateOwned(v: View, t: TaskId, n: nat, v': View)
    requires Owned(v) && t !in v.chains && v' == Launched(v, t, n)
    ensures Owned(v')
  {
    var added := v'.chains[t];
    forall id | 0 <= id < |v'.owner| ensures Placed(v', id) {
      if id >= |v.owner| {
        assert added[id - |v.owner|] == id;
      } else {
        assert Placed(v, id);
      }
    }
    forall u, i | u in v'.chains && 0 <= i < |v'.chains[u]| ensures v'.owner[v'.chains[u][i]] == InFlight(u) {
      if u == t {
        assert added[i] == |v.owner| + i;
      }
    }
  }

  lemma AllocateTaskOk(h: Heap<UserData>, values: seq<UserData>, v: View, v': View, u: TaskId, task: Task)
    requires TaskOk(h, v, u, task) && v'.list == v.list
    requires u in v.chains ==> u in v'.chains && v'.chains[u] == v.chains[u]
    ensures TaskOk(h.Allocate(values), v', u, task)
    ensures task.Appending? ==> h.Allocate(values).ValuesOf(v.chains[u]) == h.ValuesOf(v.chains[u])
  {
    if task.Appending? {
      AllocateKeepsChain(h, values, task.p, v.chains[u]);
    }
  }

  lemma AllocateKeepsTasks(s: State, v: View, t: TaskId, values: seq<UserData>)
    requires Inv(s, v) && t !in s.tasks
    ensures forall u :: u in s.tasks ==> TaskOk(s.heap.Allocate(values), Launched(v, t, |values|), u, s.tasks[u])
  {
    hide Owned;
    forall u | u in s.tasks ensures TaskOk(s.heap.Allocate(values), Launched(v, t, |values|), u, s.tasks[u]) {
      AllocateTaskOk(s.heap, values, v, Launched(v, t, |values|), u, s.tasks[u]);
    }
  }

  lemma NewTaskOk(h: Heap<UserData>, v: View, t: TaskId, values: seq<UserData>)
    requires |v.owner| == |h.nodes|
    ensures TaskOk(h.Allocate(values), Launched(v, t, |values|), t, Appending(Root, h.AllocatedHead(values)))
  {
    var added := AllocateMakesChain(h, values);
  }

  lemma LaunchInv(s: State, v: View, t: TaskId, n: nat, h': Heap<UserData>, task: Task)
    requires Inv(s, v) && t !in s.tasks && task.Appending?
    requires |Launched(v, t, n).owner| == |h'.nodes| && Owned(Launched(v, t, n)) && h'.IsChain(h'.root, v.list)
    requires forall u :: u in s.tasks ==> TaskOk(h', Launched(v, t, n), u, s.tasks[u])
    requires TaskOk(h', Launched(v, t, n), t, task)
    ensures Inv(State(h', s.tasks[t := task]), Launched(v, t, n))
  {
    hide TaskOk, Owned, Heap.IsChain;
  }

  lemma AllocateInv(s: State, v: View, t: TaskId, values: seq<UserData>)
    requires Inv(s, v) && t !in s.tasks
    ensures Inv(Apply(s, BeginAppend(t, values)), Launched(v, t, |values|))
  {
    AllocateOwned(v, t, |values|, Launched(v, t, |values|));
    AllocateKeepsChain(s.heap, values, s.heap.root, v.list);
    AllocateKeepsTasks(s, v, t, values);
    NewTaskOk(s.heap, v, t, values);
    hide TaskOk, Owned, Heap.IsChain;
    LaunchInv(s, v, t, |values|, s.heap.Allocate(values), Appending(Root, s.heap.AllocatedHead(values)));
  }

  lemma AllocateKeepsValues(h: Heap<UserData>, values: seq<UserData>, ids: seq<NodeId>)
    requires Within(ids, |h.nodes|)
    ensures h.Allocate(values).ValuesOf(ids) == h.ValuesOf(ids)
  {
  }

  lemma AllocateRepresents(h: Heap<UserData>, v: View, c: Spec, t: TaskId, values: seq<UserData>)
    requires |v.owner| == |h.nodes| && Owned(v) && Represents(h, v, c)
    requires t !in v.chains && Owned(Launched(v, t, |values|))
    ensures Represents(h.Allocate(values), Launched(v, t, |values|), c.(pending := c.pending[t := values]))
  {
    var added := AllocateMakesChain(h, values);
    AllocateKeepsValues(h, values, v.list);
    forall u | u in v.chains ensures h.Allocate(values).ValuesOf(v.chains[u]) == c.pending[u] {
      AllocateKeepsValues(h, values, v.chains[u]);
    }
    hide Heap.Allocate, Heap.ValuesOf, Placed;
  }

  lemma BeginAppendKeeps(s: State, v: View, c: Spec, t: TaskId, values: seq<UserData>) returns (v': View, c': Spec)
    requires Good(s, v, c) && t !in s.tasks
    ensures Good(Apply(s, BeginAppend(t, values)), v', c') && v'.list == v.list
    ensures SpecStep(c, Invoked(t, values), c')
  {
    v' := Launched(v, t, |values|);
    c' := c.(pending := c.pending[t := values]);
    AllocateInv(s, v, t, values);
    AllocateRepresents(s.heap, v, c, t, values);
    assert t !in v.chains;
    hide TaskOk, Owned, Inv, Represents;
  }

  /** A null pointer on the list is the one after its last element. */
  lemma NullIsEnd(h: Heap<UserData>, list: seq<NodeId>, at: Loc)
    requires h.IsChain(h.root, list) && OnList(list, at)
    ensures h.Has(at)
    ensures h.Load(at).None? ==> at == LocAt(list, |list|)
    ensures h.Load(at).Some? ==> h.Load(at).value in list
  {
    if at.NextOf? {
      var i :| 0 <= i < |list| && list[i] == at.node;
      assert h.nodes[list[i]].next == At(list, i + 1);
    }
  }

  function Hand(v: View, t: TaskId): View
    requires t in v.chains
  {
    View(v.list + v.chains[t], v.chains - {t},
         seq(|v.owner|, i requires 0 <= i < |v.owner| => if v.owner[i] == InFlight(t) then Published else v.owner[i]))
  }

  /** Ownership after the chain of `t` has been published. */
  lemma PublishOwned(v: View, t: TaskId)
    requires Owned(v) && t in v.chains
    ensures Owned(Hand(v, t))
    ensures forall id :: id in v.list ==> id !in v.chains[t]
  {
    var v' := Hand(v, t);
    var mine := v.chains[t];
    forall i, j | 0 <= i < |v.list| && 0 <= j < |mine| ensures v.list[i] != mine[j] {
      assert v.owner[v.list[i]] == Published;
      assert v.owner[mine[j]] == InFlight(t);
    }
    forall id | 0 <= id < |v'.owner| ensures Placed(v', id) {
      assert Placed(v, id);
    }
  }

  lemma PublishTaskOk(h: Heap<UserData>, v: View, t: TaskId, at: Loc, p: Option<NodeId>, u: TaskId, task: Task)
    requires Owned(v) && |v.owner| == |h.nodes| && t in v.chains && u != t
    requires OnList(v.list, at) && h.Has(at)
    requires TaskOk(h, v, u, task)
    ensures TaskOk(h.Store(at, p), Hand(v, t), u, task)
    ensures task.Appending? ==> h.Store(at, p).ValuesOf(v.chains[u]) == h.ValuesOf(v.chains[u])
  {
    if task.Appending? {
      StoreKeepsOtherChain(h, at, p, task.p, v.chains[u]);
    } else {
      assert Within(Hand(v, t).list, |h.nodes|);
    }
  }

  lemma PublishRepresents(h: Heap<UserData>, v: View, c: Spec, t: TaskId, h': Heap<UserData>)
    requires Owned(v) && |v.owner| == |h.nodes| == |h'.nodes| && t in v.chains && Owned(Hand(v, t))
    requires Represents(h, v, c)
    requires forall id :: 0 <= id < |h.nodes| ==> h'.nodes[id].value == h.nodes[id].value
    ensures Represents(h', Hand(v, t), Spec(c.cells + c.pending[t], c.pending - {t}))
  {
    assert h'.ValuesOf(v.list + v.chains[t]) == h.ValuesOf(v.list) + h.ValuesOf(v.chains[t]);
    forall u | u in v.chains && u != t ensures h'.ValuesOf(v.chains[u]) == c.pending[u] {
      assert h'.ValuesOf(v.chains[u]) == h.ValuesOf(v.chains[u]);
    }
  }

  lemma PublishKeepsTasks(s: State, v: View, t: TaskId)
    requires Inv(s, v) && t in v.chains && s.heap.Has(s.tasks[t].at) && OnList(v.list, s.tasks[t].at)
    ensures forall u :: u in s.tasks && u != t ==>
      TaskOk(s.heap.Store(s.tasks[t].at, s.tasks[t].p), Hand(v, t), u, s.tasks[u])
  {
    hide TaskOk, Owned, Heap.IsChain, OnList;
    var task := s.tasks[t];
    forall u | u in s.tasks && u != t ensures TaskOk(s.heap.Store(task.at, task.p), Hand(v, t), u, s.tasks[u]) {
      PublishTaskOk(s.heap, v, t, task.at, task.p, u, s.tasks[u]);
    }
  }

  lemma HandInv(s: State, v: View, t: TaskId, h': Heap<UserData>)
    requires Inv(s, v) && t in v.chains && |h'.nodes| == |s.heap.nodes|
    requires Owned(Hand(v, t)) && h'.IsChain(h'.root, Hand(v, t).list)
    requires forall u :: u in s.tasks && u != t ==> TaskOk(h', Hand(v, t), u, s.tasks[u])
    ensures Inv(State(h', s.tasks - {t}), Hand(v, t))
  {
    hide TaskOk, Owned, Heap.IsChain;
  }

  lemma PublishInv(s: State, v: View, t: TaskId)
    requires Inv(s, v) && Enabled(s, TryCas(t, false)) && s.heap.Load(s.tasks[t].at).None?
    ensures Inv(Apply(s, TryCas(t, false)), Hand(v, t))
  {
    var task := s.tasks[t];
    assert TaskOk(s.heap, v, t, task);
    NullIsEnd(s.heap, v.list, task.at);
    PublishOwned(v, t);
    LinkExtends(s.heap, v.list, task.p, v.chains[t]);
    hide TaskOk, Owned, Heap.IsChain;
    PublishKeepsTasks(s, v, t);
    HandInv(s, v, t, s.heap.Store(task.at, task.p));
  }

  lemma StoreKeepsValues(h: Heap<UserData>, at: Loc, p: Option<NodeId>)
    requires h.Has(at)
    ensures |h.Store(at, p).nodes| == |h.nodes|
    ensures forall id :: 0 <= id < |h.nodes| ==> h.Store(at, p).nodes[id].value == h.nodes[id].value
  {
  }

  lemma AppenderHasChain(s: State, v: View, t: TaskId)
    requires Inv(s, v) && t in s.tasks && s.tasks[t].Appending?
    ensures Owned(v) && |v.owner| == |s.heap.nodes| && t in v.chains
  {
  }

  lemma PublishKeeps(s: State, v: View, c: Spec, t: TaskId) returns (v': View, c': Spec)
    requires Good(s, v, c) && Enabled(s, TryCas(t, false)) && s.heap.Load(s.tasks[t].at).None?
    ensures Good(Apply(s, TryCas(t, false)), v', c') && v'.list == v.list + v.chains[t]
    ensures SpecStep(c, Appended(t), c')
  {
    hide TaskOk, Owned, Inv, Heap.IsChain, Heap.Store;
    var task := s.tasks[t];
    AppenderHasChain(s, v, t);
    v' := Hand(v, t);
    c' := Spec(c.cells + c.pending[t], c.pending - {t});
    PublishOwned(v, t);
    PublishInv(s, v, t);
    StoreKeepsValues(s.heap, task.at, task.p);
    PublishRepresents(s.heap, v, c, t, s.heap.Store(task.at, task.p));
    hide Represents;
  }

  /** What the load of an iterator sees, and what a lookup concludes from it. */
  lemma NextSees(h: Heap<UserData>, v: View, cells: seq<UserData>, t: TaskId, task: Task)
    requires h.IsChain(h.root, v.list) && cells == h.ValuesOf(v.list)
    requires TaskOk(h, v, t, task) && task.Iterating?
    ensures h.Has(task.at) && h.Load(task.at) == At(v.list, |task.yielded|)
    ensures h.Load(task.at).None? ==> task.yielded == v.list
    ensures task.query.Some? ==> NoMatch(cells, |task.yielded|, task.query.value)
  {
    var k := |task.yielded|;
    if k > 0 {
      assert h.nodes[v.list[k - 1]].next == At(v.list, k);
    }
    if task.query.Some? {
      forall i | 0 <= i < k ensures cells[i].Get(task.query.value).None? {
        assert cells[i] == h.nodes[v.list[i]].value;
      }
    }
  }

  /** Moving or adding one task without touching memory. */
  lemma SetTask(s: State, v: View, c: Spec, t: TaskId, task: Task)
    requires Good(s, v, c) && TaskOk(s.heap, v, t, task)
    requires task.Appending? <==> t in s.tasks && s.tasks[t].Appending?
    ensures Good(s.(tasks := s.tasks[t := task]), v, c)
  {
    hide TaskOk, Owned, Represents;
    var s' := s.(tasks := s.tasks[t := task]);
    assert forall u :: u in s'.tasks && u != t ==> TaskOk(s.heap, v, u, s.tasks[u]);
  }

  lemma DropTask(s: State, v: View, c: Spec, t: TaskId)
    requires Good(s, v, c) && t in s.tasks && s.tasks[t].Iterating?
    ensures Good(s.(tasks := s.tasks - {t}), v, c)
  {
    hide TaskOk, Owned, Represents;
    var s' := s.(tasks := s.tasks - {t});
    assert forall u :: u in s'.tasks ==> TaskOk(s.heap, v, u, s.tasks[u]);
  }

  /** The event of a load is what the sequential list would say at that instant. */
  lemma NextAnswers(s: State, v: View, c: Spec, t: TaskId)
    requires Good(s, v, c) && Enabled(s, Next(t))
    ensures SpecStep(c, EventOf(s, Next(t)), c)
  {
    var task := s.tasks[t];
    var k := |task.yielded|;
    assert TaskOk(s.heap, v, t, task);
    NextSees(s.heap, v, c.cells, t, task);
    if k < |v.list| {
      assert c.cells[k] == s.heap.nodes[v.list[k]].value;
    }
  }

  lemma NextQuiet(h: Heap<UserData>, v: View, t: TaskId, task: Task, id: NodeId)
    requires TaskOk(h, v, t, task) && task.Iterating? && At(v.list, |task.yielded|) == Some(id)
    requires task.query.Some? ==> h.nodes[id].value.Get(task.query.value).None?
    ensures TaskOk(h, v, t, Iterating(NextOf(id), task.yielded + [id], task.query))
  {
  }

  lemma NextKeeps(s: State, v: View, c: Spec, t: TaskId)
    requires Good(s, v, c) && Enabled(s, Next(t))
    ensures Good(Apply(s, Next(t)), v, c)
  {
    var task := s.tasks[t];
    var k := |task.yielded|;
    assert TaskOk(s.heap, v, t, task);
    NextSees(s.heap, v, c.cells, t, task);
    if s.heap.Load(task.at).None? && task.query.None? {
      assert Apply(s, Next(t)) == s;
    } else if s.heap.Load(task.at).None? || Hit(s, task.query, v.list[k]).Some? {
      DropTask(s, v, c, t);
    } else {
      var task' := Iterating(NextOf(v.list[k]), task.yielded + [v.list[k]], task.query);
      NextQuiet(s.heap, v, t, task, v.list[k]);
      SetTask(s, v, c, t, task');
    }
  }

  /** A failed compare-exchange moves on to the node that was found, if one was. */
  lemma FailKeeps(s: State, v: View, c: Spec, t: TaskId, spurious: bool)
    requires Good(s, v, c) && Enabled(s, TryCas(t, spurious))
    requires spurious || s.heap.Load(s.tasks[t].at).Some?
    ensures Good(Apply(s, TryCas(t, spurious)), v, c)
  {
    var head := s.heap.Load(s.tasks[t].at);
    assert TaskOk(s.heap, v, t, s.tasks[t]);
    NullIsEnd(s.heap, v.list, s.tasks[t].at);
    if head.Some? {
      SetTask(s, v, c, t, Appending(NextOf(head.value), s.tasks[t].p));
    }
  }

  /** Every step keeps the invariant, only lengthens the list, and is a step of the sequential list. */
  lemma StepKeeps(s: State, v: View, c: Spec, a: Action) returns (v': View, c': Spec)
    requires Good(s, v, c) && Enabled(s, a)
    ensures Good(Apply(s, a), v', c') && v.list <= v'.list
    ensures SpecStep(c, EventOf(s, a), c')
  {
    v', c' := v, c;
    match a
    case BeginAppend(t, values) =>
      v', c' := BeginAppendKeeps(s, v, c, t, values);
    case TryCas(t, spurious) =>
      if !spurious && s.heap.Load(s.tasks[t].at).None? {
        v', c' := PublishKeeps(s, v, c, t);
      } else {
        FailKeeps(s, v, c, t, spurious);
      }
    case Next(t) =>
      NextAnswers(s, v, c, t);
      NextKeeps(s, v, c, t);
    case BeginIter(t, query) =>
      SetTask(s, v, c, t, Iterating(Root, [], query));
    case DropIter(t) => DropTask(s, v, c, t);
  }

  // ---------------------------------------------------------------- over whole runs

  const NOTHING := Spec([], map[])

  lemma StartIsGood()
    ensures Good(START, View([], map[], []), NOTHING)
  {
  }

  lemma {:induction false} RunKeeps(s: State, v: View, c: Spec, acts: seq<Action>) returns (v': View, c': Spec)
    requires Good(s, v, c) && Legal(s, acts)
    ensures Good(Run(s, acts), v', c') && v.list <= v'.list
    ensures SpecRun(c, Trace(s, acts), c')
    decreases |acts|
  {
    v', c' := v, c;
    if acts != [] {
      var v1, c1 := StepKeeps(s, v, c, acts[0]);
      v', c' := RunKeeps(Apply(s, acts[0]), v1, c1, acts[1..]);
      assert Trace(s, acts)[1..] == Trace(Apply(s, acts[0]), acts[1..]);
    }
  }

  lemma ReachedIsGood(acts: seq<Action>) returns (v: View, c: Spec)
    requires Legal(START, acts)
    ensures Good(Run(START, acts), v, c)
    ensures SpecRun(NOTHING, Trace(START, acts), c)
    ensures Run(START, acts).heap.List() == v.list
  {
    StartIsGood();
    v, c := RunKeeps(START, View([], map[], []), NOTHING, acts);
    ChainIsWalk(Run(START, acts).heap, Run(START, acts).heap.root, v.list);
  }

  /**
   * Linearizability: whatever the interleaving, the calls answered as the sequential
   * list would, each append taking effect as a block at its successful exchange.
   */
  lemma Linearizable(acts: seq<Action>)
    requires Legal(START, acts)
    ensures exists c :: SpecRun(NOTHING, Trace(START, acts), c) && c.cells == Run(START, acts).heap.Values()
  {
    var v, c := ReachedIsGood(acts);
  }

  /** The list is null-terminated and acyclic, and at any moment a prefix of every later list. */
  lemma ListOnlyGrows(before: seq<Action>, after: seq<Action>)
    requires Legal(START, before) && Legal(Run(START, before), after)
    ensures var h := Run(START, before).heap;
            var h' := Run(Run(START, before), after).heap;
            && h.IsChain(h.root, h.List()) && Distinct(h.List())
            && h.List() <= h'.List() && h.Values() <= h'.Values()
  {
    var s := Run(START, before);
    var v, c := ReachedIsGood(before);
    var v', c' := RunKeeps(s, v, c, after);
    var h' := Run(s, after).heap;
    ChainIsWalk(h', h'.root, v'.list);
    SpecGrows(c, Trace(s, after), c');
  }

  lemma {:induction false} SpecGrows(c: Spec, es: seq<Event>, c': Spec)
    requires SpecRun(c, es, c')
    ensures c.cells <= c'.cells
    decreases |es|
  {
    if es != [] {
      var m :| SpecStep(c, es[0], m) && SpecRun(m, es[1..], c');
      SpecGrows(m, es[1..], c');
    }
  }

  /** The chain that the call `t` is about to publish; empty when there is no such call. */
  ghost function InFlightNodes(s: State, t: TaskId): seq<NodeId> {
    if t in s.tasks && s.tasks[t].Appending? then s.heap.Chain(s.tasks[t].p) else []
  }

  lemma InFlightIsView(s: State, v: View, c: Spec, t: TaskId)
    requires Good(s, v, c)
    ensures InFlightNodes(s, t) == ChainOf(v, t)
  {
    if t in v.chains {
      assert TaskOk(s.heap, v, t, s.tasks[t]);
      ChainIsWalk(s.heap, s.tasks[t].p, v.chains[t]);
    }
  }

  lemma OwnerDecides(v: View, id: NodeId)
    requires Owned(v) && id < |v.owner|
    ensures id in v.list <==> v.owner[id] == Published
    ensures forall t :: t in v.chains ==> (id in v.chains[t] <==> v.owner[id] == InFlight(t))
    ensures v.owner[id].InFlight? ==> v.owner[id].t in v.chains
  {
    assert Placed(v, id);
  }

  /**
   * Conservation: a node that was ever created is on the list, or in exactly one chain
   * still to be published.
   */
  lemma NodesAreConserved(acts: seq<Action>, id: NodeId)
    requires Legal(START, acts) && id < |Run(START, acts).heap.nodes|
    ensures var s := Run(START, acts);
            && (id in s.heap.List() <==> forall t :: id !in InFlightNodes(s, t))
            && (forall t, u :: id in InFlightNodes(s, t) && id in InFlightNodes(s, u) ==> t == u)
  {
    var s := Run(START, acts);
    var v, c := ReachedIsGood(acts);
    OneHolder(v, id);
    forall t ensures InFlightNodes(s, t) == ChainOf(v, t) {
      InFlightIsView(s, v, c, t);
    }
  }

  ghost function ChainOf(v: View, t: TaskId): seq<NodeId> {
    if t in v.chains then v.chains[t] else []
  }

  lemma OneHolder(v: View, id: NodeId)
    requires Owned(v) && id < |v.owner|
    ensures id in v.list <==> forall t :: id !in ChainOf(v, t)
    ensures forall t, u :: id in ChainOf(v, t) && id in ChainOf(v, u) ==> t == u
  {
    OwnerDecides(v, id);
    hide Owned;
    if v.owner[id].InFlight? {
      assert id in ChainOf(v, v.owner[id].t);
    }
  }

  /** On the list, and in a chain, no node occurs twice. */
  lemma NodesOccurOnce(acts: seq<Action>, t: TaskId)
    requires Legal(START, acts)
    ensures Distinct(Run(START, acts).heap.List()) && Distinct(InFlightNodes(Run(START, acts), t))
  {
    var v, c := ReachedIsGood(acts);
    InFlightIsView(Run(START, acts), v, c, t);
  }

  /** No thread ever follows a dangling pointer: every call in progress can take its step. */
  lemma NoDanglingPointer(acts: seq<Action>, t: TaskId)
    requires Legal(START, acts) && t in Run(START, acts).tasks
    ensures var s := Run(START, acts);
            if s.tasks[t].Appending? then forall f :: Enabled(s, TryCas(t, f)) else Enabled(s, Next(t))
  {
    var s := Run(START, acts);
    var v, c := ReachedIsGood(acts);
    assert TaskOk(s.heap, v, t, s.tasks[t]);
    NullIsEnd(s.heap, v.list, s.tasks[t].at);
    if s.tasks[t].Iterating? {
      NextSees(s.heap, v, c.cells, t, s.tasks[t]);
    }
  }

  /**
   * An iterator has yielded a prefix of the list, and stands right after it; its next load
   * gives null exactly when the whole list of that instant has been yielded.
   */
  lemma IteratorSeesPrefix(acts: seq<Action>, t: TaskId)
    requires Legal(START, acts) && t in Run(START, acts).tasks && Run(START, acts).tasks[t].Iterating?
    ensures var s := Run(START, acts);
            var yielded := s.tasks[t].yielded;
            && yielded <= s.heap.List() && s.tasks[t].at == LocAt(s.heap.List(), |yielded|)
            && s.heap.Has(s.tasks[t].at)
            && (s.heap.Load(s.tasks[t].at).None? <==> yielded == s.heap.List())
  {
    var s := Run(START, acts);
    var v, c := ReachedIsGood(acts);
    assert TaskOk(s.heap, v, t, s.tasks[t]);
    NextSees(s.heap, v, c.cells, t, s.tasks[t]);
  }

  /**
   * A reader advances: when the list goes on, its next load ends a lookup with the value of
   * the next cell if that is visible, and else adds the cell to what was yielded; at the end
   * of the list a lookup answers that there is nothing, and an iterator that this was all.
   */
  lemma ReaderAdvances(acts: seq<Action>, t: TaskId)
    requires Legal(START, acts) && t in Run(START, acts).tasks && Run(START, acts).tasks[t].Iterating?
    ensures ReaderStep(Run(START, acts), t)
  {
    var v, c := ReachedIsGood(acts);
    GoodReaderStep(Run(START, acts), v, c, t);
  }

  ghost predicate ReaderStep(s: State, t: TaskId)
    requires t in s.tasks && s.tasks[t].Iterating?
  {
    && Enabled(s, Next(t))
    && var s', e := Apply(s, Next(t)), EventOf(s, Next(t));
       var list, k, query := s.heap.List(), |s.tasks[t].yielded|, s.tasks[t].query;
       && s'.heap == s.heap
       && if k < |list| then
            var found := if query.Some? then s.heap.Values()[k].Get(query.value) else None;
            if found.Some? then s'.tasks == s.tasks - {t} && e == Answered(query.value, found)
            else
              && e == Silent
              && s'.tasks == s.tasks[t := Iterating(NextOf(list[k]), list[..k + 1], query)]
          else if query.Some? then s'.tasks == s.tasks - {t} && e == Answered(query.value, None)
          else s' == s && e == Exhausted(s.heap.Values())
  }

  lemma GoodReaderStep(s: State, v: View, c: Spec, t: TaskId)
    requires Good(s, v, c) && t in s.tasks && s.tasks[t].Iterating?
    ensures s.heap.List() == v.list && s.heap.Values() == c.cells
    ensures |s.tasks[t].yielded| <= |v.list| && ReaderStep(s, t)
  {
    var task := s.tasks[t];
    ChainIsWalk(s.heap, s.heap.root, v.list);
    assert TaskOk(s.heap, v, t, task);
    NextSees(s.heap, v, c.cells, t, task);
    hide *;
    StandingReaderStep(s, t, v.list);
  }

  /** A reader that stands after the first cells of the list. */
  lemma StandingReaderStep(s: State, t: TaskId, list: seq<NodeId>)
    requires t in s.tasks && s.tasks[t].Iterating? && s.heap.List() == list
    requires s.tasks[t].yielded <= list && s.heap.Has(s.tasks[t].at)
    requires s.heap.Load(s.tasks[t].at) == At(list, |s.tasks[t].yielded|)
    ensures ReaderStep(s, t)
  {
    hide Heap.List, Heap.Load, Heap.Has;
    var task := s.tasks[t];
    var k := |task.yielded|;
    assert Within(list, |s.heap.nodes|);
    assert s.heap.Values() == s.heap.ValuesOf(list);
    if k < |list| {
      assert s.heap.Values()[k] == s.heap.nodes[list[k]].value;
      assert list[..k + 1] == task.yielded + [list[k]];
    } else {
      assert task.yielded == list;
    }
  }

  /** Dropping a reader ends it, wherever it stands, and touches nothing else. */
  lemma DropEndsReader(acts: seq<Action>, t: TaskId)
    requires Legal(START, acts) && Enabled(Run(START, acts), DropIter(t))
    ensures var s, s' := Run(START, acts), Apply(Run(START, acts), DropIter(t));
      && s'.heap == s.heap && s'.tasks.Keys == s.tasks.Keys - {t}
      && forall u :: u in s'.tasks ==> s'.tasks[u] == s.tasks[u]
  {
  }

  /** The steps of one thread. */
  function Times(a: Action, n: nat): seq<Action> {
    if n == 0 then [] else [a] + Times(a, n - 1)
  }

  lemma FirstStep(s: State, a: Action, rest: seq<Action>)
    requires Enabled(s, a) && Legal(Apply(s, a), rest)
    ensures Legal(s, [a] + rest)
    ensures Trace(s, [a] + rest) == [EventOf(s, a)] + Trace(Apply(s, a), rest)
  {
    assert ([a] + rest)[1..] == rest;
  }

  lemma OnlyStep(s: State, a: Action)
    requires Enabled(s, a)
    ensures Legal(s, Times(a, 1)) && Trace(s, Times(a, 1)) == [EventOf(s, a)]
  {
    hide Enabled, Apply, EventOf;
    assert Legal(Apply(s, a), []) && Trace(Apply(s, a), []) == [];
    FirstStep(s, a, []);
    assert Times(a, 1) == [a] + [];
  }

  lemma OneMoreTime(a: Action, n: nat)
    ensures Times(a, n + 1) == [a] + Times(a, n)
  {
  }

  /** The last event is what the reader has to say about these cells. */
  ghost predicate Says(es: seq<Event>, query: Option<Query>, cells: seq<UserData>) {
    && es != []
    && match query
       case Some(q) => exists r :: Last(es) == Answered(q, r) && IsAnswer(cells, q, r)
       case None => Last(es) == Exhausted(cells)
  }

  /** A reader that has not said what it has to stands one cell further. */
  ghost predicate StandsFurther(s: State, s': State, t: TaskId)
    requires t in s.tasks && s.tasks[t].Iterating?
  {
    && t in s'.tasks && s'.tasks[t].Iterating? && s'.tasks[t].query == s.tasks[t].query
    && |s'.tasks[t].yielded| == |s.tasks[t].yielded| + 1
  }

  lemma StepSays(s: State, t: TaskId, c: Spec, list: seq<NodeId>)
    requires t in s.tasks && s.tasks[t].Iterating? && ReaderStep(s, t)
    requires s.heap.List() == list && s.heap.Values() == c.cells && |s.tasks[t].yielded| <= |list|
    requires SpecStep(c, EventOf(s, Next(t)), c)
    ensures Enabled(s, Next(t))
    ensures || Says([EventOf(s, Next(t))], s.tasks[t].query, c.cells)
            || (|s.tasks[t].yielded| < |list| && StandsFurther(s, Apply(s, Next(t)), t))
  {
    hide Heap.List, Heap.Values, Apply, EventOf, Enabled, IsAnswer;
  }

  /** One step of a reader: it says what it has to, or has one cell less to go. */
  lemma ReaderGoesOn(s: State, v: View, c: Spec, t: TaskId)
    requires Good(s, v, c) && t in s.tasks && s.tasks[t].Iterating?
    ensures |s.tasks[t].yielded| <= |v.list| && Enabled(s, Next(t)) && Good(Apply(s, Next(t)), v, c)
    ensures || Says([EventOf(s, Next(t))], s.tasks[t].query, c.cells)
            || (|s.tasks[t].yielded| < |v.list| && StandsFurther(s, Apply(s, Next(t)), t))
  {
    hide Good, ReaderStep, SpecStep, Heap.List, Heap.Values, Apply, EventOf, Says, StandsFurther;
    GoodReaderStep(s, v, c, t);
    StepIsEnabled(s, t);
    NextKeeps(s, v, c, t);
    NextAnswers(s, v, c, t);
    StepSays(s, t, c, v.list);
  }

  lemma StepIsEnabled(s: State, t: TaskId)
    requires t in s.tasks && s.tasks[t].Iterating? && ReaderStep(s, t)
    ensures Enabled(s, Next(t))
  {
    hide Enabled, Heap.List, Heap.Values;
  }

  /** Left alone, a reader answers after one step for each cell it has not seen, and one more. */
  lemma {:induction false} ReaderFinishes(s: State, v: View, c: Spec, t: TaskId) returns (n: nat)
    requires Good(s, v, c) && t in s.tasks && s.tasks[t].Iterating?
    ensures 0 < n <= |v.list| - |s.tasks[t].yielded| + 1
    ensures Legal(s, Times(Next(t), n)) && Says(Trace(s, Times(Next(t), n)), s.tasks[t].query, c.cells)
    decreases |v.list| - |s.tasks[t].yielded|
  {
    ReaderGoesOn(s, v, c, t);
    var s', e := Apply(s, Next(t)), EventOf(s, Next(t));
    var query := s.tasks[t].query;
    hide *;
    if Says([e], query, c.cells) {
      n := 1;
      OnlyStep(s, Next(t));
    } else {
      var m := ReaderFinishes(s', v, c, t);
      n := m + 1;
      FirstStep(s, Next(t), Times(Next(t), m));
      OneMoreTime(Next(t), m);
      SaysLater(e, Trace(s', Times(Next(t), m)), query, c.cells);
    }
  }

  lemma SaysLater(e: Event, es: seq<Event>, query: Option<Query>, cells: seq<UserData>)
    requires Says(es, query, cells)
    ensures Says([e] + es, query, cells)
  {
    assert Last([e] + es) == Last(es);
  }

  /**
   * In any reachable state a thread can look a type up, or go through the list, in as many
   * loads as there are cells and one more when nobody appends meanwhile: the lookup gives the
   * answer for the list as it is, the iterator all its values.
   */
  lemma ReadersAnswer(acts: seq<Action>, t: TaskId, query: Option<Query>) returns (n: nat)
    requires Legal(START, acts) && t !in Run(START, acts).tasks
    ensures n <= |Run(START, acts).heap.List()| + 1
    ensures var s := Run(START, acts);
      var reading := [BeginIter(t, query)] + Times(Next(t), n);
      Legal(s, reading) && Says(Trace(s, reading), query, s.heap.Values())
  {
    var v, c := ReachedIsGood(acts);
    assert c.cells == Run(START, acts).heap.Values();
    n := ReaderAnswersFrom(Run(START, acts), v, c, t, query);
  }

  lemma ReaderAnswersFrom(s: State, v: View, c: Spec, t: TaskId, query: Option<Query>) returns (n: nat)
    requires Good(s, v, c) && t !in s.tasks
    ensures n <= |v.list| + 1
    ensures var reading := [BeginIter(t, query)] + Times(Next(t), n);
      Legal(s, reading) && Says(Trace(s, reading), query, c.cells)
  {
    var s' := Apply(s, BeginIter(t, query));
    SetTask(s, v, c, t, Iterating(Root, [], query));
    assert Good(s', v, c) && s'.tasks[t] == Iterating(Root, [], query);
    hide Good, IsAnswer;
    n := ReaderFinishes(s', v, c, t);
    FirstStep(s, BeginIter(t, query), Times(Next(t), n));
    SaysLater(Silent, Trace(s', Times(Next(t), n)), query, c.cells);
  }

  /**
   * Progress: an exchange that did not fail spuriously either publishes the chain or
   * brings the call one node nearer to the end of the list.
   */
  lemma ExchangeAdvances(acts: seq<Action>, t: TaskId) returns (k: nat)
    requires Legal(START, acts) && Enabled(Run(START, acts), TryCas(t, false))
    ensures var s := Run(START, acts);
            var s' := Apply(s, TryCas(t, false));
            var list := s.heap.List();
            && k <= |list| && s.tasks[t].at == LocAt(list, k)
            && (t in s'.tasks <==> k < |list|)
            && (t in s'.tasks ==> s'.heap == s.heap && s'.tasks[t].at == LocAt(list, k + 1))
            && (t !in s'.tasks ==> s'.heap.List() == list + InFlightNodes(s, t))
  {
    var s := Run(START, acts);
    var v, c := ReachedIsGood(acts);
    var at := s.tasks[t].at;
    assert TaskOk(s.heap, v, t, s.tasks[t]);
    k := 0;
    if at.NextOf? {
      var i :| 0 <= i < |v.list| && v.list[i] == at.node;
      k := i + 1;
      assert s.heap.nodes[v.list[i]].next == At(v.list, i + 1);
    }
    if k == |v.list| {
      var v', c' := PublishKeeps(s, v, c, t);
      var h' := Apply(s, TryCas(t, false)).heap;
      ChainIsWalk(h', h'.root, v'.list);
      ChainIsWalk(s.heap, s.tasks[t].p, v.chains[t]);
    }
  }

  // ---------------------------------------------------------------- lookups

  lemma {:induction false} LaterLookupAgrees(c: Spec, es: seq<Event>, c': Spec, q: Query, v: int, j: nat)
    requires SpecRun(c, es, c') && IsAnswer(c.cells, q, Some(v))
    requires j < |es| && es[j].Answered? && es[j].query == q
    ensures es[j].result == Some(v)
    decreases |es|
  {
    var m :| SpecStep(c, es[0], m) && SpecRun(m, es[1..], c');
    if j == 0 {
      assert c.cells == c.cells + [];
      AnswerIsStable(c.cells, [], q, v, es[0].result);
    } else {
      assert IsFirstMatch(m.cells, q, v) by {
        var i :| 0 <= i < |c.cells| && c.cells[i].Get(q) == Some(v) && NoMatch(c.cells, i, q);
        assert c.cells <= m.cells;
        assert m.cells[i] == c.cells[i] && NoMatch(m.cells, i, q);
      }
      LaterLookupAgrees(m, es[1..], c', q, v, j - 1);
    }
  }

  lemma {:induction false} SpecLookupsAgree(c: Spec, es: seq<Event>, c': Spec, i: nat, j: nat)
    requires SpecRun(c, es, c') && i < j < |es|
    requires es[i].Answered? && es[i].result.Some? && es[j].Answered? && es[j].query == es[i].query
    ensures es[j].result == es[i].result
    decreases |es|
  {
    var m :| SpecStep(c, es[0], m) && SpecRun(m, es[1..], c');
    if i == 0 {
      LaterLookupAgrees(c, es, c', es[0].query, es[0].result.value, j);
    } else {
      SpecLookupsAgree(m, es[1..], c', i - 1, j - 1);
    }
  }

  /**
   * Once a lookup of a type on a thread has returned a value, every later lookup of
   * that type on that thread returns the same one, whatever is inserted meanwhile.
   */
  lemma LookupsAgree(acts: seq<Action>, i: nat, j: nat)
    requires Legal(START, acts) && i < j < |Trace(START, acts)|
    requires var es := Trace(START, acts);
             es[i].Answered? && es[i].result.Some? && es[j].Answered? && es[j].query == es[i].query
    ensures Trace(START, acts)[j].result == Trace(START, acts)[i].result
  {
    var v, c := ReachedIsGood(acts);
    SpecLookupsAgree(NOTHING, Trace(START, acts), c, i, j);
  }
}

/** The type map as the object its users call, one call at a time. */
module UserDataMap {
  import opened Prelude
  import opened AppendList
  import opened UserDataCells

  class UserDataMap {
    const list: SharedList<UserData>

    ghost predicate Valid()
      reads list
    {
      list.Valid()
    }

    ghost function Cells(): seq<UserData>
      reads list
    {
      list.heap.Values()
    }

    constructor ()
      ensures Valid() && fresh(list) && Cells() == []
    {
      list := new SharedList();
    }

    method Get(q: Query) returns (r: Option<int>)
      requires Valid()
      ensures IsAnswer(Cells(), q, r)
    {
      var iter := new AppendListIterator(list);
      while true
        invariant iter.Valid() && iter.list == list && fresh(iter)
        invariant NoMatch(Cells(), |iter.yielded|, q)
        decreases |Cells()| - |iter.yielded|
      {
        var data := iter.Next();
        if data.None? {
          return None;
        }
        r := data.value.Get(q);
        if r.Some? {
          return;
        }
      }
    }

    /** `iter().last()` */
    method LastCell() returns (last: Option<UserData>)
      requires Valid()
      ensures last == if Cells() == [] then None else Some(Last(Cells()))
    {
      var iter := new AppendListIterator(list);
      last := None;
      while true
        invariant iter.Valid() && iter.list == list && fresh(iter)
        invariant |iter.yielded| <= |Cells()|
        invariant last == if iter.yielded == [] then None else Some(Cells()[|iter.yielded| - 1])
        decreases |Cells()| - |iter.yielded|
      {
        var data := iter.Next();
        if data.None? {
          return;
        }
        last := data;
      }
    }

    /** `insert` and `insert_threadsafe`; the exchange of the append fails `spurious` times for no reason. */
    method Insert(q: Query, value: int, threadSafe: bool, spurious: nat)
      requires Valid()
      modifies list
      ensures Valid() && Cells() == old(Cells()) + [Cell(q, value, threadSafe)]
    {
      var data := UNSET;
      var val := Any(q.ty, value);
      data := data.SetOnce(if threadSafe then ThreadSafe(val) else NonThreadSafe(val, q.thread));
      list.AppendValues([data], spurious);
    }

    /** `insert_if_missing` and its thread-safe twin, called on thread `q.thread`. */
    method InsertIfMissing(q: Query, value: int, threadSafe: bool, spurious: nat) returns (inserted: bool)
      requires Valid()
      modifies list
      ensures Valid()
      ensures inserted <==> NoMatch(old(Cells()), |old(Cells())|, q)
      ensures Cells() == if inserted then old(Cells()) + [Cell(q, value, threadSafe)] else old(Cells())
      ensures inserted ==> IsAnswer(Cells(), q, Some(value))
    {
      var found := Get(q);
      if found.Some? {
        return false;
      }
      Insert(q, value, threadSafe, spurious);
      assert Last(Cells()).Get(q) == Some(value);
      return true;
    }

    /** `get_or_insert` and its thread-safe twin; `None` would be the `unwrap` panicking. */
    method GetOrInsert(q: Query, value: int, threadSafe: bool, spurious: nat) returns (r: Option<int>)
      requires Valid()
      modifies list
      ensures Valid()
      ensures r.Some? && IsAnswer(Cells(), q, r)
      ensures NoMatch(old(Cells()), |old(Cells())|, q) ==>
        r == Some(value) && Cells() == old(Cells()) + [Cell(q, value, threadSafe)]
      ensures !NoMatch(old(Cells()), |old(Cells())|, q) ==> Cells() == old(Cells())
    {
      r := Get(q);
      if r.None? {
        Insert(q, value, threadSafe, spurious);
        var last := LastCell();
        r := if last.Some? then last.value.Get(q) else None;
        assert Last(Cells()).Get(q) == Some(value);
      }
    }
  }

  /** A fresh cell initialised on thread `q.thread` with a value of type `q.ty`. */
  function Cell(q: Query, value: int, threadSafe: bool): UserData {
    UserData(Some(if threadSafe then ThreadSafe(Any(q.ty, value)) else NonThreadSafe(Any(q.ty, value), q.thread)))
  }

  /**
   * What an insertion changes for any observer: an answer already found stays; a type or
   * a thread that cannot see the new cell is answered as before.
   */
  lemma InsertionEffect(list: seq<UserData>, q: Query, value: int, threadSafe: bool,
                        o: Query, before: Option<int>, after: Option<int>)
    requires IsAnswer(list, o, before) && IsAnswer(list + [Cell(q, value, threadSafe)], o, after)
    ensures after ==
      if before.Some? then before
      else if o.ty == q.ty && (threadSafe || o.thread == q.thread) then Some(value)
      else None
  {
    var all := list + [Cell(q, value, threadSafe)];
    if before.Some? {
      AnswerIsStable(list, [Cell(q, value, threadSafe)], o, before.value, after);
    } else {
      assert all[|list|] == Cell(q, value, threadSafe);
      assert forall i :: 0 <= i < |list| ==> all[i] == list[i];
    }
  }
}
