/** Unique hook identifiers: a search for a free id, and ids shared by clones until the last is dropped. */
module Hooks {
  import opened Prelude

  /** The number of values of `usize`. */
  const USIZE := 0x1_0000_0000_0000_0000

  /** `c` advanced `d` times with wrapping. */
  function Cyclic(c: nat, d: nat): nat
    requires c < USIZE && d <= USIZE
  {
    if c + d < USIZE then c + d else c + d - USIZE
  }

  /** How many wrapping increments lead from `c` to `id`. */
  function Distance(c: nat, id: nat): nat
    requires c < USIZE && id < USIZE
  {
    if c <= id then id - c else id + USIZE - c
  }

  ghost predicate IdsOk(ids: set<nat>) {
    (forall id :: id in ids ==> id < USIZE) && |ids| <= USIZE - 1
  }

  /** `id` is free, and everything met before it on the way from `c` is taken. */
  ghost predicate IsFirstFree(ids: set<nat>, c: nat, id: nat)
    requires c < USIZE
  {
    && id < USIZE && id !in ids
    && forall d :: 0 <= d < Distance(c, id) ==> Cyclic(c, d) in ids
  }

  lemma FirstFreeIsUnique(ids: set<nat>, c: nat, a: nat, b: nat)
    requires c < USIZE && IsFirstFree(ids, c, a) && IsFirstFree(ids, c, b)
    ensures a == b
  {
    assert Cyclic(c, Distance(c, a)) == a && Cyclic(c, Distance(c, b)) == b;
  }

  /** A set with fewer than `n` elements leaves a number below `n` free. */
  lemma {:induction false} SomeIdIsFree(ids: set<nat>, n: nat) returns (free: nat)
    requires |ids| < n
    ensures free < n && free !in ids
    decreases n
  {
    free := n - 1;
    if free in ids {
      free := SomeIdIsFree(ids - {n - 1}, n - 1);
    }
  }

  // ---------------------------------------------------------------- hooks over time

  /**
   * An `InnerId` shared by `count` clones; `at` is how far the counter had come for it, and
   * `registered` tells that its destructor has not removed the id yet.
   */
  datatype Arc = Arc(id: nat, count: nat, at: nat, registered: bool)

  /** `arcs` holds one entry per hook ever created. */
  datatype State = State(ids: set<nat>, counter: nat, travelled: nat, arcs: seq<Arc>)

  /** Dropping the last clone and removing the id under the mutex are two steps. */
  datatype Action = NewHook(id: nat) | CloneHook(h: nat) | DropHook(h: nat) | RemoveId(h: nat)

  const FRESH := State({}, 0, 0, [])

  ghost predicate Enabled(s: State, a: Action) {
    match a
    case NewHook(id) => s.counter < USIZE && |s.ids| < USIZE - 1 && IsFirstFree(s.ids, s.counter, id)
    case CloneHook(h) => h < |s.arcs| && s.arcs[h].count > 0
    case DropHook(h) => h < |s.arcs| && s.arcs[h].count > 0
    case RemoveId(h) => h < |s.arcs| && s.arcs[h].count == 0 && s.arcs[h].registered
  }

  ghost function Apply(s: State, a: Action): State
    requires Enabled(s, a)
  {
    match a
    case NewHook(id) =>
      var at := s.travelled + Distance(s.counter, id);
      State(s.ids + {id}, Cyclic(id, 1), at + 1, s.arcs + [Arc(id, 1, at, true)])
    case CloneHook(h) =>
      s.(arcs := s.arcs[h := s.arcs[h].(count := s.arcs[h].count + 1)])
    case DropHook(h) =>
      s.(arcs := s.arcs[h := s.arcs[h].(count := s.arcs[h].count - 1)])
    case RemoveId(h) =>
      s.(arcs := s.arcs[h := s.arcs[h].(registered := false)], ids := s.ids - {s.arcs[h].id})
  }

  ghost predicate Live(s: State, h: nat) {
    h < |s.arcs| && s.arcs[h].count > 0
  }

  ghost predicate Registered(s: State, h: nat) {
    h < |s.arcs| && s.arcs[h].registered
  }

  /** The set holds exactly the ids still registered, no two of them equal; live hooks are registered. */
  ghost predicate IdsMatch(s: State) {
    && (forall h :: 0 <= h < |s.arcs| && s.arcs[h].count > 0 ==> s.arcs[h].registered)
    && (forall h :: 0 <= h < |s.arcs| && s.arcs[h].registered ==> s.arcs[h].id in s.ids)
    && (forall id :: id in s.ids ==> exists h: nat :: Registered(s, h) && s.arcs[h].id == id)
    && (forall h, k :: 0 <= h < k < |s.arcs| && s.arcs[h].registered && s.arcs[k].registered ==>
          s.arcs[h].id != s.arcs[k].id)
  }

  /** Ids are positions of the counter, which only moves forward. */
  ghost predicate Issued(s: State) {
    && s.counter < USIZE && s.counter == Wrapped(s.travelled)
    && (forall h :: 0 <= h < |s.arcs| ==> s.arcs[h].at < s.travelled && s.arcs[h].id == Wrapped(s.arcs[h].at))
    && (forall h, k :: 0 <= h < k < |s.arcs| ==> s.arcs[h].at < s.arcs[k].at)
  }

  function Wrapped(x: nat): nat {
    x % USIZE
  }

  ghost predicate Inv(s: State) {
    IdsOk(s.ids) && IdsMatch(s) && Issued(s)
  }

  lemma WrapStep(x: nat, d: nat)
    requires d <= USIZE
    ensures Wrapped(x) < USIZE && Wrapped(x + d) == Cyclic(Wrapped(x), d)
  {
  }

  lemma NewKeepsIssued(s: State, id: nat)
    requires Issued(s) && Enabled(s, NewHook(id))
    ensures Issued(Apply(s, NewHook(id)))
  {
    hide Wrapped;
    var d := Distance(s.counter, id);
    WrapStep(s.travelled, d);
    assert Cyclic(s.counter, d) == id;
    WrapStep(s.travelled + d, 1);
  }

  /** Every id is still that of a registered hook, the new one that of the new hook. */
  lemma NewIsHeld(s: State, id: nat)
    requires IdsMatch(s) && Enabled(s, NewHook(id))
    ensures var s' := Apply(s, NewHook(id));
            forall i :: i in s'.ids ==> exists h: nat :: Registered(s', h) && s'.arcs[h].id == i
  {
    hide Cyclic, Distance;
    var s' := Apply(s, NewHook(id));
    forall i | i in s'.ids ensures exists h: nat :: Registered(s', h) && s'.arcs[h].id == i {
      if i == id {
        assert Registered(s', |s.arcs|) && s'.arcs[|s.arcs|].id == id;
      } else {
        var h: nat :| Registered(s, h) && s.arcs[h].id == i;
        assert s'.arcs[h] == s.arcs[h] && Registered(s', h);
      }
    }
  }

  /** The new id is different from all that are still registered. */
  lemma NewIsDifferent(s: State, id: nat)
    requires IdsMatch(s) && id !in s.ids
    ensures forall h :: 0 <= h < |s.arcs| && s.arcs[h].registered ==> s.arcs[h].id != id
  {
  }

  lemma NewKeepsIds(s: State, id: nat)
    requires IdsMatch(s) && Enabled(s, NewHook(id))
    ensures IdsMatch(Apply(s, NewHook(id)))
  {
    NewIsHeld(s, id);
    NewIsDifferent(s, id);
    var s' := Apply(s, NewHook(id));
    AddedHook(s, s', s'.arcs[|s.arcs|]);
  }

  lemma AddedHook(s: State, s': State, arc: Arc)
    requires IdsMatch(s) && arc.registered
    requires s'.ids == s.ids + {arc.id} && s'.arcs == s.arcs + [arc]
    requires forall i :: i in s'.ids ==> exists h: nat :: Registered(s', h) && s'.arcs[h].id == i
    requires forall h :: 0 <= h < |s.arcs| && s.arcs[h].registered ==> s.arcs[h].id != arc.id
    ensures IdsMatch(s')
  {
    hide Registered;
  }

  lemma CountKeepsIds(s: State, a: Action)
    requires Inv(s) && Enabled(s, a) && !a.NewHook?
    ensures IdsMatch(Apply(s, a))
  {
    hide Wrapped, Issued;
    var s' := Apply(s, a);
    assert forall h :: 0 <= h < |s.arcs| ==> s'.arcs[h].id == s.arcs[h].id;
    forall i | i in s'.ids ensures exists h: nat :: Registered(s', h) && s'.arcs[h].id == i {
      var h: nat :| Registered(s, h) && s.arcs[h].id == i;
      assert Registered(s', h) && s'.arcs[h].id == i;
    }
  }

  lemma CountKeepsIssued(s: State, a: Action)
    requires Issued(s) && Enabled(s, a) && !a.NewHook?
    ensures Issued(Apply(s, a))
  {
    hide Wrapped;
  }

  lemma StepKeeps(s: State, a: Action)
    requires Inv(s) && Enabled(s, a)
    ensures Inv(Apply(s, a))
  {
    hide IdsMatch, Issued;
    if a.NewHook? {
      NewKeepsIds(s, a.id);
      NewKeepsIssued(s, a.id);
    } else {
      CountKeepsIds(s, a);
      CountKeepsIssued(s, a);
    }
  }

  ghost predicate Legal(s: State, acts: seq<Action>)
    decreases |acts|
  {
    acts == [] || (Enabled(s, acts[0]) && Legal(Apply(s, acts[0]), acts[1..]))
  }

  ghost function Run(s: State, acts: seq<Action>): State
    requires Legal(s, acts)
    decreases |acts|
  {
    if acts == [] then s else Run(Apply(s, acts[0]), acts[1..])
  }

  lemma {:induction false} RunKeeps(s: State, acts: seq<Action>)
    requires Inv(s) && Legal(s, acts)
    ensures Inv(Run(s, acts))
    decreases |acts|
  {
    if acts != [] {
      StepKeeps(s, acts[0]);
      RunKeeps(Apply(s, acts[0]), acts[1..]);
    }
  }

  /** How often an action occurs in a run. */
  function Occurrences(acts: seq<Action>, a: Action): nat {
    if acts == [] then 0 else (if acts[0] == a then 1 else 0) + Occurrences(acts[1..], a)
  }

  /** How many handles an action adds to hook `h`. */
  function Gain(a: Action, h: nat): int {
    if a == CloneHook(h) then 1 else if a == DropHook(h) then -1 else 0
  }

  lemma StepCounts(s: State, a: Action, h: nat)
    requires Enabled(s, a)
    ensures |s.arcs| <= |Apply(s, a).arcs|
    ensures h < |s.arcs| ==>
      var arc, arc' := s.arcs[h], Apply(s, a).arcs[h];
      && arc'.count == arc.count + Gain(a, h) && arc'.id == arc.id
      && (arc'.registered <==> arc.registered && a != RemoveId(h))
    ensures h >= |s.arcs| ==> Gain(a, h) == 0 && a != RemoveId(h)
    ensures |s.arcs| <= h < |Apply(s, a).arcs| ==> Apply(s, a).arcs[h].count == 1 && Apply(s, a).arcs[h].registered
  {
    hide IsFirstFree, Cyclic, Distance;
  }

  lemma {:induction false} CountFollows(s: State, acts: seq<Action>, h: nat)
    requires Legal(s, acts)
    ensures |s.arcs| <= |Run(s, acts).arcs|
    ensures h < |Run(s, acts).arcs| ==>
      var arc := Run(s, acts).arcs[h];
      var count := if h < |s.arcs| then s.arcs[h].count else 1;
      && arc.count == count + Occurrences(acts, CloneHook(h)) - Occurrences(acts, DropHook(h))
      && (arc.registered <==> (h < |s.arcs| ==> s.arcs[h].registered) && RemoveId(h) !in acts)
    decreases |acts|
  {
    if acts != [] {
      StepCounts(s, acts[0], h);
      hide Enabled, Apply;
      CountFollows(Apply(s, acts[0]), acts[1..], h);
      assert acts == [acts[0]] + acts[1..];
    }
  }

  /**
   * A hook has one handle from its creation, one more for each clone and one less for each
   * drop, and its id is in the set as long as the removal after the last drop has not come.
   */
  lemma HandlesAreCounted(acts: seq<Action>, h: nat)
    requires Legal(FRESH, acts) && h < |Run(FRESH, acts).arcs|
    ensures var arc := Run(FRESH, acts).arcs[h];
      && arc.count == 1 + Occurrences(acts, CloneHook(h)) - Occurrences(acts, DropHook(h))
      && (arc.registered <==> RemoveId(h) !in acts)
      && (Occurrences(acts, DropHook(h)) <= Occurrences(acts, CloneHook(h)) || RemoveId(h) !in acts ==>
            arc.id in Run(FRESH, acts).ids)
  {
    CountFollows(FRESH, acts, h);
    RunKeeps(FRESH, acts);
  }

  /** Live hooks compare equal exactly when one is a clone of the other. */
  lemma LiveHooksAreDistinct(acts: seq<Action>, h: nat, k: nat)
    requires Legal(FRESH, acts) && Live(Run(FRESH, acts), h) && Live(Run(FRESH, acts), k)
    ensures Run(FRESH, acts).arcs[h].id == Run(FRESH, acts).arcs[k].id <==> h == k
  {
    RunKeeps(FRESH, acts);
  }

  /** A hook that is live, or whose last clone is gone but whose id is still to be removed. */
  ghost predicate Pending(s: State, h: nat) {
    Live(s, h) || Enabled(s, RemoveId(h))
  }

  /** The registered ids are exactly those of the live hooks and of those just being dropped. */
  lemma RegisteredIsLive(acts: seq<Action>, id: nat)
    requires Legal(FRESH, acts)
    ensures id in Run(FRESH, acts).ids <==>
      exists h: nat :: Pending(Run(FRESH, acts), h) && Run(FRESH, acts).arcs[h].id == id
    ensures (forall h: nat :: !Enabled(Run(FRESH, acts), RemoveId(h))) ==>
      (id in Run(FRESH, acts).ids <==> exists h: nat :: Live(Run(FRESH, acts), h) && Run(FRESH, acts).arcs[h].id == id)
  {
    var s := Run(FRESH, acts);
    RunKeeps(FRESH, acts);
    if id in s.ids {
      var h: nat :| Registered(s, h) && s.arcs[h].id == id;
      assert Pending(s, h) && (Live(s, h) || Enabled(s, RemoveId(h)));
    }
  }

  /** No id is issued again, even after being dropped, before the counter has gone once around. */
  lemma NoReissueBeforeWrap(acts: seq<Action>, h: nat, k: nat)
    requires Legal(FRESH, acts) && h < k < |Run(FRESH, acts).arcs|
    requires Run(FRESH, acts).arcs[k].at - Run(FRESH, acts).arcs[h].at < USIZE
    ensures Run(FRESH, acts).arcs[h].id != Run(FRESH, acts).arcs[k].id
  {
    RunKeeps(FRESH, acts);
    var s := Run(FRESH, acts);
    WrapStep(s.arcs[h].at, s.arcs[k].at - s.arcs[h].at);
  }

  lemma CounterFits(s: State)
    requires Inv(s)
    ensures s.counter < USIZE
  {
  }

  // ---------------------------------------------------------------- the registry

  /** The shared id set and counter, with the reference counts of the hooks. */
  class Registry {
    var ids: set<nat>
    var counter: nat
    var counts: seq<nat>
    var hookIds: seq<nat>
    ghost var s: State

    ghost predicate Valid()
      reads this
    {
      && Inv(s) && ids == s.ids && counter == s.counter
      && |counts| == |hookIds| == |s.arcs|
      && (forall h :: 0 <= h < |counts| ==> counts[h] == s.arcs[h].count && hookIds[h] == s.arcs[h].id)
      && (forall h :: 0 <= h < |counts| ==> (counts[h] > 0 <==> s.arcs[h].registered))
    }

    constructor ()
      ensures Valid() && s == FRESH
    {
      ids, counter, counts, hookIds := {}, 0, [], [];
      s := FRESH;
    }

    /** The loop of `next`; `None` is the "Out of ids" panic. */
    method Next() returns (r: Option<nat>)
      requires IdsOk(ids) && counter < USIZE
      modifies this`ids, this`counter
      ensures r.None? <==> |old(ids)| == USIZE - 1
      ensures r.None? ==> ids == old(ids) && counter == old(counter)
      ensures r.Some? ==> IsFirstFree(old(ids), old(counter), r.value)
      ensures r.Some? ==> ids == old(ids) + {r.value} && counter == Cyclic(r.value, 1)
    {
      if |ids| == USIZE - 1 {
        return None;
      }
      ghost var start := counter;
      ghost var free := SomeIdIsFree(ids, USIZE);
      while counter in ids
        invariant counter < USIZE && ids == old(ids)
        invariant Distance(start, counter) + Distance(counter, free) == Distance(start, free)
        invariant forall d :: 0 <= d < Distance(start, counter) ==> Cyclic(start, d) in ids
        decreases Distance(counter, free)
      {
        assert Cyclic(start, Distance(start, counter)) == counter;
        counter := if counter == USIZE - 1 then 0 else counter + 1;
      }
      ids := ids + {counter};
      var id := counter;
      counter := if counter == USIZE - 1 then 0 else counter + 1;
      return Some(id);
    }

    method NewHook() returns (h: Option<nat>)
      requires Valid()
      modifies this
      ensures Valid()
      ensures h.None? <==> |old(ids)| == USIZE - 1
      ensures h.None? ==> s == old(s)
      ensures h.Some? ==>
        && h.value == |old(s).arcs|
        && exists id :: Enabled(old(s), Action.NewHook(id)) && s == Apply(old(s), Action.NewHook(id))
    {
      hide IdsMatch, Issued, IsFirstFree, Wrapped;
      CounterFits(s);
      var id := Next();
      if id.None? {
        return None;
      }
      assert Enabled(s, Action.NewHook(id.value));
      StepKeeps(s, Action.NewHook(id.value));
      s := Apply(s, Action.NewHook(id.value));
      counts, hookIds := counts + [1], hookIds + [id.value];
      return Some(|counts| - 1);
    }

    method CloneHook(h: nat)
      requires Valid() && h < |counts| && counts[h] > 0
      modifies this
      ensures Valid() && s == Apply(old(s), Action.CloneHook(h))
    {
      StepKeeps(s, Action.CloneHook(h));
      s := Apply(s, Action.CloneHook(h));
      counts := counts[h := counts[h] + 1];
    }

    method DropHook(h: nat)
      requires Valid() && h < |counts| && counts[h] > 0
      modifies this
      ensures Valid()
      ensures var dropped := Apply(old(s), Action.DropHook(h));
              s == if old(counts)[h] == 1 then Apply(dropped, Action.RemoveId(h)) else dropped
    {
      hide IdsMatch, Issued;
      StepKeeps(s, Action.DropHook(h));
      s := Apply(s, Action.DropHook(h));
      counts := counts[h := counts[h] - 1];
      if counts[h] == 0 {
        StepKeeps(s, Action.RemoveId(h));
        s := Apply(s, Action.RemoveId(h));
        ids := ids - {hookIds[h]};
      }
    }
  }
}
