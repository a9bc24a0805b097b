/**
 * Calls of `get_or_insert` and `insert_if_missing` on different threads. Their look-up,
 * append and, for the former, search of the last cell are separate steps, each of which acts
 * on the list at one instant.
 */
module InsertingCalls {
  import opened Prelude
  import opened UserDataCells
  import Lists = ConcurrentUserData
  import UserDataMap

  datatype Kind = GetOrInsert | InsertIfMissing

  datatype Call = Call(kind: Kind, q: Query, value: int, threadSafe: bool)

  /** How far a call has come; `Unwrapped(None)` is the panic of the `unwrap`. */
  datatype Phase =
    | NotBegun
    | Missed
    | Appended
    | Inserted
    | Found(value: int)
    | Unwrapped(r: Option<int>)

  /** `authors` tells, as history, which call appended each cell that was not there at the start. */
  datatype State = State(cells: seq<UserData>, authors: seq<nat>, phases: seq<Phase>)

  datatype Action = Look(i: nat, r: Option<int>) | Append(i: nat) | TakeLast(i: nat)

  function CellOf(c: Call): UserData {
    UserDataMap.Cell(c.q, c.value, c.threadSafe)
  }

  function Begin(cells: seq<UserData>, calls: seq<Call>): State {
    State(cells, [], seq(|calls|, _ => NotBegun))
  }

  predicate Running(p: Phase) {
    p.Missed? || p.Appended?
  }

  /** A thread makes one call at a time. */
  ghost predicate Enabled(calls: seq<Call>, s: State, a: Action) {
    && a.i < |calls| == |s.phases|
    && match a
       case Look(i, r) =>
         && s.phases[i].NotBegun? && IsAnswer(s.cells, calls[i].q, r)
         && forall j :: 0 <= j < |calls| && Running(s.phases[j]) ==> !SameThread(calls[i], calls[j])
       case Append(i) => s.phases[i].Missed?
       case TakeLast(i) => s.phases[i].Appended?
  }

  ghost function Apply(calls: seq<Call>, s: State, a: Action): State
    requires Enabled(calls, s, a)
  {
    match a
    case Look(i, r) =>
      s.(phases := s.phases[i := if r.Some? then Found(r.value) else Missed])
    case Append(i) =>
      State(s.cells + [CellOf(calls[i])], s.authors + [i],
            s.phases[i := if calls[i].kind.GetOrInsert? then Appended else Inserted])
    case TakeLast(i) =>
      s.(phases := s.phases[i := Unwrapped(if s.cells == [] then None else Last(s.cells).Get(calls[i].q))])
  }

  ghost predicate Legal(calls: seq<Call>, s: State, acts: seq<Action>)
    decreases |acts|
  {
    acts == [] || (Enabled(calls, s, acts[0]) && Legal(calls, Apply(calls, s, acts[0]), acts[1..]))
  }

  ghost function Run(calls: seq<Call>, s: State, acts: seq<Action>): State
    requires Legal(calls, s, acts)
    decreases |acts|
  {
    if acts == [] then s else Run(calls, Apply(calls, s, acts[0]), acts[1..])
  }

  // ---------------------------------------------------------------- steps of the list

  /** What an observer of the list sees of a step; the task that appends is numbered like the call. */
  function EventsOf(calls: seq<Call>, s: State, a: Action): seq<Lists.Event>
    requires a.i < |calls|
  {
    match a
    case Look(i, r) => [Lists.Answered(calls[i].q, r)]
    case Append(i) => [Lists.Invoked(i, [CellOf(calls[i])]), Lists.Appended(i)]
    case TakeLast(i) => [Lists.Exhausted(s.cells)]
  }

  /** Every step is one of the sequential list that the concurrent one is linearized to. */
  lemma StepIsSpecRun(calls: seq<Call>, s: State, a: Action)
    requires Enabled(calls, s, a)
    ensures var c, c' := Lists.Spec(s.cells, map[]), Lists.Spec(Apply(calls, s, a).cells, map[]);
            Lists.SpecRun(c, EventsOf(calls, s, a), c')
  {
    var es := EventsOf(calls, s, a);
    var c := Lists.Spec(s.cells, map[]);
    var c' := Lists.Spec(Apply(calls, s, a).cells, map[]);
    assert Lists.SpecRun(c', [], c');
    match a
    case Append(i) =>
      var m := Lists.Spec(s.cells, map[i := [CellOf(calls[i])]]);
      assert Lists.SpecStep(c, es[0], m);
      assert Lists.SpecStep(m, es[1..][0], c') by {
        assert m.pending - {i} == map[];
      }
      assert es[1..][1..] == [];
      assert Lists.SpecRun(m, es[1..], c');
    case _ =>
      assert es[1..] == [];
      assert Lists.SpecStep(c, es[0], c');
  }

  // ---------------------------------------------------------------- the invariant

  /** The call would find nothing in these cells. */
  ghost predicate Misses(cells: seq<UserData>, c: Call) {
    NoMatch(cells, |cells|, c.q)
  }

  ghost predicate Sees(c: Call, other: Call) {
    CellOf(other).Get(c.q).Some?
  }

  ghost predicate CellsOk(cells: seq<UserData>, calls: seq<Call>, s: State) {
    && |s.cells| == |cells| + |s.authors|
    && cells <= s.cells
    && Within(s.authors, |calls|)
    && (forall k :: 0 <= k < |s.authors| ==> s.cells[|cells| + k] == CellOf(calls[s.authors[k]]))
    && (forall k :: 0 <= k < |s.authors| ==> Misses(cells, calls[s.authors[k]]))
  }

  /** What a call that has missed, and one that has appended, may rely on. */
  ghost predicate MissedOk(cells: seq<UserData>, calls: seq<Call>, s: State, i: nat)
    requires i < |calls| && Within(s.authors, |calls|)
  {
    && Misses(cells, calls[i])
    && forall k :: 0 <= k < |s.authors| && SameThread(calls[s.authors[k]], calls[i]) ==>
         !Sees(calls[i], calls[s.authors[k]])
  }

  ghost predicate AppendedOk(cells: seq<UserData>, calls: seq<Call>, s: State, i: nat)
    requires i < |calls| && Within(s.authors, |calls|)
  {
    && calls[i].kind.GetOrInsert? && Misses(cells, calls[i])
    && s.authors != [] && (Last(s.authors) == i || !SameThread(calls[Last(s.authors)], calls[i]))
  }

  predicate SameThread(c: Call, d: Call) {
    c.q.thread == d.q.thread
  }

  ghost predicate PhasesOk(cells: seq<UserData>, calls: seq<Call>, s: State)
    requires Within(s.authors, |calls|)
  {
    && |s.phases| == |calls|
    && (forall i :: 0 <= i < |calls| && s.phases[i].Missed? ==> MissedOk(cells, calls, s, i))
    && (forall i :: 0 <= i < |calls| && s.phases[i].Appended? ==> AppendedOk(cells, calls, s, i))
    && (forall i, j :: 0 <= i < j < |calls| && Running(s.phases[i]) && Running(s.phases[j]) ==>
          !SameThread(calls[i], calls[j]))
  }

  ghost predicate Inv(cells: seq<UserData>, calls: seq<Call>, s: State) {
    CellsOk(cells, calls, s) && PhasesOk(cells, calls, s)
  }

  lemma LookKeeps(cells: seq<UserData>, calls: seq<Call>, s: State, i: nat, r: Option<int>)
    requires Inv(cells, calls, s) && Enabled(calls, s, Look(i, r))
    ensures Inv(cells, calls, Apply(calls, s, Look(i, r)))
  {
    if r.None? {
      assert forall k :: 0 <= k < |cells| ==> cells[k] == s.cells[k];
      forall k | 0 <= k < |s.authors| ensures !Sees(calls[i], calls[s.authors[k]]) {
        assert s.cells[|cells| + k].Get(calls[i].q).None?;
      }
    }
  }

  lemma StepKeeps(cells: seq<UserData>, calls: seq<Call>, s: State, a: Action)
    requires Inv(cells, calls, s) && Enabled(calls, s, a)
    ensures Inv(cells, calls, Apply(calls, s, a))
  {
    if a.Look? {
      LookKeeps(cells, calls, s, a.i, a.r);
    }
  }

  // ---------------------------------------------------------------- the unwrap

  /** Call `i` may take the cell of `j` for its own, although it cannot see what is in it. */
  ghost predicate Hides(cells: seq<UserData>, calls: seq<Call>, i: nat, j: nat) {
    && i < |calls| && j < |calls| && calls[i].kind.GetOrInsert?
    && !SameThread(calls[i], calls[j])
    && Misses(cells, calls[i]) && Misses(cells, calls[j]) && !Sees(calls[i], calls[j])
  }

  ghost predicate NeverPanics(cells: seq<UserData>, calls: seq<Call>) {
    forall acts | Legal(calls, Begin(cells, calls), acts) ::
      Unwrapped(None) !in Run(calls, Begin(cells, calls), acts).phases
  }

  lemma SeesItsOwn(c: Call)
    ensures Sees(c, c)
  {
  }

  /** The last cell is a call's own, or that of one whose cells it can see. */
  lemma StepDoesNotPanic(cells: seq<UserData>, calls: seq<Call>, s: State, a: Action)
    requires Inv(cells, calls, s) && Enabled(calls, s, a) && Unwrapped(None) !in s.phases
    requires forall i, j :: !Hides(cells, calls, i, j)
    ensures Unwrapped(None) !in Apply(calls, s, a).phases
  {
    if a.TakeLast? {
      var j := Last(s.authors);
      SeesItsOwn(calls[a.i]);
      assert !Hides(cells, calls, a.i, j);
      assert s.cells[|cells| + |s.authors| - 1] == CellOf(calls[j]);
      assert Last(s.cells).Get(calls[a.i].q).Some?;
    }
  }

  lemma {:induction false} RunDoesNotPanic(cells: seq<UserData>, calls: seq<Call>, s: State, acts: seq<Action>)
    requires Inv(cells, calls, s) && Legal(calls, s, acts) && Unwrapped(None) !in s.phases
    requires forall i, j :: !Hides(cells, calls, i, j)
    ensures Unwrapped(None) !in Run(calls, s, acts).phases
    decreases |acts|
  {
    if acts != [] {
      StepKeeps(cells, calls, s, acts[0]);
      StepDoesNotPanic(cells, calls, s, acts[0]);
      RunDoesNotPanic(cells, calls, Apply(calls, s, acts[0]), acts[1..]);
    }
  }

  /** Two calls both look before either appends. */
  function BothMiss(i: nat, j: nat): seq<Action> {
    [Look(i, None), Look(j, None), Append(i), Append(j)]
  }

  lemma BothMissThen(cells: seq<UserData>, calls: seq<Call>, i: nat, j: nat, rest: seq<Action>) returns (t: State)
    requires i < |calls| && j < |calls| && !SameThread(calls[i], calls[j])
    requires Misses(cells, calls[i]) && Misses(cells, calls[j])
    ensures t.authors == [i, j] && t.cells == cells + [CellOf(calls[i])] + [CellOf(calls[j])]
    ensures |t.phases| == |calls| && (calls[i].kind.GetOrInsert? ==> t.phases[i] == Appended)
    ensures Legal(calls, t, rest) ==>
      var s, acts := Begin(cells, calls), BothMiss(i, j) + rest;
      Legal(calls, s, acts) && Run(calls, s, acts) == Run(calls, t, rest)
  {
    var s := Begin(cells, calls);
    var s1 := Apply(calls, s, Look(i, None));
    var s2 := Apply(calls, s1, Look(j, None));
    var s3 := Apply(calls, s2, Append(i));
    t := Apply(calls, s3, Append(j));
    assert t.authors == [i, j];
    if Legal(calls, t, rest) {
      RunOne(calls, s3, Append(j), rest);
      RunOne(calls, s2, Append(i), [Append(j)] + rest);
      RunOne(calls, s1, Look(j, None), [Append(i)] + ([Append(j)] + rest));
      RunOne(calls, s, Look(i, None), [Look(j, None)] + ([Append(i)] + ([Append(j)] + rest)));
      assert [Look(i, None)] + ([Look(j, None)] + ([Append(i)] + ([Append(j)] + rest))) == BothMiss(i, j) + rest;
    }
  }

  lemma RunOne(calls: seq<Call>, s: State, a: Action, rest: seq<Action>)
    requires Enabled(calls, s, a) && Legal(calls, Apply(calls, s, a), rest)
    ensures Legal(calls, s, [a] + rest)
    ensures Run(calls, s, [a] + rest) == Run(calls, Apply(calls, s, a), rest)
  {
    assert ([a] + rest)[1..] == rest;
  }

  /** The clash: `j` appends between the append of `i` and its search of the last cell. */
  lemma HiddenCallPanics(cells: seq<UserData>, calls: seq<Call>, i: nat, j: nat)
    requires Hides(cells, calls, i, j)
    ensures var acts := BothMiss(i, j) + [TakeLast(i)];
      Legal(calls, Begin(cells, calls), acts) && Unwrapped(None) in Run(calls, Begin(cells, calls), acts).phases
  {
    var t := BothMissThen(cells, calls, i, j, [TakeLast(i)]);
    RunOne(calls, t, TakeLast(i), []);
    assert [TakeLast(i)] + [] == [TakeLast(i)];
    assert Run(calls, t, [TakeLast(i)]).phases[i] == Unwrapped(None);
  }

  /**
   * `get_or_insert` never panics, in any interleaving of the calls, exactly if among the
   * calls that find nothing in the list as it is, none on another thread inserts a cell that
   * it cannot see.
   */
  lemma NeverPanicsExactly(cells: seq<UserData>, calls: seq<Call>)
    ensures NeverPanics(cells, calls) <==> forall i, j :: !Hides(cells, calls, i, j)
  {
    if forall i, j :: !Hides(cells, calls, i, j) {
      forall acts | Legal(calls, Begin(cells, calls), acts)
        ensures Unwrapped(None) !in Run(calls, Begin(cells, calls), acts).phases
      {
        RunDoesNotPanic(cells, calls, Begin(cells, calls), acts);
      }
    } else {
      var i, j :| Hides(cells, calls, i, j);
      HiddenCallPanics(cells, calls, i, j);
    }
  }

  // ---------------------------------------------------------------- what a call answers

  /** A cell of the list, visible to the call, holds this value. */
  ghost predicate Holds(s: State, c: Call, v: int) {
    exists k :: 0 <= k < |s.cells| && s.cells[k].Get(c.q) == Some(v)
  }

  /** What a call answers, and what it inserted. */
  ghost predicate AnswersOk(calls: seq<Call>, s: State) {
    && |s.phases| == |calls|
    && (forall i, v :: 0 <= i < |calls| && s.phases[i] == Found(v) ==> Holds(s, calls[i], v))
    && (forall i, v :: 0 <= i < |calls| && s.phases[i] == Unwrapped(Some(v)) ==> Holds(s, calls[i], v))
    && (forall i :: 0 <= i < |calls| && HasInserted(s.phases[i]) ==> CellOf(calls[i]) in s.cells)
  }

  predicate HasInserted(p: Phase) {
    p.Appended? || p.Inserted? || p.Unwrapped?
  }

  lemma HoldsStays(s: State, s': State, c: Call, v: int)
    requires Holds(s, c, v) && s.cells <= s'.cells
    ensures Holds(s', c, v)
  {
    var k :| 0 <= k < |s.cells| && s.cells[k].Get(c.q) == Some(v);
    assert s'.cells[k] == s.cells[k];
  }

  lemma StepAnswers(calls: seq<Call>, s: State, a: Action)
    requires AnswersOk(calls, s) && Enabled(calls, s, a)
    ensures AnswersOk(calls, Apply(calls, s, a)) && s.cells <= Apply(calls, s, a).cells
  {
    var s' := Apply(calls, s, a);
    if a.Look? && a.r.Some? {
      var k :| 0 <= k < |s.cells| && s.cells[k].Get(calls[a.i].q) == a.r;
      assert Holds(s', calls[a.i], a.r.value);
    }
    if a.TakeLast? && s.cells != [] && Last(s.cells).Get(calls[a.i].q).Some? {
      assert s.cells[|s.cells| - 1] == Last(s.cells);
      assert Holds(s', calls[a.i], Last(s.cells).Get(calls[a.i].q).value);
    }
    hide Holds;
    forall i, v | 0 <= i < |calls| && (s'.phases[i] == Found(v) || s'.phases[i] == Unwrapped(Some(v)))
      ensures Holds(s', calls[i], v)
    {
      if i != a.i || a.Append? {
        HoldsStays(s, s', calls[i], v);
      }
    }
  }

  lemma {:induction false} RunAnswers(calls: seq<Call>, s: State, acts: seq<Action>)
    requires AnswersOk(calls, s) && Legal(calls, s, acts)
    ensures AnswersOk(calls, Run(calls, s, acts)) && s.cells <= Run(calls, s, acts).cells
    decreases |acts|
  {
    if acts != [] {
      StepAnswers(calls, s, acts[0]);
      RunAnswers(calls, Apply(calls, s, acts[0]), acts[1..]);
    }
  }

  /**
   * Whatever the interleaving, a value that a call answers is that of a cell on the list
   * which the call can see, a call that inserted has its own cell there, and one that found
   * something answered what a look-up on the list of that instant gives.
   */
  lemma AnswersAreOnTheList(cells: seq<UserData>, calls: seq<Call>, acts: seq<Action>)
    requires Legal(calls, Begin(cells, calls), acts)
    ensures AnswersOk(calls, Run(calls, Begin(cells, calls), acts))
  {
    RunAnswers(calls, Begin(cells, calls), acts);
  }

  /** A look-up that finds something is answered with it, and the call ends without inserting. */
  lemma FoundIsAnswer(calls: seq<Call>, s: State, i: nat, r: Option<int>)
    requires Enabled(calls, s, Look(i, r))
    ensures var s' := Apply(calls, s, Look(i, r));
      && s'.cells == s.cells && IsAnswer(s.cells, calls[i].q, r)
      && (forall v :: s'.phases[i] == Found(v) <==> r == Some(v))
      && (Enabled(calls, s', Append(i)) <==> r == None)
  {
  }

  // ---------------------------------------------------------------- inserting once

  /** A cell was appended by a call that can see one appended before it. */
  ghost predicate Doubled(calls: seq<Call>, s: State) {
    exists k, l :: 0 <= k < l < |s.authors| && s.authors[k] < |calls| && s.authors[l] < |calls|
      && Sees(calls[s.authors[l]], calls[s.authors[k]])
  }

  ghost predicate NeverDoubles(cells: seq<UserData>, calls: seq<Call>) {
    forall acts | Legal(calls, Begin(cells, calls), acts) ::
      !Doubled(calls, Run(calls, Begin(cells, calls), acts))
  }

  /** Both calls may insert, although one can see the cell of the other. */
  ghost predicate Competes(cells: seq<UserData>, calls: seq<Call>, i: nat, j: nat) {
    && i < |calls| && j < |calls| && !SameThread(calls[i], calls[j])
    && Misses(cells, calls[i]) && Misses(cells, calls[j]) && Sees(calls[j], calls[i])
  }

  lemma StepDoesNotDouble(cells: seq<UserData>, calls: seq<Call>, s: State, a: Action)
    requires Inv(cells, calls, s) && Enabled(calls, s, a) && !Doubled(calls, s)
    requires forall i, j :: !Competes(cells, calls, i, j)
    ensures !Doubled(calls, Apply(calls, s, a))
  {
    if a.Append? {
      forall k | 0 <= k < |s.authors| ensures !Sees(calls[a.i], calls[s.authors[k]]) {
        assert !Competes(cells, calls, s.authors[k], a.i);
      }
    }
  }

  lemma {:induction false} RunDoesNotDouble(cells: seq<UserData>, calls: seq<Call>, s: State, acts: seq<Action>)
    requires Inv(cells, calls, s) && Legal(calls, s, acts) && !Doubled(calls, s)
    requires forall i, j :: !Competes(cells, calls, i, j)
    ensures !Doubled(calls, Run(calls, s, acts))
    decreases |acts|
  {
    if acts != [] {
      StepKeeps(cells, calls, s, acts[0]);
      StepDoesNotDouble(cells, calls, s, acts[0]);
      RunDoesNotDouble(cells, calls, Apply(calls, s, acts[0]), acts[1..]);
    }
  }

  /**
   * No call inserts beside a cell that it can see, in any interleaving, exactly if no two
   * calls on different threads both find nothing in the list as it is, one of which could see
   * the cell of the other.
   */
  lemma NeverDoublesExactly(cells: seq<UserData>, calls: seq<Call>)
    ensures NeverDoubles(cells, calls) <==> forall i, j :: !Competes(cells, calls, i, j)
  {
    if forall i, j :: !Competes(cells, calls, i, j) {
      forall acts | Legal(calls, Begin(cells, calls), acts)
        ensures !Doubled(calls, Run(calls, Begin(cells, calls), acts))
      {
        RunDoesNotDouble(cells, calls, Begin(cells, calls), acts);
      }
    } else {
      var i, j :| Competes(cells, calls, i, j);
      var t := BothMissThen(cells, calls, i, j, []);
      assert BothMiss(i, j) + [] == BothMiss(i, j);
      assert t.authors[0] == i && t.authors[1] == j;
      assert Doubled(calls, t);
    }
  }
}
