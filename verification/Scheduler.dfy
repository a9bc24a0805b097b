/**
 * The staged setup: the main thread runs stages until one needs a background task; the
 * background thread then waits for it and goes through the remaining stages.
 */
module Scheduler {
  import opened Arithmetic
  import opened Prelude

  /**
   * What calling a stage gives: nothing to do, a task that will finish or fail, or a panic
   * of the calling thread itself.
   */
  datatype Outcome = DoneBefore | Task(ok: bool) | Panics

  predicate Fails(o: Outcome) {
    o == Task(false) || o.Panics?
  }

  datatype Thread = MainThread | BackgroundThread

  datatype Event =
    | Started(stage: nat, on: Thread)
    | Joined(stage: nat, ok: bool)
    | Progress(value: nat)
    | SentError
    | SentFinished

  datatype Backend = Wayland | WebView

  const U16 := 0x1_0000

  /** `(j as u16 * 100 / stages.len() as u16)`; `None` when the product overflows. */
  function Percent(j: nat, n: nat): Option<nat>
    requires 0 < n < U16 && j <= n
  {
    if j * 100 < U16 then Some(Div(j * 100, n)) else None
  }

  /** The percentage is the share of the stages that are through, rounded down. */
  lemma PercentIsShare(j: nat, n: nat, v: nat)
    requires 0 < n < U16 && j <= n && Percent(j, n) == Some(v)
    ensures v * n <= j * 100 < (v + 1) * n
  {
    assert j * 100 == v * n + j * 100 % n;
  }

  /** The progress arithmetic overflows for no stage exactly up to 655 stages. */
  lemma PercentFits(n: nat)
    requires 0 < n < U16
    ensures (forall j :: 0 <= j <= n ==> Percent(j, n).Some?) <==> n <= 655
  {
    if n > 655 {
      assert Percent(656, n).None?;
    }
  }

  lemma PercentIsMonotone(i: nat, j: nat, n: nat)
    requires 0 < n <= 655 && i <= j <= n
    ensures Percent(i, n).Some? && Percent(j, n).Some?
    ensures Percent(i, n).value <= Percent(j, n).value <= 100
    ensures Percent(j, n).value == 100 <==> j == n
  {
    DivMonotone(i * 100, j * 100, n);
    DivMonotone(j * 100, n * 100, n);
    DivModIs(n * 100, 100, 0, n);
    if j < n {
      DivMonotone(j * 100, n * 100 - 1, n);
      DivModIs(n * 100 - 1, 99, n - 1, n);
    }
  }

  // ---------------------------------------------------------------- what a run must look like

  /** Before position `k`, stage `i` was called and had nothing to do, or its task was joined successfully. */
  ghost predicate Cleared(log: seq<Event>, outcomes: seq<Outcome>, k: nat, i: nat)
    requires k <= |log|
  {
    i < |outcomes| && exists a :: 0 <= a < k && ClearedFrom(log, outcomes, k, i, a)
  }

  ghost predicate ClearedFrom(log: seq<Event>, outcomes: seq<Outcome>, k: nat, i: nat, a: nat)
    requires a < k <= |log| && i < |outcomes|
  {
    && log[a].Started? && log[a].stage == i
    && (outcomes[i].DoneBefore? || exists b :: a < b < k && log[b] == Joined(i, true))
  }

  ghost predicate AllCleared(log: seq<Event>, outcomes: seq<Outcome>, k: nat, n: nat)
    requires k <= |log|
  {
    forall i :: 0 <= i < n ==> Cleared(log, outcomes, k, i)
  }

  /** A stage starts on its thread, only after all earlier ones are through, and at most once. */
  ghost predicate StagesInOrder(log: seq<Event>, outcomes: seq<Outcome>) {
    && (forall k :: 0 <= k < |log| && log[k].Started? ==> AllCleared(log, outcomes, k, log[k].stage))
    && (forall k :: 0 <= k < |log| ==> RightThread(outcomes, log[k]))
    && (forall a, b :: 0 <= a < b < |log| && log[a].Started? && log[b].Started? ==> log[a].stage < log[b].stage)
  }

  /** The main thread runs a stage exactly when every earlier one had nothing to do. */
  ghost predicate RightThread(outcomes: seq<Outcome>, e: Event) {
    e.Started? ==> (e.on.MainThread? <==> forall i :: 0 <= i < e.stage && i < |outcomes| ==> outcomes[i].DoneBefore?)
  }

  /**
   * The background thread starts a stage right after reporting its percentage, and waits for
   * a task right after starting the stage, or for its first one after reporting.
   */
  ghost predicate AnnouncedAt(log: seq<Event>, k: nat, outcomes: seq<Outcome>)
    requires k < |log|
  {
    && (k > 0 ==> Follows(log[k - 1], log[k], outcomes))
    && match log[k]
       case Started(j, BackgroundThread) => k > 0 && IsPercent(log[k - 1], j, |outcomes|)
       case Joined(j, _) =>
         k > 0 && (log[k - 1] == Started(j, BackgroundThread) || IsPercent(log[k - 1], j, |outcomes|))
       case _ => true
  }

  /**
   * What may come right after an event: a stage with nothing to do gives way to the next, a
   * task is reported or waited for, and a stage that is through on the background thread is
   * followed by the percentage of the next one.
   */
  ghost predicate Follows(before: Event, e: Event, outcomes: seq<Outcome>) {
    match before
    case Started(j, MainThread) =>
      && j < |outcomes|
      && (outcomes[j].DoneBefore? ==> e == Started(j + 1, MainThread))
      && (outcomes[j].Task? ==> IsPercent(e, j, |outcomes|))
    case Started(j, BackgroundThread) =>
      && j < |outcomes|
      && (outcomes[j].DoneBefore? ==> IsPercent(e, j + 1, |outcomes|))
      && (outcomes[j].Task? ==> e == Joined(j, outcomes[j].ok))
    case Joined(j, ok) => if ok then IsPercent(e, j + 1, |outcomes|) else e == SentError
    case _ => true
  }

  ghost predicate IsPercent(e: Event, j: nat, n: nat) {
    0 < n < U16 && j <= n && e.Progress? && Percent(j, n) == Some(e.value)
  }

  ghost predicate Announced(log: seq<Event>, outcomes: seq<Outcome>) {
    forall k :: 0 <= k < |log| ==> AnnouncedAt(log, k, outcomes)
  }

  /** Progress never goes back, stays within 100, and is 100 only when every stage is through. */
  ghost predicate ProgressOk(log: seq<Event>, outcomes: seq<Outcome>) {
    && (forall a, b :: 0 <= a < b < |log| && log[a].Progress? && log[b].Progress? ==> log[a].value <= log[b].value)
    && (forall k :: 0 <= k < |log| && log[k].Progress? ==> log[k].value <= 100)
    && (forall k :: 0 <= k < |log| && log[k] == Progress(100) ==> AllCleared(log, outcomes, k, |outcomes|))
  }

  /** Nothing has ended yet, and exactly the stages below `upto` were started and are through. */
  ghost predicate Through(log: seq<Event>, outcomes: seq<Outcome>, upto: nat) {
    && AllCleared(log, outcomes, |log|, upto)
    && (forall k :: 0 <= k < |log| ==> !log[k].SentError? && !log[k].SentFinished?)
    && (forall k :: 0 <= k < |log| && log[k].Started? ==> log[k].stage < upto)
  }

  ghost predicate Below(log: seq<Event>, value: nat) {
    forall k :: 0 <= k < |log| && log[k].Progress? ==> log[k].value <= value
  }

  lemma ClearedStays(log: seq<Event>, outcomes: seq<Outcome>, k: nat, n: nat, more: seq<Event>)
    requires k <= |log| && AllCleared(log, outcomes, k, n)
    ensures forall l :: k <= l <= |log + more| ==> AllCleared(log + more, outcomes, l, n)
  {
    forall l, i | k <= l <= |log + more| && 0 <= i < n ensures Cleared(log + more, outcomes, l, i) {
      assert Cleared(log, outcomes, k, i);
      var a :| 0 <= a < k && ClearedFrom(log, outcomes, k, i, a);
      assert (log + more)[a] == log[a];
      if !outcomes[i].DoneBefore? {
        var b :| a < b < k && log[b] == Joined(i, true);
        assert (log + more)[b] == log[b];
      }
      assert ClearedFrom(log + more, outcomes, l, i, a);
    }
  }

  /** What an event needs of what came before it. */
  ghost predicate MayCome(log: seq<Event>, outcomes: seq<Outcome>, e: Event) {
    && RightThread(outcomes, e)
    && (e.Started? ==> AllCleared(log, outcomes, |log|, e.stage))
    && (e.Started? ==> forall k :: 0 <= k < |log| && log[k].Started? ==> log[k].stage < e.stage)
    && (e.Progress? ==> Below(log, e.value) && e.value <= 100)
    && (e == Progress(100) ==> AllCleared(log, outcomes, |log|, |outcomes|))
  }

  /** One more event keeps order and progress when it is allowed where it comes. */
  lemma OneMore(log: seq<Event>, outcomes: seq<Outcome>, e: Event)
    requires StagesInOrder(log, outcomes) && ProgressOk(log, outcomes)
    requires MayCome(log, outcomes, e)
    ensures StagesInOrder(log + [e], outcomes) && ProgressOk(log + [e], outcomes)
  {
    var log' := log + [e];
    forall k | 0 <= k < |log'| && log'[k].Started? ensures AllCleared(log', outcomes, k, log'[k].stage) {
      if k < |log| {
        assert AllCleared(log, outcomes, k, log[k].stage);
        ClearedStays(log, outcomes, k, log[k].stage, [e]);
      } else {
        ClearedStays(log, outcomes, |log|, e.stage, [e]);
      }
    }
    forall k | 0 <= k < |log'| && log'[k] == Progress(100) ensures AllCleared(log', outcomes, k, |outcomes|) {
      if k < |log| {
        assert AllCleared(log, outcomes, k, |outcomes|);
        ClearedStays(log, outcomes, k, |outcomes|, [e]);
      } else {
        ClearedStays(log, outcomes, |log|, |outcomes|, [e]);
      }
    }
  }

  /** Like `Through`, with stage `j` started too. */
  ghost predicate Begun(log: seq<Event>, outcomes: seq<Outcome>, j: nat) {
    && AllCleared(log, outcomes, |log|, j)
    && (forall k :: 0 <= k < |log| ==> !log[k].SentError? && !log[k].SentFinished?)
    && (forall k :: 0 <= k < |log| && log[k].Started? ==> log[k].stage <= j)
    && (exists k :: 0 <= k < |log| && log[k].Started? && log[k].stage == j)
  }

  lemma Begin(log: seq<Event>, outcomes: seq<Outcome>, j: nat, on: Thread)
    requires Through(log, outcomes, j)
    ensures Begun(log + [Started(j, on)], outcomes, j)
  {
    var log' := log + [Started(j, on)];
    ClearedStays(log, outcomes, |log|, j, [Started(j, on)]);
    assert AllCleared(log', outcomes, |log'|, j) && log'[|log|] == Started(j, on);
  }

  lemma NothingToDo(log: seq<Event>, outcomes: seq<Outcome>, j: nat)
    requires Begun(log, outcomes, j) && j < |outcomes| && outcomes[j].DoneBefore?
    ensures Through(log, outcomes, j + 1)
  {
    var k :| 0 <= k < |log| && log[k].Started? && log[k].stage == j;
    assert ClearedFrom(log, outcomes, |log|, j, k);
  }

  lemma JoinedWell(log: seq<Event>, outcomes: seq<Outcome>, j: nat)
    requires Begun(log, outcomes, j) && j < |outcomes|
    ensures Through(log + [Joined(j, true)], outcomes, j + 1)
  {
    var log' := log + [Joined(j, true)];
    ClearedStays(log, outcomes, |log|, j, [Joined(j, true)]);
    var k :| 0 <= k < |log| && log[k].Started? && log[k].stage == j;
    assert log'[k] == log[k] && log'[|log|] == Joined(j, true);
    assert ClearedFrom(log', outcomes, |log'|, j, k);
    assert AllCleared(log', outcomes, |log'|, j) && Cleared(log', outcomes, |log'|, j);
  }

  lemma ReportKeeps(log: seq<Event>, outcomes: seq<Outcome>, j: nat, value: nat)
    ensures Begun(log, outcomes, j) ==> Begun(log + [Progress(value)], outcomes, j)
    ensures Through(log, outcomes, j) ==> Through(log + [Progress(value)], outcomes, j)
  {
    var log' := log + [Progress(value)];
    if AllCleared(log, outcomes, |log|, j) {
      ClearedStays(log, outcomes, |log|, j, [Progress(value)]);
      assert AllCleared(log', outcomes, |log'|, j);
    }
    if Begun(log, outcomes, j) {
      var k :| 0 <= k < |log| && log[k].Started? && log[k].stage == j;
      assert log'[k] == log[k];
    }
  }

  ghost predicate Sound(log: seq<Event>, outcomes: seq<Outcome>) {
    StagesInOrder(log, outcomes) && ProgressOk(log, outcomes) && Announced(log, outcomes)
  }

  lemma OneMoreSound(log: seq<Event>, outcomes: seq<Outcome>, e: Event)
    requires Sound(log, outcomes) && MayCome(log, outcomes, e)
    requires AnnouncedAt(log + [e], |log|, outcomes)
    ensures Sound(log + [e], outcomes)
  {
    OneMore(log, outcomes, e);
    forall k | 0 <= k < |log| ensures AnnouncedAt(log + [e], k, outcomes) {
      assert AnnouncedAt(log, k, outcomes);
    }
  }

  ghost predicate ReportsShare(e: Event, j: nat, n: nat) {
    e.Progress? && e.value * n <= j * 100 < (e.value + 1) * n
  }

  /**
   * In the log of a setup, a background stage is announced by the share of the stages before
   * it, and after a task that was joined comes the share that includes it.
   */
  lemma StagesAreAnnounced(log: seq<Event>, outcomes: seq<Outcome>, k: nat, j: nat)
    requires Sound(log, outcomes) && k < |log|
    ensures log[k] == Started(j, BackgroundThread) ==> k > 0 && ReportsShare(log[k - 1], j, |outcomes|)
    ensures log[k] == Joined(j, true) && k + 1 < |log| ==> ReportsShare(log[k + 1], j + 1, |outcomes|)
  {
    assert AnnouncedAt(log, k, outcomes);
    if log[k] == Started(j, BackgroundThread) {
      PercentIsShare(j, |outcomes|, log[k - 1].value);
    } else if log[k] == Joined(j, true) && k + 1 < |log| {
      assert AnnouncedAt(log, k + 1, outcomes);
      PercentIsShare(j + 1, |outcomes|, log[k + 1].value);
    }
  }

  /** How a run that got stuck at stage `f` ends: one error, no later stage, no final message. */
  ghost predicate EndsInFailure(log: seq<Event>, outcomes: seq<Outcome>, f: nat) {
    && f < |outcomes| && outcomes[f] == Task(false)
    && (forall i :: 0 <= i < f ==> !Fails(outcomes[i]))
    && |log| >= 2 && log[|log| - 2] == Joined(f, false) && log[|log| - 1] == SentError
    && Begun(log[..|log| - 2], outcomes, f)
  }

  /** How a run ends whose thread panicked while calling stage `f`: without any message. */
  ghost predicate EndsInSilence(log: seq<Event>, outcomes: seq<Outcome>, f: nat) {
    && f < |outcomes| && outcomes[f].Panics?
    && (forall i :: 0 <= i < f ==> !Fails(outcomes[i]))
    && log != [] && Last(log).Started? && Last(log).stage == f
    && Begun(log, outcomes, f)
  }

  /** A run stops at its first failing stage, with a message if a task failed. */
  ghost predicate Stopped(log: seq<Event>, outcomes: seq<Outcome>) {
    exists f :: EndsInFailure(log, outcomes, f) || EndsInSilence(log, outcomes, f)
  }

  /** The first stage that fails does so by panicking when it is called. */
  ghost predicate FirstFailurePanics(outcomes: seq<Outcome>) {
    exists f :: 0 <= f < |outcomes| && outcomes[f].Panics? && forall i :: 0 <= i < f ==> !Fails(outcomes[i])
  }

  /** How a run ends in which every task was joined: 100, then the final message. */
  ghost predicate EndsInSuccess(log: seq<Event>, outcomes: seq<Outcome>) {
    && (forall i :: 0 <= i < |outcomes| ==> !Fails(outcomes[i]))
    && |log| >= 2 && log[|log| - 2] == Progress(100) && log[|log| - 1] == SentFinished
    && Through(log[..|log| - 2], outcomes, |outcomes|)
  }

  /** The first stage with anything to do panics. */
  ghost predicate PanicsOnMain(outcomes: seq<Outcome>) {
    exists f ::
      && 0 <= f < |outcomes| && outcomes[f].Panics?
      && forall i :: 0 <= i < f ==> outcomes[i].DoneBefore?
  }

  /** The user is told how the setup ended: with an error or the final message. */
  ghost predicate SaysHowItEnded(log: seq<Event>) {
    SentError in log || SentFinished in log
  }

  /**
   * A setup should not end without a word. The web view is told how it ended exactly when
   * the first failing stage, if there is one, fails in its task and not while being called.
   */
  lemma EndIsAnnouncedExactly(log: seq<Event>, outcomes: seq<Outcome>)
    requires EndsInSuccess(log, outcomes) || Stopped(log, outcomes)
    ensures SaysHowItEnded(log) <==> !FirstFailurePanics(outcomes)
    ensures FirstFailurePanics(outcomes) <==> exists f :: EndsInSilence(log, outcomes, f)
  {
    if !EndsInSuccess(log, outcomes) {
      var f :| EndsInFailure(log, outcomes, f) || EndsInSilence(log, outcomes, f);
      assert EndsInFailure(log, outcomes, f) ==> Last(log) == SentError;
    } else {
      assert Last(log) == SentFinished;
    }
  }

  /** It does happen: the first stage starts a task that succeeds, the second one panics when called. */
  method SilentSetup() returns (log: seq<Event>, progress: nat)
    ensures Sound(log, [Task(true), Panics]) && EndsInSilence(log, [Task(true), Panics], 1)
    ensures !SaysHowItEnded(log) && progress < 100
  {
    var setup := new Setup([Task(true), Panics]);
    ghost var outcomes := setup.outcomes;
    assert outcomes[0] == Task(true) && outcomes[1] == Panics;
    var backend := setup.Run();
    assert !outcomes[0].DoneBefore?;
    assert !PanicsOnMain(outcomes);
    assert backend.Some? && backend.value.WebView?;
    assert FirstFailurePanics(outcomes);
    EndIsAnnouncedExactly(setup.log, outcomes);
    return setup.log, setup.progress;
  }

  /** The stages below `j` are through, and the last event leaves only the report of that to come. */
  ghost predicate Ready(log: seq<Event>, outcomes: seq<Outcome>, j: nat) {
    log != [] && forall e :: IsPercent(e, j, |outcomes|) ==> Follows(Last(log), e, outcomes)
  }

  class Setup {
    const outcomes: seq<Outcome>
    /** The shared progress value, 0 to 100, and everything that happened. */
    var progress: nat
    var log: seq<Event>

    constructor (outcomes: seq<Outcome>)
      ensures this.outcomes == outcomes && log == [] && progress == 0
    {
      this.outcomes, log, progress := outcomes, [], 0;
    }

    method SetProgress(value: nat)
      requires Sound(log, outcomes) && Below(log, value) && value <= 100
      requires value == 100 ==> AllCleared(log, outcomes, |log|, |outcomes|)
      requires log != [] ==> Follows(Last(log), Progress(value), outcomes)
      modifies this
      ensures progress == value && log == old(log) + [Progress(value)]
      ensures Sound(log, outcomes) && Below(log, value)
    {
      OneMoreSound(log, outcomes, Progress(value));
      progress := value;
      log := log + [Progress(value)];
    }

    method StartStage(j: nat, on: Thread) returns (o: Outcome)
      requires j < |outcomes| && Sound(log, outcomes) && Through(log, outcomes, j)
      requires RightThread(outcomes, Started(j, on))
      requires on.BackgroundThread? ==> log != [] && IsPercent(Last(log), j, |outcomes|)
      requires log != [] ==> Follows(Last(log), Started(j, on), outcomes)
      modifies this
      ensures o == outcomes[j] && progress == old(progress) && log == old(log) + [Started(j, on)]
      ensures Sound(log, outcomes) && Begun(log, outcomes, j)
      ensures o.DoneBefore? ==> Through(log, outcomes, j + 1)
    {
      OneMoreSound(log, outcomes, Started(j, on));
      Begin(log, outcomes, j, on);
      log := log + [Started(j, on)];
      o := outcomes[j];
      if o.DoneBefore? {
        NothingToDo(log, outcomes, j);
      }
    }

    /** Wait for the task of stage `j`; on failure send the error. */
    method Join(j: nat, o: Outcome) returns (ok: bool)
      requires j < |outcomes| && o == outcomes[j] && o.Task?
      requires forall i :: 0 <= i < j ==> !Fails(outcomes[i])
      requires Sound(log, outcomes) && Begun(log, outcomes, j)
      requires log != [] && (Last(log) == Started(j, BackgroundThread) || IsPercent(Last(log), j, |outcomes|))
      modifies this
      ensures ok == o.ok && progress == old(progress) && Sound(log, outcomes)
      ensures ok ==> log == old(log) + [Joined(j, true)] && Through(log, outcomes, j + 1)
      ensures !ok ==> log == old(log) + [Joined(j, false), SentError] && EndsInFailure(log, outcomes, j)
    {
      ok := o.ok;
      OneMoreSound(log, outcomes, Joined(j, ok));
      if ok {
        JoinedWell(log, outcomes, j);
        log := log + [Joined(j, true)];
      } else {
        log := log + [Joined(j, false)];
        OneMoreSound(log, outcomes, SentError);
        log := log + [SentError];
        assert log[..|log| - 2] == old(log);
      }
    }

    /** `setup` on the main thread, with the background thread it spawns run to its end. */
    method Run() returns (backend: Option<Backend>)
      requires |outcomes| <= 655 && log == [] && progress == 0
      modifies this
      ensures backend == Some(Wayland) <==> forall i :: 0 <= i < |outcomes| ==> outcomes[i].DoneBefore?
      ensures backend.None? <==> PanicsOnMain(outcomes)
      ensures Sound(log, outcomes)
      ensures backend == Some(Wayland) ==> Through(log, outcomes, |outcomes|) && progress == 0
      ensures backend == Some(WebView) ==> EndsInSuccess(log, outcomes) || Stopped(log, outcomes)
      ensures backend == Some(WebView) ==> (SaysHowItEnded(log) <==> !FirstFailurePanics(outcomes))
      ensures backend == Some(WebView) ==> progress <= 100 && (progress == 100 <==> EndsInSuccess(log, outcomes))
    {
      hide StagesInOrder, ProgressOk, Announced, Cleared;
      hide EndsInFailure, EndsInSilence, SaysHowItEnded, FirstFailurePanics;
      NothingYet(outcomes);
      for i := 0 to |outcomes|
        invariant Sound(log, outcomes) && Through(log, outcomes, i) && Below(log, 0) && progress == 0
        invariant forall j :: 0 <= j < i ==> outcomes[j].DoneBefore?
        invariant if i == 0 then log == [] else log != [] && Last(log) == Started(i - 1, MainThread)
      {
        var o := StartStage(i, MainThread);
        if o.Panics? {
          return None;
        }
        if o.Task? {
          Background(i, o);
          EndIsAnnouncedExactly(log, outcomes);
          return Some(WebView);
        }
      }
      return Some(Wayland);
    }

    /** Set the progress to that of stage `j`, at a point where stages below `j` are through. */
    method Report(j: nat, ghost reported: nat)
      requires 0 < |outcomes| <= 655 && reported <= j <= |outcomes|
      requires Sound(log, outcomes) && BelowStage(log, reported, |outcomes|)
      requires Through(log, outcomes, j) || (j < |outcomes| && Begun(log, outcomes, j))
      requires Ready(log, outcomes, j)
      modifies this
      ensures Sound(log, outcomes) && BelowStage(log, j, |outcomes|)
      ensures log != [] && IsPercent(Last(log), j, |outcomes|)
      ensures Through(old(log), outcomes, j) ==> Through(log, outcomes, j)
      ensures Begun(old(log), outcomes, j) ==> Begun(log, outcomes, j)
      ensures progress <= 100 && (progress == 100 <==> j == |outcomes|)
    {
      hide StagesInOrder, ProgressOk, Begun;
      var n := |outcomes|;
      PercentIsMonotone(reported, j, n);
      var value := Percent(j, n).value;
      ReportKeeps(log, outcomes, j, value);
      SetProgress(value);
    }

    /** The stages after `i`, in the same loop. */
    method Remaining(i: nat) returns (ok: bool)
      requires i < |outcomes| <= 655
      requires forall j :: 0 <= j <= i ==> !Fails(outcomes[j])
      requires outcomes[i].Task?
      requires Sound(log, outcomes) && Through(log, outcomes, i + 1) && BelowStage(log, i, |outcomes|) && progress < 100
      requires Ready(log, outcomes, i + 1)
      modifies this
      ensures Sound(log, outcomes)
      ensures ok ==> Through(log, outcomes, |outcomes|) && BelowStage(log, |outcomes|, |outcomes|)
      ensures ok ==> Ready(log, outcomes, |outcomes|)
      ensures ok ==> forall j :: 0 <= j < |outcomes| ==> !Fails(outcomes[j])
      ensures !ok ==> progress < 100 && Stopped(log, outcomes)
    {
      hide StagesInOrder, ProgressOk, Begun, Through, BelowStage, EndsInFailure, EndsInSilence, Stopped, Sound;
      var n := |outcomes|;
      ghost var reported: nat := i;
      for j := i + 1 to n
        invariant reported <= j && Sound(log, outcomes) && Through(log, outcomes, j) && BelowStage(log, reported, n)
        invariant Ready(log, outcomes, j)
        invariant forall k :: 0 <= k < j ==> !Fails(outcomes[k])
      {
        Report(j, reported);
        ghost var before := log;
        var next := StartStage(j, BackgroundThread);
        BelowStays(before, Started(j, BackgroundThread), j, n);
        reported := j;
        if next.Panics? {
          Silenced(log, outcomes, j);
          return false;
        }
        if next.Task? {
          before := log;
          var joined := Join(j, next);
          if !joined {
            Failed(log, outcomes, j);
            return false;
          }
          BelowStays(before, Joined(j, true), j, n);
          Report(j + 1, j);
          reported := j + 1;
        }
      }
      BelowAtEnd(log, reported, n);
      return true;
    }

    /** The background thread spawned at stage `i`. */
    method Background(i: nat, handle: Outcome)
      requires i < |outcomes| <= 655 && handle == outcomes[i] && handle.Task?
      requires forall j :: 0 <= j < i ==> !Fails(outcomes[j])
      requires Sound(log, outcomes) && Begun(log, outcomes, i) && Below(log, 0)
      requires log != [] && Last(log) == Started(i, MainThread)
      modifies this
      ensures Sound(log, outcomes)
      ensures EndsInSuccess(log, outcomes) || Stopped(log, outcomes)
      ensures progress <= 100 && (progress == 100 <==> EndsInSuccess(log, outcomes))
    {
      hide Sound, Begun, Through, BelowStage, Below, Follows, IsPercent, Ready;
      var n := |outcomes|;
      BelowAtStart(log, n);
      ReadyAfterStart(log, outcomes, i);
      Report(i, 0);
      ghost var before := log;
      var ok := Join(i, handle);
      if !ok {
        return;
      }
      BelowStays(before, Joined(i, true), i, n);
      ReadyAfterJoin(log, outcomes, i);
      ok := Remaining(i);
      if !ok {
        return;
      }
      Finish();
    }

    /** Everything is through: the final progress and message. */
    method Finish()
      requires 0 < |outcomes| <= 655 && forall j :: 0 <= j < |outcomes| ==> !Fails(outcomes[j])
      requires Sound(log, outcomes) && Through(log, outcomes, |outcomes|)
      requires BelowStage(log, |outcomes|, |outcomes|) && Ready(log, outcomes, |outcomes|)
      modifies this
      ensures Sound(log, outcomes) && EndsInSuccess(log, outcomes) && progress == 100
    {
      hide Cleared, Follows;
      ghost var before := log;
      BelowHundred(log, |outcomes|);
      LastPercent(|outcomes|);
      SetProgress(100);
      FinishedFollows(log, outcomes);
      OneMoreSound(log, outcomes, SentFinished);
      log := log + [SentFinished];
      assert log[..|log| - 2] == before;
    }
  }

  /** No progress value reported so far exceeds that of stage `j`. */
  ghost predicate BelowStage(log: seq<Event>, j: nat, n: nat) {
    0 < n < U16 && j <= n && Percent(j, n).Some? && Below(log, Percent(j, n).value)
  }

  lemma NothingYet(outcomes: seq<Outcome>)
    ensures Sound([], outcomes) && Through([], outcomes, 0) && Below([], 0)
  {
  }

  lemma Silenced(log: seq<Event>, outcomes: seq<Outcome>, f: nat)
    requires f < |outcomes| && outcomes[f].Panics? && forall i :: 0 <= i < f ==> !Fails(outcomes[i])
    requires log != [] && Last(log).Started? && Last(log).stage == f && Begun(log, outcomes, f)
    ensures Stopped(log, outcomes)
  {
    assert EndsInSilence(log, outcomes, f);
  }

  lemma Failed(log: seq<Event>, outcomes: seq<Outcome>, f: nat)
    requires EndsInFailure(log, outcomes, f)
    ensures Stopped(log, outcomes)
  {
  }

  lemma BelowStays(log: seq<Event>, e: Event, j: nat, n: nat)
    requires BelowStage(log, j, n) && !e.Progress?
    ensures BelowStage(log + [e], j, n)
  {
  }

  lemma BelowAtStart(log: seq<Event>, n: nat)
    requires 0 < n <= 655 && Below(log, 0)
    ensures BelowStage(log, 0, n)
  {
    PercentIsMonotone(0, 0, n);
  }

  lemma BelowAtEnd(log: seq<Event>, j: nat, n: nat)
    requires BelowStage(log, j, n) && n <= 655
    ensures BelowStage(log, n, n)
  {
    PercentIsMonotone(j, n, n);
  }

  lemma ReadyAfterStart(log: seq<Event>, outcomes: seq<Outcome>, i: nat)
    requires log != [] && Last(log) == Started(i, MainThread) && i < |outcomes| && outcomes[i].Task?
    ensures Ready(log, outcomes, i)
  {
  }

  lemma ReadyAfterJoin(log: seq<Event>, outcomes: seq<Outcome>, i: nat)
    requires log != [] && Last(log) == Joined(i, true)
    ensures Ready(log, outcomes, i + 1)
  {
  }

  lemma LastPercent(n: nat)
    requires 0 < n <= 655
    ensures IsPercent(Progress(100), n, n)
  {
    PercentIsMonotone(n, n, n);
  }

  lemma FinishedFollows(log: seq<Event>, outcomes: seq<Outcome>)
    requires log != [] && Last(log) == Progress(100)
    ensures AnnouncedAt(log + [SentFinished], |log|, outcomes)
  {
  }

  lemma BelowHundred(log: seq<Event>, n: nat)
    requires BelowStage(log, n, n) && n <= 655
    ensures Below(log, 100)
  {
    PercentIsMonotone(n, n, n);
  }
}
