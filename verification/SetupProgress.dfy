/** The setup and the web view together: the progress that one reports and the other delivers. */
module SetupProgress {
  import opened Prelude
  import Scheduler
  import Webview

  /** The progress values a setup reports, in order. */
  function Reported(log: seq<Scheduler.Event>): seq<nat> {
    if log == [] then []
    else Reported(Init(log)) + (if Last(log).Progress? then [Last(log).value] else [])
  }

  /** Each report stands after those before it, and nothing but reports does. */
  lemma {:induction false} EachReportIsThere(log: seq<Scheduler.Event>, k: nat)
    requires k < |log|
    ensures log[k].Progress? ==> Reported(log[..k]) + [log[k].value] <= Reported(log)
    ensures !log[k].Progress? ==> Reported(log[..k + 1]) == Reported(log[..k])
    decreases |log|
  {
    assert Init(log[..k + 1]) == log[..k];
    if k == |log| - 1 {
      assert log[..k + 1] == log;
    } else {
      EachReportIsThere(Init(log), k);
      assert Init(log)[..k] == log[..k];
    }
  }

  /** The progress values the web view was given, in order. */
  function Raised(acts: seq<Webview.Action>): seq<nat> {
    if acts == [] then []
    else (if acts[0].Raise? then [acts[0].value] else []) + Raised(acts[1..])
  }

  ghost predicate NonDecreasing(s: seq<nat>) {
    forall i, j :: 0 <= i < j < |s| ==> s[i] <= s[j]
  }

  lemma {:induction false} ReportedNeverFalls(log: seq<Scheduler.Event>, bound: nat)
    requires forall a, b :: 0 <= a < b < |log| && log[a].Progress? && log[b].Progress? ==> log[a].value <= log[b].value
    requires Scheduler.Below(log, bound)
    ensures NonDecreasing(Reported(log)) && forall i :: 0 <= i < |Reported(log)| ==> Reported(log)[i] <= bound
  {
    if log != [] {
      var e := Last(log);
      assert Scheduler.Below(Init(log), if e.Progress? then e.value else bound);
      ReportedNeverFalls(Init(log), if e.Progress? then e.value else bound);
    }
  }

  lemma {:induction false} ProgressIsLastRaised(s: Webview.State, acts: seq<Webview.Action>)
    requires Webview.Legal(s, acts)
    ensures Webview.Run(s, acts).progress == if Raised(acts) == [] then s.progress else Last(Raised(acts))
    decreases |acts|
  {
    if acts != [] {
      ProgressIsLastRaised(Webview.Apply(s, acts[0]), acts[1..]);
    }
  }

  /**
   * Whatever the web view threads have done between the reports of a setup, its next report
   * does not lower the progress: the web view's assumption about it is met.
   */
  lemma ReportsAreAccepted(log: seq<Scheduler.Event>, outcomes: seq<Scheduler.Outcome>,
                           acts: seq<Webview.Action>, value: nat)
    requires Scheduler.Sound(log, outcomes) && Webview.Legal(Webview.FRESH, acts)
    requires Raised(acts) + [value] <= Reported(log)
    ensures Webview.Enabled(Webview.Run(Webview.FRESH, acts), Webview.Raise(value))
  {
    assert Scheduler.Below(log, 100);
    ReportedNeverFalls(log, 100);
    ProgressIsLastRaised(Webview.FRESH, acts);
    var raised := Raised(acts);
    if raised != [] {
      assert (raised + [value])[|raised| - 1] == Last(raised) && (raised + [value])[|raised|] == value;
    }
  }
}
