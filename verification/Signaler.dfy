/**
 * The signaler as an object. Callbacks are arbitrary code: the n-th callback invocation
 * performs the deeds `script(n)`, whatever they are.
 */
module Signalers {
  import opened Signaling

  datatype Deed<E> = DoSignal(event: E) | DoRegister | DoDrop(token: Registration)

  function Signals<E>(deeds: seq<Deed<E>>): nat {
    if deeds == [] then 0 else (if deeds[0].DoSignal? then 1 else 0) + Signals(deeds[1..])
  }

  ghost predicate Reaches<E(!new)>(s: State<E>, s': State<E>) {
    exists acts :: Legal(s, acts) && Run(s, acts) == s'
  }

  lemma ReachesSelf<E(!new)>(s: State<E>)
    ensures Reaches(s, s)
  {
    assert Legal(s, []) && Run(s, []) == s;
  }

  lemma ReachesThen<E(!new)>(s: State<E>, s': State<E>, a: Action<E>)
    requires Reaches(s, s') && Enabled(s', a)
    ensures Reaches(s, Apply(s', a))
  {
    var acts :| Legal(s, acts) && Run(s, acts) == s';
    assert Legal(Apply(s', a), [a][1..]) && Run(s', [a]) == Apply(s', a);
    RunConcat(s, acts, [a]);
  }

  // ---------------------------------------------------------------- what a dispatch must do

  /** A state, how many callback invocations there were, and what the one that runs still has to do. */
  datatype Progress<E> = Progress(s: State<E>, calls: nat, todo: seq<Deed<E>>)

  /** User code does one deed; dropping a token that was dropped already is no deed. */
  function Perform<E>(s: State<E>, deed: Deed<E>): State<E>
    requires UserCode(s)
  {
    match deed
    case DoSignal(e) => Apply(s, Signal(e))
    case DoRegister => Apply(s, Signaling.Register)
    case DoDrop(token) => if token in s.live then Apply(s, Signaling.DropToken(token)) else s
  }

  /** The one next step of a dispatch whose n-th callback invocation does what `script(n)` says. */
  function Advance<E>(script: nat -> seq<Deed<E>>, g: Progress<E>): Progress<E> {
    match g.s.phase
    case NotBorrowed => g
    case Draining => g.(s := Apply(g.s, if g.s.pendingEvents == [] then EndOfDrain else PopEvent))
    case Visiting(_, _, todo) =>
      if todo == [] then g.(s := Apply(g.s, EndOfEvent))
      else if todo[0] in g.s.live then Progress(Apply(g.s, Visit), g.calls + 1, script(g.calls))
      else g.(s := Apply(g.s, Visit))
    case Calling(_, _, _, _) =>
      if g.todo == [] then g.(s := Apply(g.s, Return))
      else Progress(Perform(g.s, g.todo[0]), g.calls, g.todo[1..])
  }

  function Steps<E>(script: nat -> seq<Deed<E>>, g: Progress<E>, n: nat): Progress<E> {
    if n == 0 then g else Advance(script, Steps(script, g, n - 1))
  }

  ghost predicate Leads<E(!new)>(script: nat -> seq<Deed<E>>, g: Progress<E>, g': Progress<E>) {
    exists n: nat :: Steps(script, g, n) == g'
  }

  lemma LeadsSelf<E(!new)>(script: nat -> seq<Deed<E>>, g: Progress<E>)
    ensures Leads(script, g, g)
  {
    assert Steps(script, g, 0) == g;
  }

  lemma LeadsThen<E(!new)>(script: nat -> seq<Deed<E>>, g: Progress<E>, g': Progress<E>)
    requires Leads(script, g, g')
    ensures Leads(script, g, Advance(script, g'))
  {
    var n: nat :| Steps(script, g, n) == g';
    assert Steps(script, g, n + 1) == Advance(script, g');
  }

  lemma {:induction false} StepsReach<E(!new)>(script: nat -> seq<Deed<E>>, g: Progress<E>, n: nat)
    ensures Reaches(g.s, Steps(script, g, n).s)
  {
    if n == 0 {
      ReachesSelf(g.s);
    } else {
      StepsReach(script, g, n - 1);
      AdvanceReaches(script, g.s, Steps(script, g, n - 1));
    }
  }

  lemma AdvanceReaches<E(!new)>(script: nat -> seq<Deed<E>>, start: State<E>, g: Progress<E>)
    requires Reaches(start, g.s)
    ensures Reaches(start, Advance(script, g).s)
  {
    hide Reaches, Apply;
    match g.s.phase
    case NotBorrowed =>
    case Draining => ReachesThen(start, g.s, if g.s.pendingEvents == [] then EndOfDrain else PopEvent);
    case Visiting(_, _, todo) => ReachesThen(start, g.s, if todo == [] then EndOfEvent else Visit);
    case Calling(_, _, _, _) =>
      if g.todo == [] {
        ReachesThen(start, g.s, Return);
      } else {
        match g.todo[0]
        case DoSignal(e) => ReachesThen(start, g.s, Signal(e));
        case DoRegister => ReachesThen(start, g.s, Signaling.Register);
        case DoDrop(token) =>
          if token in g.s.live {
            ReachesThen(start, g.s, Signaling.DropToken(token));
          }
      }
  }

  lemma {:induction false} NotBorrowedStays<E>(script: nat -> seq<Deed<E>>, g: Progress<E>, m: nat, n: nat)
    requires m <= n && Steps(script, g, m).s.phase.NotBorrowed?
    ensures Steps(script, g, n) == Steps(script, g, m)
    decreases n
  {
    if m < n {
      NotBorrowedStays(script, g, m, n - 1);
    }
  }

  /** A dispatch has one possible end. */
  lemma EndIsUnique<E(!new)>(script: nat -> seq<Deed<E>>, g: Progress<E>, a: Progress<E>, b: Progress<E>)
    requires Leads(script, g, a) && Leads(script, g, b) && a.s.phase.NotBorrowed? && b.s.phase.NotBorrowed?
    ensures a == b
  {
    var m: nat :| Steps(script, g, m) == a;
    var n: nat :| Steps(script, g, n) == b;
    if m <= n {
      NotBorrowedStays(script, g, m, n);
    } else {
      NotBorrowedStays(script, g, n, m);
    }
  }

  /** The events that deeds, or the scripts of some invocations, signal. */
  function EventsIn<E>(deeds: seq<Deed<E>>): seq<E> {
    if deeds == [] then []
    else (if deeds[0].DoSignal? then [deeds[0].event] else []) + EventsIn(deeds[1..])
  }

  function Emitted<E>(script: nat -> seq<Deed<E>>, from: nat, to: nat): seq<E> {
    if to <= from then [] else Emitted(script, from, to - 1) + EventsIn(script(to - 1))
  }

  function RegistersIn<E>(deeds: seq<Deed<E>>): nat {
    if deeds == [] then 0 else (if deeds[0].DoRegister? then 1 else 0) + RegistersIn(deeds[1..])
  }

  function Registered<E>(script: nat -> seq<Deed<E>>, from: nat, to: nat): nat {
    if to <= from then 0 else Registered(script, from, to - 1) + RegistersIn(script(to - 1))
  }

  /** What a dispatch has done by now: what the scripts of its invocations say, but for what is still to do. */
  ghost predicate Followed<E>(script: nat -> seq<Deed<E>>, g: Progress<E>, g': Progress<E>) {
    && g.calls <= g'.calls
    && g'.s.sent + EventsIn(g'.todo) == g.s.sent + Emitted(script, g.calls, g'.calls)
    && |g'.s.born| + RegistersIn(g'.todo) == |g.s.born| + Registered(script, g.calls, g'.calls)
    && |g'.s.log| == |g.s.log| + (g'.calls - g.calls)
    && (g'.todo != [] ==> g'.s.phase.Calling?)
  }

  lemma AdvanceFollows<E>(script: nat -> seq<Deed<E>>, g: Progress<E>, m: Progress<E>)
    requires Followed(script, g, m)
    ensures Followed(script, g, Advance(script, m))
  {
    if m.s.phase.Calling? {
      DeedFollows(script, g, m);
    } else {
      DrainFollows(script, g, m);
    }
  }

  lemma DeedFollows<E>(script: nat -> seq<Deed<E>>, g: Progress<E>, m: Progress<E>)
    requires Followed(script, g, m) && m.s.phase.Calling?
    ensures Followed(script, g, Advance(script, m))
  {
    hide Emitted, Registered;
    var m' := Advance(script, m);
    if m.todo != [] {
      var first := if m.todo[0].DoSignal? then [m.todo[0].event] else [];
      assert EventsIn(m.todo) == first + EventsIn(m'.todo);
      assert m'.s.sent == m.s.sent + first;
      assert m.s.sent + (first + EventsIn(m'.todo)) == (m.s.sent + first) + EventsIn(m'.todo);
    }
  }

  lemma DrainFollows<E>(script: nat -> seq<Deed<E>>, g: Progress<E>, m: Progress<E>)
    requires Followed(script, g, m) && !m.s.phase.Calling?
    ensures Followed(script, g, Advance(script, m))
  {
    var m' := Advance(script, m);
    var emitted := Emitted(script, g.calls, m.calls);
    assert m.todo == [] && m'.s.sent == m.s.sent && m.s.sent + EventsIn([]) == m.s.sent;
    assert |m'.s.born| == |m.s.born|;
    if m'.calls == m.calls + 1 {
      assert Emitted(script, g.calls, m'.calls) == emitted + EventsIn(script(m.calls));
      assert Registered(script, g.calls, m'.calls) ==
        Registered(script, g.calls, m.calls) + RegistersIn(script(m.calls));
      hide Emitted, Registered, EventsIn, RegistersIn;
      assert (g.s.sent + emitted) + EventsIn(m'.todo) == g.s.sent + (emitted + EventsIn(m'.todo));
    }
  }

  lemma {:induction false} StepsFollow<E>(script: nat -> seq<Deed<E>>, g: Progress<E>, n: nat)
    requires g.todo == []
    ensures Followed(script, g, Steps(script, g, n))
  {
    if n > 0 {
      StepsFollow(script, g, n - 1);
      AdvanceFollows(script, g, Steps(script, g, n - 1));
    } else {
      assert g.s.sent + [] == g.s.sent;
    }
  }

  /**
   * A dispatch signals and registers exactly what its callback invocations do, one invocation
   * per delivery: nothing at all when their scripts are empty.
   */
  lemma DispatchAddsWhatScriptsSay<E(!new)>(script: nat -> seq<Deed<E>>, g: Progress<E>, g': Progress<E>)
    requires Leads(script, g, g') && g.todo == [] && g'.todo == []
    ensures g.calls <= g'.calls && |g'.s.log| == |g.s.log| + (g'.calls - g.calls)
    ensures g'.s.sent == g.s.sent + Emitted(script, g.calls, g'.calls)
    ensures |g'.s.born| == |g.s.born| + Registered(script, g.calls, g'.calls)
  {
    var n: nat :| Steps(script, g, n) == g';
    StepsFollow(script, g, n);
    assert g'.s.sent + [] == g'.s.sent;
  }

  class Signaler<E(!new)> {
    var callbacks: seq<Registration>
    /** Whether the cell of `callbacks` is mutably borrowed. */
    var borrowed: bool
    var pendingCallbacks: seq<Registration>
    var pendingEvents: seq<E>
    /** The callbacks that can still be upgraded, and those whose own cell is borrowed. */
    var live: set<Registration>
    var inCall: set<Registration>
    var registrations: nat
    /** What user code does, and how many callback invocations there were so far. */
    const script: nat -> seq<Deed<E>>
    var calls: nat
    /** From this invocation on, callbacks signal nothing: finitely many signals in total. */
    ghost const quiet: nat

    ghost var s: State<E>

    ghost predicate Linked()
      reads this
    {
      && Inv(s)
      && (borrowed <==> !s.phase.NotBorrowed?)
      && (!Delivering(s) ==> callbacks == s.callbacks)
      && pendingCallbacks == s.pendingCallbacks
      && pendingEvents == s.pendingEvents
      && live == s.live
      && registrations == |s.born|
      && inCall == (if s.phase.Calling? then {s.phase.running} else {})
      && (forall i, k :: quiet <= i && 0 <= k < |script(i)| ==> !script(i)[k].DoSignal?)
    }

    ghost predicate Valid()
      reads this
    {
      Linked() && UserCode(s)
    }

    /** The signals that invocations numbered `from` and later will still make. */
    ghost function Left(from: nat): nat
      decreases quiet - from
    {
      if from >= quiet then 0 else Signals(script(from)) + Left(from + 1)
    }

    constructor (script: nat -> seq<Deed<E>>, ghost quiet: nat)
      requires forall i, k :: quiet <= i && 0 <= k < |script(i)| ==> !script(i)[k].DoSignal?
      ensures Valid() && s == Fresh()
    {
      callbacks, pendingCallbacks, pendingEvents := [], [], [];
      borrowed, live, inCall, registrations := false, {}, {}, 0;
      this.script, this.quiet, calls := script, quiet, 0;
      s := Fresh();
    }

    method Register() returns (token: Registration)
      requires Valid()
      modifies this
      ensures Valid() && s == Apply(old(s), Signaling.Register)
      ensures token == |old(s).born| && token in live
      ensures calls == old(calls) && pendingEvents == old(pendingEvents)
    {
      hide Inv, Reaches;
      StepKeeps(s, Signaling.Register);
      token := registrations;
      registrations := registrations + 1;
      live := live + {token};
      if !borrowed {
        callbacks := callbacks + [token];
      } else {
        pendingCallbacks := pendingCallbacks + [token];
      }
      s := Apply(s, Signaling.Register);
    }

    /** Dropping a `SignalToken`; a token can be dropped once. */
    method DropToken(token: Registration)
      requires Valid() && token in live
      modifies this
      ensures Valid() && s == Apply(old(s), Signaling.DropToken(token))
      ensures calls == old(calls) && pendingEvents == old(pendingEvents)
    {
      hide Inv, Reaches;
      StepKeeps(s, Signaling.DropToken(token));
      live := live - {token};
      s := Apply(s, Signaling.DropToken(token));
    }

    /** The body of the callback that has just been borrowed: it does what its script says. */
    method RunCallback(ghost start: Progress<E>)
      requires Valid() && s.phase.Calling?
      requires Leads(script, start, Progress(s, calls + 1, script(calls)))
      modifies this
      ensures Valid() && s.phase == old(s).phase
      ensures calls == old(calls) + 1
      ensures Leads(script, start, Progress(s, calls, []))
      ensures Left(calls) + |pendingEvents| <= Left(old(calls)) + |old(pendingEvents)|
      decreases 1, 0, 0
    {
      hide Inv, Leads, Apply;
      var deeds := script(calls);
      calls := calls + 1;
      QuietSignalsNothing(calls - 1);
      var i := 0;
      while i < |deeds|
        invariant 0 <= i <= |deeds|
        invariant Valid() && s.phase == old(s).phase
        invariant calls == old(calls) + 1
        invariant Leads(script, start, Progress(s, calls, deeds[i..]))
        invariant Signals(deeds[i..]) + |pendingEvents| <= Signals(deeds) + |old(pendingEvents)|
        decreases |deeds| - i
      {
        LeadsThen(script, start, Progress(s, calls, deeds[i..]));
        assert deeds[i..][0] == deeds[i] && deeds[i..][1..] == deeds[i + 1..];
        ghost var before := s;
        match deeds[i] {
        case DoSignal(e) =>
          Send(e);
        case DoRegister =>
          var token := Register();
        case DoDrop(token) =>
          if token in live {
            DropToken(token);
          }
        }
        assert s == Perform(before, deeds[i]);
        PhaseOfUserCode(before, deeds[i]);
        i := i + 1;
      }
    }

    lemma QuietSignalsNothing(i: nat)
      requires Linked()
      ensures Left(i) == Signals(script(i)) + Left(i + 1)
    {
      if i >= quiet {
        NoSignals(script(i));
      }
    }

    /** `send`: queue the event, and unless a dispatch is already running drain the queue. */
    method Send(event: E)
      requires Valid()
      modifies this
      ensures Valid()
      ensures Reaches(Apply(old(s), Signal(event)), s)
      ensures !old(borrowed) ==>
        Leads(script, Progress(Apply(old(s), Signal(event)), old(calls), []), Progress(s, calls, []))
      ensures old(borrowed) ==>
        && s == Apply(old(s), Signal(event))
        && calls == old(calls) && pendingEvents == old(pendingEvents) + [event]
      ensures !old(borrowed) ==>
        && !borrowed && inCall == {}
        && pendingEvents == [] && pendingCallbacks == [] && s.popped == |s.sent|
      ensures !old(borrowed) && Reaches(Fresh(), old(s)) ==>
        Reaches(Fresh(), s) && s.log == FlatLog(s.born, s.gone, |s.sent|)
      decreases if borrowed then 0 else 2
    {
      StepKeeps(s, Signal(event));
      pendingEvents := pendingEvents + [event];
      s := Apply(s, Signal(event));
      ghost var start := Progress(s, calls, []);
      ReachesSelf(s);
      LeadsSelf(script, start);
      if !borrowed {
        borrowed := true;
        while pendingEvents != []
          invariant Linked() && s.phase.Draining? && Leads(script, start, Progress(s, calls, []))
          decreases Left(calls) + |pendingEvents|
        {
          Dispatch(start);
        }
        StepKeeps(s, EndOfDrain);
        LeadsThen(script, start, Progress(s, calls, []));
        borrowed := false;
        s := Apply(s, EndOfDrain);
        LeadsReaches(script, start, Progress(s, calls, []));
        if Reaches(Fresh(), old(s)) {
          ReachesThen(Fresh(), old(s), Signal(event));
          ReachesTransitive(Fresh(), start.s, s);
          IdleIsFlat(s);
        }
      }
    }

    /** One round of the drain: pop an event, `retain` over the callbacks, merge the new ones. */
    method Dispatch(ghost start: Progress<E>)
      requires Linked() && s.phase.Draining? && pendingEvents != [] && Leads(script, start, Progress(s, calls, []))
      modifies this
      ensures Linked() && s.phase.Draining? && Leads(script, start, Progress(s, calls, []))
      ensures Left(calls) + |pendingEvents| < Left(old(calls)) + |old(pendingEvents)|
      decreases 1, 2
    {
      hide Inv, Leads;
      StepKeeps(s, PopEvent);
      LeadsThen(script, start, Progress(s, calls, []));
      pendingEvents := pendingEvents[1..];
      s := Apply(s, PopEvent);
      var kept := Retain(start, callbacks);
      StepKeeps(s, EndOfEvent);
      LeadsThen(script, start, Progress(s, calls, []));
      callbacks := kept + pendingCallbacks;
      pendingCallbacks := [];
      s := Apply(s, EndOfEvent);
    }

    /** `retain`: call what can be upgraded and keep it, drop the rest. */
    method Retain(ghost start: Progress<E>, guard: seq<Registration>) returns (kept: seq<Registration>)
      requires Linked() && s.phase.Visiting? && s.phase.kept == [] && s.phase.todo == guard
      requires Leads(script, start, Progress(s, calls, []))
      modifies this
      ensures Linked() && s.phase.Visiting? && s.phase.kept == kept && s.phase.todo == []
      ensures Leads(script, start, Progress(s, calls, []))
      ensures Left(calls) + |pendingEvents| <= Left(old(calls)) + |old(pendingEvents)|
      decreases 1, 1
    {
      hide Inv, Leads;
      kept := [];
      var i := 0;
      while i < |guard|
        invariant 0 <= i <= |guard|
        invariant Linked() && s.phase.Visiting? && s.phase.kept == kept && s.phase.todo == guard[i..]
        invariant Leads(script, start, Progress(s, calls, []))
        invariant Left(calls) + |pendingEvents| <= Left(old(calls)) + |old(pendingEvents)|
        decreases |guard| - i
      {
        var cb := guard[i];
        assert guard[i..][1..] == guard[i + 1..];
        if cb in live {
          Call(start, cb);
          kept := kept + [cb];
        } else {
          StepKeeps(s, Visit);
          LeadsThen(script, start, Progress(s, calls, []));
          s := Apply(s, Visit);
        }
        i := i + 1;
      }
    }

    /** Borrow the callback's own cell, which is never borrowed already, and run it. */
    method Call(ghost start: Progress<E>, cb: Registration)
      requires Linked() && s.phase.Visiting? && s.phase.todo != [] && s.phase.todo[0] == cb && cb in live
      requires Leads(script, start, Progress(s, calls, []))
      modifies this
      ensures old(inCall) == {} && inCall == {}
      ensures Linked()
      ensures s.phase == Visiting(old(s).phase.event, old(s).phase.kept + [cb], old(s).phase.todo[1..])
      ensures Leads(script, start, Progress(s, calls, []))
      ensures Left(calls) + |pendingEvents| <= Left(old(calls)) + |old(pendingEvents)|
      decreases 1, 0, 1
    {
      hide Inv, Leads;
      assert cb !in inCall;
      StepKeeps(s, Visit);
      LeadsThen(script, start, Progress(s, calls, []));
      s := Apply(s, Visit);
      inCall := inCall + {cb};
      RunCallback(start);
      inCall := inCall - {cb};
      StepKeeps(s, Return);
      LeadsThen(script, start, Progress(s, calls, []));
      s := Apply(s, Return);
    }
  }

  lemma LeadsReaches<E(!new)>(script: nat -> seq<Deed<E>>, g: Progress<E>, g': Progress<E>)
    requires Leads(script, g, g')
    ensures Reaches(g.s, g'.s)
  {
    var n: nat :| Steps(script, g, n) == g';
    StepsReach(script, g, n);
  }

  /** What user code does inside a callback leaves the dispatch where it is. */
  lemma PhaseOfUserCode<E>(s: State<E>, deed: Deed<E>)
    requires s.phase.Calling?
    ensures Perform(s, deed).phase == s.phase
  {
  }

  lemma IdleIsFlat<E(!new)>(s: State<E>)
    requires Reaches(Fresh(), s) && s.phase.NotBorrowed?
    ensures s.log == FlatLog(s.born, s.gone, |s.sent|)
  {
    var acts :| Legal(Fresh(), acts) && Run(Fresh(), acts) == s;
    DispatchIsFlatQueue(acts);
  }

  lemma {:induction false} NoSignals<E>(deeds: seq<Deed<E>>)
    requires forall k :: 0 <= k < |deeds| ==> !deeds[k].DoSignal?
    ensures Signals(deeds) == 0
  {
    if deeds != [] {
      NoSignals(deeds[1..]);
    }
  }

  lemma {:induction false} RunConcat<E>(s: State<E>, a: seq<Action<E>>, b: seq<Action<E>>)
    requires Legal(s, a) && Legal(Run(s, a), b)
    ensures Legal(s, a + b) && Run(s, a + b) == Run(Run(s, a), b)
    decreases |a|
  {
    if a == [] {
      assert a + b == b;
    } else {
      assert (a + b)[1..] == a[1..] + b;
      RunConcat(Apply(s, a[0]), a[1..], b);
    }
  }

  lemma ReachesTransitive<E(!new)>(s: State<E>, m: State<E>, s': State<E>)
    requires Reaches(s, m) && Reaches(m, s')
    ensures Reaches(s, s')
  {
    var a :| Legal(s, a) && Run(s, a) == m;
    var b :| Legal(m, b) && Run(m, b) == s';
    RunConcat(s, a, b);
  }
}
