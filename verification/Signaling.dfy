/**
 * The re-entrant signal dispatcher: callbacks may signal, register and drop tokens
 * while an event is being delivered.
 */
module Signaling {
  import opened Prelude

  /** Registrations are numbered in the order they were made. */
  type Registration = nat

  /** Event number `event` is given to `to`; as a moment, the one at which it would be. */
  datatype Delivery = Delivery(event: nat, to: Registration)

  /** How far the dispatch that holds the borrow of `callbacks` has come. */
  datatype Phase =
    | NotBorrowed
    /** Between two events. */
    | Draining
    /** Inside `retain` for an event: `kept` was visited, `todo` was not. */
    | Visiting(event: nat, kept: seq<Registration>, todo: seq<Registration>)
    /** Inside the callback of `running`. */
    | Calling(event: nat, kept: seq<Registration>, running: Registration, todo: seq<Registration>)

  /**
   * The three cells of the signaler, the dispatch in progress, the registrations whose
   * callback is still alive, and the history: all events ever signalled, how many were
   * popped, how many had been popped at each registration, the moment at which each dead
   * registration was dropped, and all deliveries.
   */
  datatype State<E> = State(
    callbacks: seq<Registration>,
    pendingCallbacks: seq<Registration>,
    pendingEvents: seq<E>,
    phase: Phase,
    live: set<Registration>,
    sent: seq<E>,
    popped: nat,
    born: seq<nat>,
    gone: map<Registration, Delivery>,
    log: seq<Delivery>)

  datatype Action<E> =
    | Signal(event: E)
    | Register
    | DropToken(token: Registration)
    | PopEvent
    | Visit
    | Return
    | EndOfEvent
    | EndOfDrain

  function Fresh<E>(): State<E> {
    State([], [], [], NotBorrowed, {}, [], 0, [], map[], [])
  }

  /** User code runs outside any dispatch, or inside a callback. */
  predicate UserCode<E>(s: State<E>) {
    s.phase.NotBorrowed? || s.phase.Calling?
  }

  /** Deliveries before this moment were made if they were due, the others were not. */
  function Now<E>(s: State<E>): Delivery {
    match s.phase
    case NotBorrowed => Delivery(s.popped, 0)
    case Draining => Delivery(s.popped, 0)
    case Visiting(k, _, todo) => Delivery(k, if todo == [] then |s.born| else todo[0])
    case Calling(k, _, c, _) => Delivery(k, c + 1)
  }

  predicate Enabled<E>(s: State<E>, a: Action<E>) {
    match a
    case Signal(_) => UserCode(s)
    case Register => UserCode(s)
    case DropToken(c) => UserCode(s) && c in s.live
    case PopEvent => s.phase.Draining? && s.pendingEvents != []
    case EndOfDrain => s.phase.Draining? && s.pendingEvents == []
    case Visit => s.phase.Visiting? && s.phase.todo != []
    case EndOfEvent => s.phase.Visiting? && s.phase.todo == []
    case Return => s.phase.Calling?
  }

  function Apply<E>(s: State<E>, a: Action<E>): State<E>
    requires Enabled(s, a)
  {
    match a
    case Signal(e) =>
      s.(pendingEvents := s.pendingEvents + [e], sent := s.sent + [e],
         phase := if s.phase.NotBorrowed? then Draining else s.phase)
    case Register =>
      var c := |s.born|;
      var s1 := s.(born := s.born + [s.popped], live := s.live + {c});
      if s.phase.NotBorrowed? then s1.(callbacks := s.callbacks + [c])
      else s1.(pendingCallbacks := s.pendingCallbacks + [c])
    case DropToken(c) =>
      s.(live := s.live - {c}, gone := s.gone[c := Now(s)])
    case PopEvent =>
      s.(pendingEvents := s.pendingEvents[1..], popped := s.popped + 1, phase := Visiting(s.popped, [], s.callbacks))
    case Visit =>
      var c := s.phase.todo[0];
      if c in s.live
      then s.(phase := Calling(s.phase.event, s.phase.kept, c, s.phase.todo[1..]),
                log := s.log + [Delivery(s.phase.event, c)])
      else s.(phase := Visiting(s.phase.event, s.phase.kept, s.phase.todo[1..]))
    case Return =>
      s.(phase := Visiting(s.phase.event, s.phase.kept + [s.phase.running], s.phase.todo))
    case EndOfEvent =>
      s.(callbacks := s.phase.kept + s.pendingCallbacks, pendingCallbacks := [], phase := Draining)
    case EndOfDrain =>
      s.(phase := NotBorrowed)
  }

  predicate Legal<E>(s: State<E>, acts: seq<Action<E>>)
    decreases |acts|
  {
    acts == [] || (Enabled(s, acts[0]) && Legal(Apply(s, acts[0]), acts[1..]))
  }

  function Run<E>(s: State<E>, acts: seq<Action<E>>): State<E>
    requires Legal(s, acts)
    decreases |acts|
  {
    if acts == [] then s else Run(Apply(s, acts[0]), acts[1..])
  }

  // ---------------------------------------------------------------- what the log says

  /** The events one registration was given, in the order it was given them. */
  function Inbox(log: seq<Delivery>, c: Registration): seq<nat> {
    if log == [] then []
    else Inbox(Init(log), c) + (if Last(log).to == c then [Last(log).event] else [])
  }

  /** The numbers `from`, `from + 1`, ..., `to - 1`. */
  function Range(from: nat, to: nat): (r: seq<nat>)
    ensures |r| == if from <= to then to - from else 0
    ensures forall i :: 0 <= i < |r| ==> r[i] == from + i
  {
    if from <= to then seq(to - from, i => from + i) else []
  }

  /** By event, and within one event by registration. */
  predicate Before(d: Delivery, e: Delivery) {
    d.event < e.event || (d.event == e.event && d.to < e.to)
  }

  ghost predicate Ordered(log: seq<Delivery>) {
    forall i, j :: 0 <= i < j < |log| ==> Before(log[i], log[j])
  }

  // ---------------------------------------------------------------- the invariant

  ghost predicate Increasing(s: seq<nat>) {
    forall i, j :: 0 <= i < j < |s| ==> s[i] < s[j]
  }

  /** Registrations already served in the current event, and those still to serve. */
  function Served<E>(s: State<E>): seq<Registration> {
    match s.phase
    case NotBorrowed => s.callbacks
    case Draining => s.callbacks
    case Visiting(_, kept, _) => kept
    case Calling(_, kept, c, _) => kept + [c]
  }

  function ToServe<E>(s: State<E>): seq<Registration> {
    match s.phase
    case NotBorrowed => []
    case Draining => []
    case Visiting(_, _, todo) => todo
    case Calling(_, _, _, todo) => todo
  }

  function Delivering<E>(s: State<E>): bool {
    s.phase.Visiting? || s.phase.Calling?
  }

  /** All registrations the signaler still holds, in order. */
  function Held<E>(s: State<E>): seq<Registration> {
    Served(s) + ToServe(s) + s.pendingCallbacks
  }

  ghost predicate HeldOk<E>(s: State<E>) {
    && Increasing(Held(s))
    && Within(Held(s), |s.born|)
    && (forall c :: c in s.live ==> c in Held(s))
  }

  ghost predicate QueuesOk<E>(s: State<E>) {
    && s.popped <= |s.sent|
    && s.pendingEvents == s.sent[s.popped..]
    && (!Delivering(s) ==> s.pendingCallbacks == [])
    && (s.phase.NotBorrowed? ==> s.pendingEvents == [])
    && (Delivering(s) ==> s.popped == s.phase.event + 1)
  }

  /** `c` has received exactly the events from its registration up to `upto`. */
  ghost predicate Got<E>(s: State<E>, c: Registration, upto: nat) {
    c < |s.born| && s.born[c] <= upto <= s.popped && Inbox(s.log, c) == Range(s.born[c], upto)
  }

  /** `c` was registered after the last event was popped, so nothing is due to it yet. */
  ghost predicate Newborn<E>(s: State<E>, c: Registration) {
    Got(s, c, s.popped) && s.born[c] == s.popped
  }

  ghost predicate GotPrefix<E>(s: State<E>, c: Registration) {
    exists upto :: Got(s, c, upto)
  }

  ghost predicate InboxesOk<E>(s: State<E>) {
    && (forall i :: 0 <= i < |Served(s)| ==> Got(s, Served(s)[i], s.popped))
    && (Delivering(s) ==> forall i :: 0 <= i < |ToServe(s)| ==> Got(s, ToServe(s)[i], s.phase.event))
    && (forall i :: 0 <= i < |s.pendingCallbacks| ==> Newborn(s, s.pendingCallbacks[i]))
    && (forall c :: 0 <= c < |s.born| ==> GotPrefix(s, c))
  }

  /** The number of the first event that is not given to `c` before this moment. */
  function UpTo(c: Registration, moment: Delivery): nat {
    if c < moment.to then moment.event + 1 else moment.event
  }

  /** A dropped registration has exactly what was due to it before it was dropped. */
  ghost predicate GoneOk<E>(s: State<E>) {
    && (forall c: Registration :: c in s.gone <==> c < |s.born| && c !in s.live)
    && (forall c: Registration :: c in s.gone ==> GotUntil(s, c, s.gone[c]))
  }

  /** `c` has received exactly the events due to it before `moment`. */
  ghost predicate GotUntil<E>(s: State<E>, c: Registration, moment: Delivery) {
    c < |s.born| && Inbox(s.log, c) == Range(s.born[c], UpTo(c, moment))
  }

  ghost predicate LogOk<E>(s: State<E>) {
    && Ordered(s.log)
    && (forall i :: 0 <= i < |s.log| ==> s.log[i].event < s.popped && s.log[i].to < |s.born|)
    && (Delivering(s) ==>
          forall i, j :: 0 <= i < |s.log| && 0 <= j < |ToServe(s)| && s.log[i].event == s.phase.event ==>
            s.log[i].to < ToServe(s)[j])
  }

  ghost predicate Inv<E>(s: State<E>) {
    HeldOk(s) && QueuesOk(s) && InboxesOk(s) && GoneOk(s) && LogOk(s)
  }

  lemma TakeOne(a: seq<nat>, t: seq<nat>, b: seq<nat>)
    requires t != []
    ensures (a + [t[0]]) + t[1..] + b == a + t + b
    ensures (a + t + b)[|a|] == t[0]
    ensures a + t[1..] + b == (a + t + b)[..|a|] + (a + t + b)[|a| + 1..]
  {
    assert t == [t[0]] + t[1..];
  }

  /** A live registration stays held across a visit; a dead one is removed. */
  lemma HeldAfterVisit<E>(s: State<E>)
    requires Enabled(s, Visit)
    ensures var s' := Apply(s, Visit);
      if s.phase.todo[0] in s.live then Held(s') == Held(s)
      else
        var k := |Served(s)|;
        k < |Held(s)| && Held(s)[k] == s.phase.todo[0] && Held(s') == Held(s)[..k] + Held(s)[k + 1..]
  {
    TakeOne(s.phase.kept, s.phase.todo, s.pendingCallbacks);
  }

  lemma HeldAfterRegister<E>(s: State<E>)
    requires QueuesOk(s) && Enabled(s, Register)
    ensures Held(Apply(s, Register)) == Held(s) + [|s.born|]
  {
  }

  /** Only a registration adds to what is held, only the visit of a dead one removes. */
  lemma HeldOtherwise<E>(s: State<E>, a: Action<E>)
    requires QueuesOk(s) && Enabled(s, a) && !a.Register? && !a.Visit?
    ensures Held(Apply(s, a)) == Held(s)
  {
  }

  lemma StepKeepsHeld<E>(s: State<E>, a: Action<E>)
    requires HeldOk(s) && QueuesOk(s) && Enabled(s, a)
    ensures HeldOk(Apply(s, a))
  {
    var s' := Apply(s, a);
    if a.Register? {
      HeldAfterRegister(s);
      hide Held, QueuesOk;
      assert Held(s')[|Held(s)|] == |s.born|;
    } else if a.Visit? {
      HeldAfterVisit(s);
      hide Held, QueuesOk;
      if s.phase.todo[0] !in s.live {
        RemovedOk(s, s', |Served(s)|);
      }
    } else {
      HeldOtherwise(s, a);
      hide Held, QueuesOk;
    }
  }

  /** Dropping a dead registration from the held ones keeps order and the live ones. */
  lemma RemovedOk<E>(s: State<E>, s': State<E>, k: nat)
    requires HeldOk(s) && k < |Held(s)| && Held(s)[k] !in s.live
    requires Held(s') == Held(s)[..k] + Held(s)[k + 1..] && s'.live == s.live && s'.born == s.born
    ensures HeldOk(s')
  {
    var h := Held(s);
    var h' := Held(s');
    assert forall i :: 0 <= i < |h'| ==> h'[i] == h[if i < k then i else i + 1];
    forall c | c in s'.live ensures c in h' {
      var i :| 0 <= i < |h| && h[i] == c;
      assert h'[if i < k then i else i - 1] == c;
    }
  }

  lemma StepKeepsQueues<E>(s: State<E>, a: Action<E>)
    requires QueuesOk(s) && Enabled(s, a)
    ensures QueuesOk(Apply(s, a))
  {
  }

  lemma InboxAfter(log: seq<Delivery>, d: Delivery, c: Registration)
    ensures Inbox(log + [d], c) == Inbox(log, c) + (if d.to == c then [d.event] else [])
  {
    assert Init(log + [d]) == log;
  }

  lemma {:induction false} InboxOfNewcomer(log: seq<Delivery>, c: Registration)
    requires forall i :: 0 <= i < |log| ==> log[i].to != c
    ensures Inbox(log, c) == []
  {
    if log != [] {
      InboxOfNewcomer(Init(log), c);
    }
  }

  /** Steps that deliver nothing leave every inbox as it was. */
  lemma SilentKeepsGot<E>(s: State<E>, s': State<E>)
    requires s'.log == s.log && s.popped <= s'.popped && s.born <= s'.born
    ensures forall c: nat, u: nat :: Got(s, c, u) ==> Got(s', c, u)
    ensures forall c :: 0 <= c < |s.born| && GotPrefix(s, c) ==> GotPrefix(s', c)
  {
    forall c | 0 <= c < |s.born| && GotPrefix(s, c) ensures GotPrefix(s', c) {
      var u :| Got(s, c, u);
      assert Got(s', c, u);
    }
  }

  lemma NewcomerGot<E>(s: State<E>)
    requires Inv(s) && Enabled(s, Register)
    ensures Got(Apply(s, Register), |s.born|, s.popped) && GotPrefix(Apply(s, Register), |s.born|)
  {
    InboxOfNewcomer(s.log, |s.born|);
    assert Got(Apply(s, Register), |s.born|, s.popped);
  }

  lemma RegisterKeepsInboxes<E>(s: State<E>)
    requires Inv(s) && Enabled(s, Register)
    ensures InboxesOk(Apply(s, Register))
  {
    var s' := Apply(s, Register);
    SilentKeepsGot(s, s');
    NewcomerGot(s);
    hide HeldOk, LogOk, GoneOk, GotPrefix, Inbox, Range;
    assert Served(s') == if s.phase.NotBorrowed? then Served(s) + [|s.born|] else Served(s);
    assert ToServe(s') == ToServe(s);
    assert s'.pendingCallbacks == if s.phase.NotBorrowed? then [] else s.pendingCallbacks + [|s.born|];
  }

  /** The visited callback has one event more, every other one what it had. */
  lemma DeliveryGot<E>(s: State<E>)
    requires Inv(s) && Enabled(s, Visit) && s.phase.todo[0] in s.live
    ensures var s' := Apply(s, Visit);
      && Got(s', s.phase.todo[0], s.popped)
      && (forall b: nat, u: nat :: b != s.phase.todo[0] && Got(s, b, u) ==> Got(s', b, u))
      && (forall b: nat :: b != s.phase.todo[0] && Newborn(s, b) ==> Newborn(s', b))
      && (forall b :: 0 <= b < |s.born| ==> GotPrefix(s', b))
  {
    hide LogOk, HeldOk, Ordered;
    var s' := Apply(s, Visit);
    var c := s.phase.todo[0];
    var k := s.phase.event;
    assert Got(s, ToServe(s)[0], k);
    InboxAfter(s.log, Delivery(k, c), c);
    assert Range(s.born[c], k + 1) == Range(s.born[c], k) + [k];
    assert Got(s', c, k + 1);
    forall b: nat, u: nat | b != c && Got(s, b, u) ensures Got(s', b, u) {
      InboxAfter(s.log, Delivery(k, c), b);
    }
    forall b | 0 <= b < |s.born| ensures GotPrefix(s', b) {
      assert GotPrefix(s, b);
      if b != c {
        var u :| Got(s, b, u);
        assert Got(s', b, u);
      }
    }
  }

  /** Nothing else that is held is the callback being visited. */
  lemma VisitedIsAlone<E>(s: State<E>)
    requires HeldOk(s) && Enabled(s, Visit)
    ensures forall i :: 0 <= i < |Served(s)| ==> Served(s)[i] != s.phase.todo[0]
    ensures forall i :: 0 < i < |ToServe(s)| ==> ToServe(s)[i] != s.phase.todo[0]
    ensures forall i :: 0 <= i < |s.pendingCallbacks| ==> s.pendingCallbacks[i] != s.phase.todo[0]
  {
    var h := Held(s);
    var at := |Served(s)|;
    assert h[at] == s.phase.todo[0];
    assert forall i :: 0 <= i < at ==> h[i] == Served(s)[i];
    assert forall i :: 0 <= i < |ToServe(s)| ==> h[at + i] == ToServe(s)[i];
    assert forall i :: 0 <= i < |s.pendingCallbacks| ==> h[at + |ToServe(s)| + i] == s.pendingCallbacks[i];
  }

  /** The parts after a delivery, given what it did to each inbox. */
  lemma ServedOneMore<E>(s: State<E>, s': State<E>, c: Registration)
    requires InboxesOk(s) && Delivering(s) && Delivering(s') && ToServe(s) != []
    requires Served(s') == Served(s) + [c] && ToServe(s') == ToServe(s)[1..]
    requires s'.pendingCallbacks == s.pendingCallbacks && s'.popped == s.popped && s'.phase.event == s.phase.event
    requires s'.born == s.born && Got(s', c, s.popped)
    requires forall b: nat, u: nat :: b != c && Got(s, b, u) ==> Got(s', b, u)
    requires forall b: nat :: b != c && Newborn(s, b) ==> Newborn(s', b)
    requires forall b :: 0 <= b < |s.born| ==> GotPrefix(s', b)
    requires forall i :: 0 <= i < |Served(s)| ==> Served(s)[i] != c
    requires forall i :: 0 < i < |ToServe(s)| ==> ToServe(s)[i] != c
    requires forall i :: 0 <= i < |s.pendingCallbacks| ==> s.pendingCallbacks[i] != c
    ensures InboxesOk(s')
  {
    hide Served, ToServe, Got, Newborn, GotPrefix;
    forall i | 0 <= i < |Served(s')| ensures Got(s', Served(s')[i], s'.popped) {
      assert i < |Served(s)| ==> Got(s, Served(s)[i], s.popped);
    }
    forall i | 0 <= i < |ToServe(s')| ensures Got(s', ToServe(s')[i], s'.phase.event) {
      assert Got(s, ToServe(s)[i + 1], s.phase.event);
    }
  }

  lemma DeliveryKeepsInboxes<E>(s: State<E>)
    requires Inv(s) && Enabled(s, Visit) && s.phase.todo[0] in s.live
    ensures InboxesOk(Apply(s, Visit))
  {
    VisitedIsAlone(s);
    DeliveryGot(s);
    var s' := Apply(s, Visit);
    assert Served(s') == Served(s) + [s.phase.todo[0]] && ToServe(s') == ToServe(s)[1..];
    hide HeldOk, InboxesOk, LogOk, GoneOk, QueuesOk, Held, Got, GotPrefix, Newborn;
    ServedOneMore(s, s', s.phase.todo[0]);
  }

  /** Popping an event and merging the newcomers only hand registrations from one part to another. */
  lemma MergeKeepsInboxes<E>(s: State<E>, a: Action<E>)
    requires Inv(s) && Enabled(s, a) && (a.PopEvent? || a.EndOfEvent?)
    ensures InboxesOk(Apply(s, a))
  {
    hide LogOk, GoneOk;
    var s' := Apply(s, a);
    SilentKeepsGot(s, s');
    hide GotPrefix;
    assert a.EndOfEvent? ==> forall c: nat :: Newborn(s, c) ==> Got(s', c, s'.popped);
  }

  /** The other steps that deliver nothing leave all parts as they are, but for a dead registration. */
  lemma OtherKeepsParts<E>(s: State<E>, a: Action<E>)
    requires Enabled(s, a) && !a.Register? && !a.PopEvent? && !a.EndOfEvent?
    requires !(a.Visit? && s.phase.todo[0] in s.live)
    ensures var s' := Apply(s, a);
      && Served(s') == Served(s) && s'.pendingCallbacks == s.pendingCallbacks
      && ToServe(s') == (if a.Visit? then ToServe(s)[1..] else ToServe(s))
      && (a.Visit? ==> ToServe(s) != [])
      && s'.log == s.log && s'.popped == s.popped && s'.born == s.born
      && (Delivering(s') <==> Delivering(s)) && (Delivering(s) ==> s'.phase.event == s.phase.event)
  {
  }

  lemma SamePartsKeepInboxes<E>(s: State<E>, s': State<E>, n: nat)
    requires InboxesOk(s) && n <= |ToServe(s)|
    requires Served(s') == Served(s) && s'.pendingCallbacks == s.pendingCallbacks && ToServe(s') == ToServe(s)[n..]
    requires s'.log == s.log && s'.popped == s.popped && s'.born == s.born
    requires (Delivering(s') <==> Delivering(s)) && (Delivering(s) ==> s'.phase.event == s.phase.event)
    ensures InboxesOk(s')
  {
    SilentKeepsGot(s, s');
    assert forall c: nat :: Newborn(s, c) ==> Newborn(s', c);
    hide Served, ToServe, Delivering, Got, Newborn, GotPrefix;
  }

  lemma SilentKeepsInboxes<E>(s: State<E>, a: Action<E>)
    requires Inv(s) && Enabled(s, a) && !a.Register? && !(a.Visit? && s.phase.todo[0] in s.live)
    ensures InboxesOk(Apply(s, a))
  {
    if a.PopEvent? || a.EndOfEvent? {
      MergeKeepsInboxes(s, a);
    } else {
      OtherKeepsParts(s, a);
      hide HeldOk, InboxesOk, GoneOk, LogOk, Served, ToServe, Apply, Enabled, Delivering;
      SamePartsKeepInboxes(s, Apply(s, a), if a.Visit? then 1 else 0);
    }
  }

  lemma StepKeepsInboxes<E>(s: State<E>, a: Action<E>)
    requires Inv(s) && Enabled(s, a)
    ensures InboxesOk(Apply(s, a))
  {
    hide HeldOk, LogOk, GoneOk, InboxesOk;
    if a.Register? {
      RegisterKeepsInboxes(s);
    } else if a.Visit? && s.phase.todo[0] in s.live {
      DeliveryKeepsInboxes(s);
    } else {
      SilentKeepsInboxes(s, a);
    }
  }

  /** A live callback has got everything due to it up to now, in the middle of a dispatch too. */
  lemma LiveGot<E>(s: State<E>, c: Registration)
    requires HeldOk(s) && QueuesOk(s) && InboxesOk(s) && c in s.live
    ensures GotUntil(s, c, Now(s))
    ensures c in s.pendingCallbacks ==> Inbox(s.log, c) == []
    ensures c !in s.pendingCallbacks ==>
      Inbox(s.log, c) == Range(s.born[c], if c in ToServe(s) then s.popped - 1 else s.popped)
  {
    assert c in Held(s);
    assert c in Served(s) || c in ToServe(s) || c in s.pendingCallbacks;
    HeldInOrder(s);
    if c in s.pendingCallbacks {
      var i :| 0 <= i < |s.pendingCallbacks| && s.pendingCallbacks[i] == c;
      assert Newborn(s, s.pendingCallbacks[i]);
    } else if c in ToServe(s) {
      var i :| 0 <= i < |ToServe(s)| && ToServe(s)[i] == c;
      assert Got(s, ToServe(s)[i], s.phase.event);
    } else {
      var i :| 0 <= i < |Served(s)| && Served(s)[i] == c;
      assert Got(s, Served(s)[i], s.popped);
    }
  }

  /** The parts of an increasing sequence follow each other. */
  lemma PartsInOrder(a: seq<nat>, t: seq<nat>, b: seq<nat>)
    requires Increasing(a + t + b)
    ensures Increasing(a) && Increasing(t)
    ensures forall i, j :: 0 <= i < |a| && 0 <= j < |t| ==> a[i] < t[j]
    ensures forall i, j :: 0 <= i < |t| && 0 <= j < |b| ==> t[i] < b[j]
  {
    var h := a + t + b;
    assert forall i :: 0 <= i < |a| ==> h[i] == a[i];
    assert forall i :: 0 <= i < |t| ==> h[|a| + i] == t[i];
    assert forall i :: 0 <= i < |b| ==> h[|a| + |t| + i] == b[i];
  }

  /** Parts that follow each other have nothing in common. */
  lemma PartsAreDisjoint(t: seq<nat>, o: seq<nat>)
    requires forall i, j :: 0 <= i < |t| && 0 <= j < |o| ==> t[i] != o[j]
    ensures forall c :: c in t ==> c !in o
  {
  }

  /** Served callbacks come before those still to be served, and now is between them. */
  lemma HeldInOrder<E>(s: State<E>)
    requires HeldOk(s) && QueuesOk(s)
    ensures Delivering(s) ==> forall i :: 0 <= i < |Served(s)| ==> Served(s)[i] < Now(s).to
    ensures forall i :: 0 <= i < |ToServe(s)| ==> ToServe(s)[i] >= Now(s).to
    ensures forall c :: c in ToServe(s) ==> c !in s.pendingCallbacks && c !in Served(s)
  {
    assert Increasing(Served(s) + ToServe(s) + s.pendingCallbacks);
    PartsInOrder(Served(s), ToServe(s), s.pendingCallbacks);
    PartsAreDisjoint(ToServe(s), Served(s));
    PartsAreDisjoint(ToServe(s), s.pendingCallbacks);
    NowIsBetween(s);
  }

  lemma NowIsBetween<E>(s: State<E>)
    requires Within(Held(s), |s.born|)
    requires Increasing(Served(s)) && Increasing(ToServe(s))
    requires forall i, j :: 0 <= i < |Served(s)| && 0 <= j < |ToServe(s)| ==> Served(s)[i] < ToServe(s)[j]
    ensures Delivering(s) ==> forall i :: 0 <= i < |Served(s)| ==> Served(s)[i] < Now(s).to
    ensures forall i :: 0 <= i < |ToServe(s)| ==> ToServe(s)[i] >= Now(s).to
  {
    assert forall i :: 0 <= i < |Served(s)| ==> Held(s)[i] == Served(s)[i];
    hide Held;
    if s.phase.Calling? {
      assert Served(s)[|Served(s)| - 1] + 1 == Now(s).to;
    }
  }

  lemma DeliveryKeepsGone<E>(s: State<E>, c: Registration)
    requires Enabled(s, Visit) && s.phase.todo[0] in s.live && c !in s.live
    ensures Inbox(Apply(s, Visit).log, c) == Inbox(s.log, c)
  {
    InboxAfter(s.log, Delivery(s.phase.event, s.phase.todo[0]), c);
  }

  lemma StepKeepsGone<E>(s: State<E>, a: Action<E>)
    requires Inv(s) && Enabled(s, a)
    ensures GoneOk(Apply(s, a))
  {
    hide Inbox, Range, UpTo, HeldOk, InboxesOk, LogOk;
    var s' := Apply(s, a);
    if a.DropToken? {
      LiveGot(s, a.token);
    }
    forall c | c in s.gone ensures GotUntil(s', c, s.gone[c]) {
      assert GotUntil(s, c, s.gone[c]);
      if a.Visit? && s.phase.todo[0] in s.live {
        DeliveryKeepsGone(s, c);
      }
    }
  }

  lemma OrderedPush(log: seq<Delivery>, d: Delivery)
    requires Ordered(log) && forall i :: 0 <= i < |log| ==> Before(log[i], d)
    ensures Ordered(log + [d])
  {
  }

  /** The callback being visited comes before all that are still to be served. */
  lemma VisitedIsFirst<E>(s: State<E>)
    requires HeldOk(s) && Enabled(s, Visit)
    ensures s.phase.todo[0] < |s.born|
    ensures forall j :: 0 < j < |s.phase.todo| ==> s.phase.todo[0] < s.phase.todo[j]
  {
    var h := Held(s);
    var at := |Served(s)|;
    assert forall j :: 0 <= j < |s.phase.todo| ==> h[at + j] == s.phase.todo[j];
    assert h[at] == s.phase.todo[0];
  }

  /** A delivery comes after all that were made if `to` is the first of those still to be served. */
  lemma DeliveryIsLast(log: seq<Delivery>, event: nat, to: Registration)
    requires Ordered(log)
    requires forall i :: 0 <= i < |log| ==> log[i].event <= event
    requires forall i :: 0 <= i < |log| && log[i].event == event ==> log[i].to < to
    ensures Ordered(log + [Delivery(event, to)])
  {
    OrderedPush(log, Delivery(event, to));
  }

  lemma DeliveryKeepsLog<E>(s: State<E>)
    requires HeldOk(s) && QueuesOk(s) && LogOk(s) && Enabled(s, Visit) && s.phase.todo[0] in s.live
    ensures LogOk(Apply(s, Visit))
  {
    VisitedIsFirst(s);
    hide HeldOk, Held, Ordered, Inbox;
    var s' := Apply(s, Visit);
    assert s.phase.todo == ToServe(s) && ToServe(s') == s.phase.todo[1..];
    assert s'.log == s.log + [Delivery(s.phase.event, s.phase.todo[0])];
    DeliveryIsLast(s.log, s.phase.event, s.phase.todo[0]);
  }

  lemma StepKeepsLog<E>(s: State<E>, a: Action<E>)
    requires Inv(s) && Enabled(s, a)
    ensures LogOk(Apply(s, a))
  {
    hide InboxesOk, GoneOk;
    if a.Visit? && s.phase.todo[0] in s.live {
      DeliveryKeepsLog(s);
    }
  }

  lemma StepKeeps<E>(s: State<E>, a: Action<E>)
    requires Inv(s) && Enabled(s, a)
    ensures Inv(Apply(s, a))
  {
    StepKeepsHeld(s, a);
    StepKeepsQueues(s, a);
    StepKeepsInboxes(s, a);
    StepKeepsGone(s, a);
    StepKeepsLog(s, a);
  }

  // ---------------------------------------------------------------- over whole runs

  lemma {:induction false} RunKeeps<E>(s: State<E>, acts: seq<Action<E>>)
    requires Inv(s) && Legal(s, acts)
    ensures Inv(Run(s, acts))
    ensures s.sent <= Run(s, acts).sent && s.born <= Run(s, acts).born && s.log <= Run(s, acts).log
    decreases |acts|
  {
    if acts != [] {
      StepKeeps(s, acts[0]);
      RunKeeps(Apply(s, acts[0]), acts[1..]);
    }
  }

  /** The events signalled in a run, in order. */
  function Signalled<E>(acts: seq<Action<E>>): seq<E> {
    if acts == [] then [] else (if acts[0].Signal? then [acts[0].event] else []) + Signalled(acts[1..])
  }

  function Registrations<E>(acts: seq<Action<E>>): nat {
    if acts == [] then 0 else (if acts[0].Register? then 1 else 0) + Registrations(acts[1..])
  }

  function Pops<E>(acts: seq<Action<E>>): nat {
    if acts == [] then 0 else (if acts[0].PopEvent? then 1 else 0) + Pops(acts[1..])
  }

  /** From `s` to `t` these actions happened, and are recorded. */
  ghost predicate Records<E>(s: State<E>, acts: seq<Action<E>>, t: State<E>) {
    && t.sent == s.sent + Signalled(acts)
    && |t.born| == |s.born| + Registrations(acts)
    && t.popped == s.popped + Pops(acts)
    && forall c: Registration ::
         c in t.live <==> (c in s.live || |s.born| <= c < |t.born|) && DropToken(c) !in acts
  }

  lemma StepRecords<E>(s: State<E>, a: Action<E>)
    requires Enabled(s, a) && forall c :: c in s.live ==> c < |s.born|
    ensures Records(s, [a], Apply(s, a))
  {
    assert [a][1..] == [];
    assert Signalled([a]) == if a.Signal? then [a.event] else [];
    assert Registrations([a]) == if a.Register? then 1 else 0;
    assert Pops([a]) == if a.PopEvent? then 1 else 0;
  }

  lemma RecordsThen<E>(s: State<E>, a: Action<E>, m: State<E>, acts: seq<Action<E>>, t: State<E>)
    requires Records(s, [a], m) && Records(m, acts, t)
    requires a.DropToken? ==> a.token < |s.born|
    ensures Records(s, [a] + acts, t)
  {
    assert [a][1..] == [] && ([a] + acts)[1..] == acts;
    assert Signalled([a] + acts) == Signalled([a]) + Signalled(acts);
    assert Registrations([a] + acts) == Registrations([a]) + Registrations(acts);
    assert Pops([a] + acts) == Pops([a]) + Pops(acts);
    hide Signalled, Registrations, Pops;
    forall c: Registration
      ensures c in t.live <==> (c in s.live || |s.born| <= c < |t.born|) && DropToken(c) !in [a] + acts
    {
      assert DropToken(c) in [a] + acts <==> DropToken(c) in [a] || DropToken(c) in acts;
    }
  }

  lemma {:induction false} RunRecords<E>(s: State<E>, acts: seq<Action<E>>)
    requires Inv(s) && Legal(s, acts)
    ensures Records(s, acts, Run(s, acts))
    decreases |acts|
  {
    if acts != [] {
      hide Inv, Records, Apply;
      var s' := Apply(s, acts[0]);
      StepKeeps(s, acts[0]);
      LiveAreBorn(s);
      StepRecords(s, acts[0]);
      RunRecords(s', acts[1..]);
      RecordsThen(s, acts[0], s', acts[1..], Run(s, acts));
      assert acts == [acts[0]] + acts[1..];
    }
  }

  lemma LiveAreBorn<E>(s: State<E>)
    requires Inv(s)
    ensures forall c :: c in s.live ==> c < |s.born|
  {
    hide QueuesOk, InboxesOk, GoneOk, LogOk;
    forall c | c in s.live ensures c < |s.born| {
      var i :| 0 <= i < |Held(s)| && Held(s)[i] == c;
    }
  }

  /**
   * The history in a state is what happened: all signals in order, one number per
   * registration, alive until the drop of its token, and one popped event per pop.
   */
  lemma HistoryIsWhatHappened<E>(acts: seq<Action<E>>)
    requires Legal(Fresh(), acts)
    ensures var s := Run(Fresh(), acts);
      && s.sent == Signalled(acts) && |s.born| == Registrations(acts) && s.popped == Pops(acts)
      && forall c: Registration :: c in s.live <==> c < |s.born| && DropToken(c) !in acts
  {
    RunRecords(Fresh(), acts);
  }

  /** A registration is recorded with the number of events popped before it. */
  lemma BornWhenRegistered<E>(before: seq<Action<E>>, after: seq<Action<E>>)
    requires Legal(Fresh(), before) && Enabled(Run(Fresh(), before), Register)
    requires Legal(Apply(Run(Fresh(), before), Register), after)
    ensures var c := Registrations(before);
            var s := Run(Apply(Run(Fresh(), before), Register), after);
            c < |s.born| && s.born[c] == Pops(before)
  {
    var s := Run(Fresh(), before);
    ReachedIsOk(before);
    HistoryIsWhatHappened(before);
    StepKeeps(s, Register);
    assert Apply(s, Register).born[|s.born|] == s.popped;
    RunKeeps(Apply(s, Register), after);
  }

  lemma ReachedIsOk<E>(acts: seq<Action<E>>)
    requires Legal(Fresh(), acts)
    ensures Inv(Run(Fresh(), acts))
  {
    RunKeeps(Fresh(), acts);
  }

  /** Both pending queues are empty, and every event was popped, whenever no dispatch is running. */
  lemma IdleIsDrained<E>(acts: seq<Action<E>>)
    requires Legal(Fresh(), acts) && Run(Fresh(), acts).phase.NotBorrowed?
    ensures var s := Run(Fresh(), acts);
            s.pendingEvents == [] && s.pendingCallbacks == [] && s.popped == |s.sent|
  {
    ReachedIsOk(acts);
  }

  /** A live registration is held exactly once: by the callback list or by the pending one. */
  lemma LiveIsHeldOnce<E>(acts: seq<Action<E>>, c: Registration)
    requires Legal(Fresh(), acts) && c in Run(Fresh(), acts).live
    ensures var s := Run(Fresh(), acts);
            && (c in Served(s) + ToServe(s) <==> c !in s.pendingCallbacks)
            && multiset(Held(s))[c] == 1
  {
    var s := Run(Fresh(), acts);
    ReachedIsOk(acts);
    hide InboxesOk, LogOk, QueuesOk;
    OnceInEither(Served(s) + ToServe(s), s.pendingCallbacks, c);
  }

  lemma OnceInEither(a: seq<nat>, b: seq<nat>, c: nat)
    requires Increasing(a + b) && c in a + b
    ensures (c in a <==> c !in b) && multiset(a + b)[c] == 1
  {
    var s := a + b;
    var i :| 0 <= i < |s| && s[i] == c;
    OnceIfIncreasing(s, i);
    assert multiset(a + b) == multiset(a) + multiset(b);
  }

  lemma {:induction false} OnceIfIncreasing(s: seq<nat>, i: nat)
    requires Increasing(s) && i < |s|
    ensures multiset(s)[s[i]] == 1
  {
    var x := s[i];
    assert s == s[..i] + [x] + s[i + 1..];
    assert x !in s[..i] && x !in s[i + 1..];
    assert multiset(s) == multiset(s[..i]) + multiset{x} + multiset(s[i + 1..]);
  }

  lemma {:induction false} DeadStaysSilent<E>(s: State<E>, acts: seq<Action<E>>, c: Registration)
    requires Inv(s) && Legal(s, acts) && c < |s.born| && c !in s.live
    ensures Inbox(Run(s, acts).log, c) == Inbox(s.log, c)
    decreases |acts|
  {
    if acts != [] {
      var a := acts[0];
      StepKeeps(s, a);
      if a.Visit? && s.phase.todo[0] in s.live {
        InboxAfter(s.log, Delivery(s.phase.event, s.phase.todo[0]), c);
      }
      DeadStaysSilent(Apply(s, a), acts[1..], c);
    }
  }

  /**
   * Once its token is dropped a callback never receives anything again; and until then it
   * received everything due to it: all events from its registration on, up to the one being
   * delivered if its turn had come, else up to the one before.
   */
  lemma DroppedReceivesNothing<E>(before: seq<Action<E>>, c: Registration, after: seq<Action<E>>)
    requires Legal(Fresh(), before) && Enabled(Run(Fresh(), before), DropToken(c))
    requires Legal(Apply(Run(Fresh(), before), DropToken(c)), after)
    ensures var s := Run(Fresh(), before);
            var inbox := Inbox(Run(Apply(s, DropToken(c)), after).log, c);
            && inbox == Inbox(s.log, c)
            && c < |s.born|
            && inbox == Range(s.born[c], if s.phase.Calling? && s.phase.running < c then s.phase.event else s.popped)
  {
    var s := Run(Fresh(), before);
    ReachedIsOk(before);
    LiveGot(s, c);
    StepKeeps(s, DropToken(c));
    DeadStaysSilent(Apply(s, DropToken(c)), after, c);
  }

  /** The end of what `c` is due: now if it is alive, else the moment it was dropped. */
  function End<E>(s: State<E>, c: Registration): nat {
    UpTo(c, if c in s.gone then s.gone[c] else Now(s))
  }

  /**
   * In every reachable state, whether or not a dispatch is running, every registration, live
   * or dropped, has been given exactly the events from its registration to its end.
   */
  lemma EveryInboxIsExact<E>(acts: seq<Action<E>>, c: Registration)
    requires Legal(Fresh(), acts) && c < |Run(Fresh(), acts).born|
    ensures var s := Run(Fresh(), acts);
            Inbox(s.log, c) == Range(s.born[c], End(s, c))
  {
    ReachedIsOk(acts);
    InboxIsExact(Run(Fresh(), acts), c);
  }

  lemma InboxIsExact<E>(s: State<E>, c: Registration)
    requires Inv(s) && c < |s.born|
    ensures Inbox(s.log, c) == Range(s.born[c], End(s, c))
  {
    if c in s.live {
      LiveGot(s, c);
    }
  }

  /**
   * A callback registered while event `k` is being delivered gets the events from `k + 1`
   * on, in order and once each, those already queued at its registration included: up to
   * the last one signalled when the signaler is idle, and up to its drop if it was dropped.
   */
  lemma RegisteredDuringDelivery<E>(before: seq<Action<E>>, after: seq<Action<E>>)
    requires Legal(Fresh(), before) && Run(Fresh(), before).phase.Calling?
    requires Legal(Apply(Run(Fresh(), before), Register), after)
    ensures var s := Run(Fresh(), before);
            var k := s.phase.event;
            var c := |s.born|;
            var s' := Run(Apply(s, Register), after);
            && Inbox(s'.log, c) == Range(k + 1, End(s', c))
            && (c in s'.live && s'.phase.NotBorrowed? ==> Inbox(s'.log, c) == Range(k + 1, |s'.sent|))
  {
    hide Inv, Run, Legal, Apply, Inbox, Range, End;
    ReachedIsOk(before);
    RegisteredIsServed(Run(Fresh(), before), after);
  }

  lemma BornAfterEvent<E>(s: State<E>, after: seq<Action<E>>)
    requires Inv(s) && s.phase.Calling? && Legal(Apply(s, Register), after)
    ensures Inv(Run(Apply(s, Register), after))
    ensures var born := Run(Apply(s, Register), after).born;
            |s.born| < |born| && born[|s.born|] == s.phase.event + 1
  {
    StepKeeps(s, Register);
    RunKeeps(Apply(s, Register), after);
    assert Apply(s, Register).born[|s.born|] == s.phase.event + 1;
  }

  lemma RegisteredIsServed<E>(s: State<E>, after: seq<Action<E>>)
    requires Inv(s) && s.phase.Calling? && Legal(Apply(s, Register), after)
    ensures var k := s.phase.event;
            var c := |s.born|;
            var s' := Run(Apply(s, Register), after);
            && Inbox(s'.log, c) == Range(k + 1, End(s', c))
            && (c in s'.live && s'.phase.NotBorrowed? ==> Inbox(s'.log, c) == Range(k + 1, |s'.sent|))
  {
    hide Run, Legal, Apply, Inbox, Range, InboxesOk, HeldOk, LogOk;
    BornAfterEvent(s, after);
    InboxIsExact(Run(Apply(s, Register), after), |s.born|);
  }

  // ---------------------------------------------------------------- the flat queue

  /** Delivery `d` is due: registered by then, and not dropped before. */
  predicate Due(born: seq<nat>, gone: map<Registration, Delivery>, d: Delivery) {
    && d.to < |born| && born[d.to] <= d.event
    && (d.to in gone ==> Before(d, gone[d.to]))
  }

  /** One event, delivered to those of the first `n` registrations to which it is due. */
  function FlatEvent(born: seq<nat>, gone: map<Registration, Delivery>, k: nat, n: nat): seq<Delivery> {
    if n == 0 then []
    else FlatEvent(born, gone, k, n - 1) + (if Due(born, gone, Delivery(k, n - 1)) then [Delivery(k, n - 1)] else [])
  }

  /** The first `n` events, one after the other. */
  function FlatLog(born: seq<nat>, gone: map<Registration, Delivery>, n: nat): seq<Delivery> {
    if n == 0 then [] else FlatLog(born, gone, n - 1) + FlatEvent(born, gone, n - 1, |born|)
  }

  lemma {:induction false} FlatEventIs(born: seq<nat>, gone: map<Registration, Delivery>, k: nat, n: nat)
    ensures Ordered(FlatEvent(born, gone, k, n))
    ensures forall d :: d in FlatEvent(born, gone, k, n) <==> d.event == k && d.to < n && Due(born, gone, d)
  {
    if n > 0 {
      FlatEventIs(born, gone, k, n - 1);
      hide Due;
    }
  }

  lemma OrderedConcat(a: seq<Delivery>, b: seq<Delivery>, k: nat)
    requires Ordered(a) && Ordered(b)
    requires (forall d :: d in a ==> d.event < k) && (forall d :: d in b ==> d.event == k)
    ensures Ordered(a + b)
  {
    var s := a + b;
    forall i, j | 0 <= i < j < |s| ensures Before(s[i], s[j]) {
      if i < |a| <= j {
        assert s[i] in a && s[j] in b;
      }
    }
  }

  /** `log` is what a flat queue delivers for the first `n` events. */
  ghost predicate IsFlat(log: seq<Delivery>, born: seq<nat>, gone: map<Registration, Delivery>, n: nat) {
    Ordered(log) && forall d :: d in log <==> d.event < n && Due(born, gone, d)
  }

  lemma {:induction false} FlatLogIs(born: seq<nat>, gone: map<Registration, Delivery>, n: nat)
    ensures IsFlat(FlatLog(born, gone, n), born, gone, n)
  {
    if n > 0 {
      FlatLogIs(born, gone, n - 1);
      OneMoreEvent(FlatLog(born, gone, n - 1), born, gone, n - 1);
    }
  }

  lemma OneMoreEvent(log: seq<Delivery>, born: seq<nat>, gone: map<Registration, Delivery>, k: nat)
    requires IsFlat(log, born, gone, k)
    ensures IsFlat(log + FlatEvent(born, gone, k, |born|), born, gone, k + 1)
  {
    FlatEventIs(born, gone, k, |born|);
    var event := FlatEvent(born, gone, k, |born|);
    hide Ordered, FlatEvent;
    OrderedConcat(log, event, k);
    JoinedIs(log, event, born, gone, k);
  }

  lemma JoinedIs(a: seq<Delivery>, b: seq<Delivery>, born: seq<nat>, gone: map<Registration, Delivery>, k: nat)
    requires forall d :: d in a <==> d.event < k && Due(born, gone, d)
    requires forall d :: d in b <==> d.event == k && d.to < |born| && Due(born, gone, d)
    ensures forall d :: d in a + b <==> d.event < k + 1 && Due(born, gone, d)
  {
    assert forall d :: Due(born, gone, d) ==> d.to < |born|;
    hide Due;
    forall d: Delivery ensures d in a + b <==> d in a || d in b {
    }
  }

  lemma {:induction false} InboxIs(log: seq<Delivery>, c: Registration, k: nat)
    ensures k in Inbox(log, c) <==> Delivery(k, c) in log
  {
    if log != [] {
      InboxIs(Init(log), c, k);
      assert log == Init(log) + [Last(log)];
    }
  }

  lemma HasMember(b: seq<Delivery>)
    requires b != []
    ensures exists d :: d in b
  {
    assert b[0] in b;
  }

  /** An ordered log is determined by what is in it. */
  lemma {:induction false} OrderedIsUnique(a: seq<Delivery>, b: seq<Delivery>)
    requires Ordered(a) && Ordered(b) && forall d :: d in a <==> d in b
    ensures a == b
    decreases |a|
  {
    if a == [] {
      if b != [] {
        HasMember(b);
      }
    } else {
      assert a[0] in b && b[0] in a;
      assert a[0] == b[0] by {
        var i :| 0 <= i < |b| && b[i] == a[0];
        var j :| 0 <= j < |a| && a[j] == b[0];
      }
      assert a == [a[0]] + a[1..] && b == [b[0]] + b[1..];
      forall d ensures d in a[1..] <==> d in b[1..] {
        assert d in a[1..] ==> d in a && d != a[0];
        assert d in b[1..] ==> d in b && d != b[0];
      }
      OrderedIsUnique(a[1..], b[1..]);
    }
  }

  /** In every reachable state, the log holds exactly the deliveries that were due before now. */
  lemma LogIsWhatWasDue<E>(s: State<E>, d: Delivery)
    requires Inv(s)
    ensures d in s.log <==> Due(s.born, s.gone, d) && (d.to in s.live ==> Before(d, Now(s)))
  {
    InboxIs(s.log, d.to, d.event);
    if d.to < |s.born| {
      InboxIsExact(s, d.to);
      InRange(s.born[d.to], End(s, d.to), d.event);
    }
  }

  /**
   * Re-entrant dispatch is a flat queue: whenever the signaler is idle, all the deliveries it
   * ever made are every event in the order of the `signal` calls, each event to every callback
   * registered before it was popped and not dropped before its turn, in registration order.
   */
  lemma DispatchIsFlatQueue<E>(acts: seq<Action<E>>)
    requires Legal(Fresh(), acts) && Run(Fresh(), acts).phase.NotBorrowed?
    ensures var s := Run(Fresh(), acts);
            s.log == FlatLog(s.born, s.gone, |s.sent|)
  {
    var s := Run(Fresh(), acts);
    ReachedIsOk(acts);
    FlatLogIs(s.born, s.gone, |s.sent|);
    forall d ensures d in s.log <==> d in FlatLog(s.born, s.gone, |s.sent|) {
      LogIsWhatWasDue(s, d);
    }
    OrderedIsUnique(s.log, FlatLog(s.born, s.gone, |s.sent|));
  }

  lemma InRange(from: nat, to: nat, k: nat)
    ensures k in Range(from, to) <==> from <= k < to
  {
    if from <= k < to {
      assert Range(from, to)[k - from] == k;
    }
  }
}
