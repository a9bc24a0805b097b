/**
 * The progress channel to the web view: an accept thread, one forwarding thread per
 * accepted client, and the mutexes of the receiver, the progress and the active client.
 */
module Webview {
  import opened Prelude

  type ClientId = nat

  /** Where the forwarding thread of a client is. */
  datatype Pc =
    /** Before the receiver's mutex, which is then held for the whole `for` loop. */
    | Waiting
    /** Asking the channel for the next message. */
    | Fetching
    | Reading(msg: nat)
    | Sending(msg: nat, progress: nat)
    /** Out of the loop, about to let the receiver go. */
    | Leaving
    | Gone

  /** Message `msg` offered by the thread of one client to the connection of another. */
  datatype Offer = Offer(writer: ClientId, to: Option<ClientId>, msg: nat, progress: nat, ok: bool)

  /**
   * Messages are numbered in the order they were sent; `received` of them were taken from
   * the channel. `clients` counts accepted connections.
   */
  datatype State = State(
    sent: nat,
    received: nat,
    closed: bool,
    progress: nat,
    active: Option<ClientId>,
    holder: Option<ClientId>,
    threads: seq<Pc>,
    log: seq<Offer>)

  datatype Action =
    /** The setup threads: send a message, raise the progress, hang up. */
    | Send
    | Raise(value: nat)
    | HangUp
    /** The accept thread, inside the mutex of the active client. */
    | Connect(protocolOk: bool)
    | TakeReceiver(c: ClientId)
    | Fetch(c: ClientId)
    | EndOfChannel(c: ClientId)
    | ReadProgress(c: ClientId)
    /** Inside the mutex of the active client: write, and on an error forget the client. */
    | Write(c: ClientId, ok: bool)
    | ReleaseReceiver(c: ClientId)

  const FRESH := State(0, 0, false, 0, None, None, [], [])

  predicate At(s: State, c: ClientId, pc: Pc) {
    c < |s.threads| && s.threads[c] == pc
  }

  predicate Enabled(s: State, a: Action) {
    match a
    case Send => !s.closed
    case Raise(value) => s.progress <= value
    case HangUp => true
    case Connect(_) => true
    case TakeReceiver(c) => At(s, c, Waiting) && s.holder.None?
    case Fetch(c) => At(s, c, Fetching) && s.received < s.sent
    case EndOfChannel(c) => At(s, c, Fetching) && s.received == s.sent && s.closed
    case ReadProgress(c) => c < |s.threads| && s.threads[c].Reading?
    case Write(c, _) => c < |s.threads| && s.threads[c].Sending?
    case ReleaseReceiver(c) => At(s, c, Leaving)
  }

  function Move(s: State, c: ClientId, pc: Pc): State
    requires c < |s.threads|
  {
    s.(threads := s.threads[c := pc])
  }

  function Apply(s: State, a: Action): State
    requires Enabled(s, a)
  {
    match a
    case Send => s.(sent := s.sent + 1)
    case Raise(value) => s.(progress := value)
    case HangUp => s.(closed := true)
    case Connect(protocolOk) =>
      if s.active.Some? || !protocolOk then s
      else s.(active := Some(|s.threads|), threads := s.threads + [Waiting])
    case TakeReceiver(c) => Move(s, c, Fetching).(holder := Some(c))
    case Fetch(c) => Move(s, c, Reading(s.received)).(received := s.received + 1)
    case EndOfChannel(c) => Move(s, c, Leaving)
    case ReadProgress(c) => Move(s, c, Sending(s.threads[c].msg, s.progress))
    case Write(c, ok) =>
      var m := s.threads[c];
      if s.active.None? then
        Move(s, c, Fetching).(log := s.log + [Offer(c, None, m.msg, m.progress, false)])
      else if ok then
        Move(s, c, Fetching).(log := s.log + [Offer(c, s.active, m.msg, m.progress, true)])
      else
        Move(s, c, Leaving).(active := None, log := s.log + [Offer(c, s.active, m.msg, m.progress, false)])
    case ReleaseReceiver(c) => Move(s, c, Gone).(holder := None)
  }

  predicate Legal(s: State, acts: seq<Action>)
    decreases |acts|
  {
    acts == [] || (Enabled(s, acts[0]) && Legal(Apply(s, acts[0]), acts[1..]))
  }

  function Run(s: State, acts: seq<Action>): State
    requires Legal(s, acts)
    decreases |acts|
  {
    if acts == [] then s else Run(Apply(s, acts[0]), acts[1..])
  }

  // ---------------------------------------------------------------- the invariant

  /** In the loop: holding the receiver and still serving its client. */
  predicate Serving(pc: Pc) {
    pc.Fetching? || pc.Reading? || pc.Sending?
  }

  predicate Holding(pc: Pc) {
    Serving(pc) || pc.Leaving?
  }

  ghost predicate ThreadsOk(s: State) {
    && (s.active.Some? ==> s.active.value < |s.threads|)
    && (forall c :: 0 <= c < |s.threads| && Holding(s.threads[c]) ==> s.holder == Some(c))
    && (s.holder.Some? ==> s.holder.value < |s.threads| && Holding(s.threads[s.holder.value]))
    && (forall c :: 0 <= c < |s.threads| && (s.threads[c].Waiting? || Serving(s.threads[c])) ==> s.active == Some(c))
    && (s.active.Some? && (s.threads[s.active.value].Leaving? || s.threads[s.active.value].Gone?) ==>
          s.closed && s.received == s.sent)
    && (forall c :: 0 <= c < |s.threads| && s.active != Some(c) ==> s.threads[c].Leaving? || s.threads[c].Gone?)
    && s.received <= s.sent
  }

  predicate HasMessage(pc: Pc) {
    pc.Reading? || pc.Sending?
  }

  /** The message a thread has taken and not yet offered. */
  function InFlight(s: State): nat {
    if s.holder.Some? && s.holder.value < |s.threads| && HasMessage(s.threads[s.holder.value]) then 1 else 0
  }

  ghost predicate LogOk(s: State) {
    && |s.log| + InFlight(s) == s.received
    && (forall i :: 0 <= i < |s.log| ==>
          s.log[i].msg == i && s.log[i].to == Some(s.log[i].writer) && s.log[i].writer < |s.threads|)
    && (forall i, j :: 0 <= i < j < |s.log| ==>
          s.log[i].writer <= s.log[j].writer && s.log[i].progress <= s.log[j].progress)
    && (forall i, j :: 0 <= i < j < |s.log| && !s.log[i].ok ==> s.log[i].writer < s.log[j].writer)
    && (forall i :: 0 <= i < |s.log| ==> s.log[i].progress <= s.progress)
    && (s.active.Some? ==> forall i :: 0 <= i < |s.log| ==>
          s.log[i].writer <= s.active.value && (!s.log[i].ok ==> s.log[i].writer < s.active.value))
    && (forall c :: 0 <= c < |s.threads| && s.threads[c].Reading? ==> s.threads[c].msg == |s.log|)
    && (forall c :: 0 <= c < |s.threads| && s.threads[c].Sending? ==>
          s.threads[c].msg == |s.log| && s.threads[c].progress <= s.progress &&
          forall i :: 0 <= i < |s.log| ==> s.log[i].progress <= s.threads[c].progress)
  }

  ghost predicate Inv(s: State) {
    ThreadsOk(s) && LogOk(s)
  }

  lemma SetupAndConnectKeepThreads(s: State, a: Action)
    requires ThreadsOk(s) && Enabled(s, a) && (a.Send? || a.Raise? || a.HangUp? || a.Connect?)
    ensures ThreadsOk(Apply(s, a))
  {
  }

  /** A forwarding thread moving on while it serves its client. */
  lemma ServingKeepsThreads(s: State, a: Action)
    requires ThreadsOk(s) && Enabled(s, a) && (a.TakeReceiver? || a.Fetch? || a.ReadProgress?)
    ensures ThreadsOk(Apply(s, a))
  {
  }

  lemma LeavingKeepsThreads(s: State, a: Action)
    requires ThreadsOk(s) && Enabled(s, a) && (a.EndOfChannel? || a.Write? || a.ReleaseReceiver?)
    ensures ThreadsOk(Apply(s, a))
  {
  }

  lemma StepKeepsThreads(s: State, a: Action)
    requires ThreadsOk(s) && Enabled(s, a)
    ensures ThreadsOk(Apply(s, a))
  {
    hide ThreadsOk, Apply, Enabled;
    if a.Send? || a.Raise? || a.HangUp? || a.Connect? {
      SetupAndConnectKeepThreads(s, a);
    } else if a.TakeReceiver? || a.Fetch? || a.ReadProgress? {
      ServingKeepsThreads(s, a);
    } else {
      LeavingKeepsThreads(s, a);
    }
  }

  lemma ConnectKeepsLog(s: State, protocolOk: bool)
    requires Inv(s)
    ensures LogOk(Apply(s, Connect(protocolOk)))
  {
  }

  lemma FetchKeepsLog(s: State, c: ClientId)
    requires Inv(s) && Enabled(s, Fetch(c))
    ensures LogOk(Apply(s, Fetch(c)))
  {
    assert s.holder == Some(c);
    OthersAreIdle(s, c);
    hide ThreadsOk;
  }

  lemma ReadKeepsLog(s: State, c: ClientId)
    requires Inv(s) && Enabled(s, ReadProgress(c))
    ensures LogOk(Apply(s, ReadProgress(c)))
  {
    assert s.holder == Some(c);
    OthersAreIdle(s, c);
    hide ThreadsOk;
  }

  /** Only the thread of the active client comes to write, so the message goes to its own client. */
  lemma WriteGoesToOwnClient(s: State, c: ClientId, ok: bool)
    requires Inv(s) && Enabled(s, Write(c, ok))
    ensures s.active == Some(c) && s.holder == Some(c)
    ensures Apply(s, Write(c, ok)).log == s.log + [Offer(c, Some(c), |s.log|, s.threads[c].progress, ok)]
    ensures Apply(s, Write(c, ok)).active == if ok then Some(c) else None
  {
  }

  /** The log with one more offer, made by the active client's thread. */
  lemma OfferKeepsOrder(log: seq<Offer>, o: Offer, n: nat)
    requires forall i :: 0 <= i < |log| ==> log[i].msg == i && log[i].to == Some(log[i].writer) && log[i].writer < n
    requires forall i, j :: 0 <= i < j < |log| ==> log[i].writer <= log[j].writer && log[i].progress <= log[j].progress
    requires forall i, j :: 0 <= i < j < |log| && !log[i].ok ==> log[i].writer < log[j].writer
    requires o.msg == |log| && o.to == Some(o.writer) && o.writer < n
    requires forall i :: 0 <= i < |log| ==>
      log[i].writer <= o.writer && (!log[i].ok ==> log[i].writer < o.writer) && log[i].progress <= o.progress
    ensures var l := log + [o];
      && (forall i :: 0 <= i < |l| ==> l[i].msg == i && l[i].to == Some(l[i].writer) && l[i].writer < n)
      && (forall i, j :: 0 <= i < j < |l| ==> l[i].writer <= l[j].writer && l[i].progress <= l[j].progress)
      && (forall i, j :: 0 <= i < j < |l| && !l[i].ok ==> l[i].writer < l[j].writer)
  {
  }

  /** While one thread serves its client, no other thread has a message. */
  lemma OthersAreIdle(s: State, c: ClientId)
    requires ThreadsOk(s) && c < |s.threads| && Serving(s.threads[c])
    ensures forall d :: 0 <= d < |s.threads| && d != c ==> !s.threads[d].Reading? && !s.threads[d].Sending?
  {
  }

  lemma WriteKeepsLog(s: State, c: ClientId, ok: bool)
    requires Inv(s) && Enabled(s, Write(c, ok))
    ensures LogOk(Apply(s, Write(c, ok)))
  {
    WriteGoesToOwnClient(s, c, ok);
    OthersAreIdle(s, c);
    hide ThreadsOk;
    var s' := Apply(s, Write(c, ok));
    OfferKeepsOrder(s.log, Offer(c, Some(c), |s.log|, s.threads[c].progress, ok), |s.threads|);
    assert InFlight(s') == 0 && InFlight(s) == 1;
  }

  lemma ReceiverKeepsLog(s: State, a: Action)
    requires Inv(s) && Enabled(s, a) && (a.TakeReceiver? || a.EndOfChannel? || a.ReleaseReceiver?)
    ensures LogOk(Apply(s, a))
  {
    var s' := Apply(s, a);
    assert forall d :: 0 <= d < |s.threads| ==> !s'.threads[d].Reading? && !s'.threads[d].Sending?;
    assert InFlight(s) == 0 && InFlight(s') == 0;
    hide ThreadsOk;
  }

  lemma SetupKeepsLog(s: State, a: Action)
    requires Inv(s) && Enabled(s, a) && (a.Send? || a.Raise? || a.HangUp?)
    ensures LogOk(Apply(s, a))
  {
    assert InFlight(Apply(s, a)) == InFlight(s);
  }

  lemma LogGrows(s: State, a: Action)
    requires Enabled(s, a)
    ensures s.log <= Apply(s, a).log
  {
  }

  lemma StepKeeps(s: State, a: Action)
    requires Inv(s) && Enabled(s, a)
    ensures Inv(Apply(s, a))
    ensures s.log <= Apply(s, a).log
  {
    StepKeepsThreads(s, a);
    LogGrows(s, a);
    hide ThreadsOk, LogOk, Apply, Enabled;
    match a
    case Send => SetupKeepsLog(s, a);
    case Raise(_) => SetupKeepsLog(s, a);
    case HangUp => SetupKeepsLog(s, a);
    case Connect(protocolOk) => ConnectKeepsLog(s, protocolOk);
    case Fetch(c) => FetchKeepsLog(s, c);
    case ReadProgress(c) => ReadKeepsLog(s, c);
    case Write(c, ok) => WriteKeepsLog(s, c, ok);
    case TakeReceiver(_) => ReceiverKeepsLog(s, a);
    case EndOfChannel(_) => ReceiverKeepsLog(s, a);
    case ReleaseReceiver(_) => ReceiverKeepsLog(s, a);
  }

  // ---------------------------------------------------------------- over whole runs

  lemma {:induction false} RunKeeps(s: State, acts: seq<Action>)
    requires Inv(s) && Legal(s, acts)
    ensures Inv(Run(s, acts)) && s.log <= Run(s, acts).log
    decreases |acts|
  {
    if acts != [] {
      StepKeeps(s, acts[0]);
      RunKeeps(Apply(s, acts[0]), acts[1..]);
    }
  }

  lemma ReachedIsOk(acts: seq<Action>)
    requires Legal(FRESH, acts)
    ensures Inv(Run(FRESH, acts))
  {
    RunKeeps(FRESH, acts);
  }

  function Sends(acts: seq<Action>): nat {
    if acts == [] then 0 else (if acts[0].Send? then 1 else 0) + Sends(acts[1..])
  }

  function Fetches(acts: seq<Action>): nat {
    if acts == [] then 0 else (if acts[0].Fetch? then 1 else 0) + Fetches(acts[1..])
  }

  function Writes(acts: seq<Action>): nat {
    if acts == [] then 0 else (if acts[0].Write? then 1 else 0) + Writes(acts[1..])
  }

  /** What the counters of a state count. */
  lemma {:induction false} CountersCount(s: State, acts: seq<Action>)
    requires Legal(s, acts)
    ensures var t := Run(s, acts);
      && t.sent == s.sent + Sends(acts)
      && t.received == s.received + Fetches(acts)
      && |t.log| == |s.log| + Writes(acts)
      && (t.closed <==> s.closed || HangUp in acts)
    decreases |acts|
  {
    if acts != [] {
      CountersCount(Apply(s, acts[0]), acts[1..]);
      assert acts == [acts[0]] + acts[1..];
    }
  }

  /** Messages are numbered by the sends, taken by the fetches, and offered by the writes of a run. */
  lemma HistoryIsWhatHappened(acts: seq<Action>)
    requires Legal(FRESH, acts)
    ensures var s := Run(FRESH, acts);
      && s.sent == Sends(acts) && s.received == Fetches(acts)
      && |s.log| == Writes(acts) && (s.closed <==> HangUp in acts)
  {
    CountersCount(FRESH, acts);
  }

  /**
   * A connection with the right protocol becomes the active client, with a thread of its own
   * that waits for the receiver, exactly if there is no active client; nothing that exists
   * already is touched, and other connections change nothing.
   */
  lemma ConnectionIsAccepted(acts: seq<Action>, protocolOk: bool)
    requires Legal(FRESH, acts)
    ensures var s := Run(FRESH, acts);
      var s' := Apply(s, Connect(protocolOk));
      var c := |s.threads|;
      if protocolOk && s.active.None? then
        && s'.active == Some(c) && s'.threads == s.threads + [Waiting]
        && s' == s.(active := s'.active, threads := s'.threads)
        && (s.holder.None? ==> Enabled(s', TakeReceiver(c)))
      else s' == s
  {
  }

  /**
   * An offer carries the progress of the moment its thread read it, whatever is raised, sent
   * or connected before it is written.
   */
  lemma OfferCarriesWhatWasRead(before: seq<Action>, c: ClientId, between: seq<Action>, ok: bool)
    requires Legal(FRESH, before) && Enabled(Run(FRESH, before), ReadProgress(c))
    requires Legal(Apply(Run(FRESH, before), ReadProgress(c)), between)
    requires forall a :: a in between ==> !a.Write?
    ensures var s := Run(FRESH, before);
      var t := Run(Apply(s, ReadProgress(c)), between);
      && Enabled(t, Write(c, ok))
      && Apply(t, Write(c, ok)).log == s.log + [Offer(c, Some(c), |s.log|, s.progress, ok)]
  {
    var s := Run(FRESH, before);
    ReachedIsOk(before);
    StepKeeps(s, ReadProgress(c));
    var s' := Apply(s, ReadProgress(c));
    ReadIsKept(s', c, between);
    RunKeeps(s', between);
    WriteGoesToOwnClient(Run(s', between), c, ok);
  }

  lemma {:induction false} ReadIsKept(s: State, c: ClientId, acts: seq<Action>)
    requires Legal(s, acts) && c < |s.threads| && s.threads[c].Sending?
    requires forall a :: a in acts ==> !a.Write?
    ensures var t := Run(s, acts); c < |t.threads| && t.threads[c] == s.threads[c] && t.log == s.log
    decreases |acts|
  {
    if acts != [] {
      assert !acts[0].Write?;
      ReadIsKept(Apply(s, acts[0]), c, acts[1..]);
    }
  }

  /** At most one thread is waiting for or holds the receiver on behalf of a client: the active one's. */
  lemma OneClientIsServed(acts: seq<Action>, c: ClientId, d: ClientId)
    requires Legal(FRESH, acts)
    requires c < |Run(FRESH, acts).threads| && d < |Run(FRESH, acts).threads|
    requires var s := Run(FRESH, acts);
             (s.threads[c].Waiting? || Serving(s.threads[c])) && (s.threads[d].Waiting? || Serving(s.threads[d]))
    ensures c == d && Run(FRESH, acts).active == Some(c)
  {
    ReachedIsOk(acts);
  }

  /**
   * Every message taken from the channel, but the one still in a thread's hands, was
   * offered exactly once, in the order of sending, by the thread of a client to that
   * client; clients follow one another and progress never goes back.
   */
  lemma MessagesAreOfferedOnceInOrder(acts: seq<Action>)
    requires Legal(FRESH, acts)
    ensures var s := Run(FRESH, acts);
      && |s.log| <= s.received <= |s.log| + 1
      && (forall i :: 0 <= i < |s.log| ==> s.log[i].msg == i && s.log[i].to == Some(s.log[i].writer))
      && (forall i, j :: 0 <= i < j < |s.log| ==>
            s.log[i].writer <= s.log[j].writer && s.log[i].progress <= s.log[j].progress)
  {
    ReachedIsOk(acts);
  }

  function Delivered(log: seq<Offer>): nat {
    if log == [] then 0 else Delivered(Init(log)) + if Last(log).ok then 1 else 0
  }

  /** The sends that gave an error. */
  function Failed(log: seq<Offer>): nat {
    if log == [] then 0 else Failed(Init(log)) + if Last(log).ok then 0 else 1
  }

  /** Each client's connection fails at most once, and that is its last offer. */
  ghost predicate FailsOncePerClient(log: seq<Offer>) {
    forall i, j :: 0 <= i < j < |log| && !log[i].ok ==> log[j].writer > log[i].writer
  }

  /** Offers that fail are at most one per client whose connection failed. */
  lemma {:induction false} FailedAtMostOnePerClient(log: seq<Offer>, clients: nat)
    requires FailsOncePerClient(log)
    requires forall i :: 0 <= i < |log| && !log[i].ok ==> log[i].writer < clients
    ensures Failed(log) <= clients && Delivered(log) + Failed(log) == |log|
  {
    if log != [] {
      FailedAtMostOnePerClient(Init(log), if Last(log).ok then clients else Last(log).writer);
    }
  }

  /**
   * A message taken from the channel was delivered, is in hand, or is the one of a failed
   * send; and a client that is still active has not failed, the others have at most once.
   */
  lemma LossIsBounded(acts: seq<Action>)
    requires Legal(FRESH, acts)
    ensures var s := Run(FRESH, acts);
      && s.received == Delivered(s.log) + Failed(s.log) + InFlight(s)
      && FailsOncePerClient(s.log)
      && Failed(s.log) <= if s.active.Some? then s.active.value else |s.threads|
  {
    var s := Run(FRESH, acts);
    ReachedIsOk(acts);
    FailedAtMostOnePerClient(s.log, if s.active.Some? then s.active.value else |s.threads|);
  }

  /** When the setup has hung up and all is taken, the thread leaves and lets the receiver go. */
  lemma ThreadLeavesClosedChannel(acts: seq<Action>, c: ClientId)
    requires Legal(FRESH, acts) && At(Run(FRESH, acts), c, Fetching)
    requires Run(FRESH, acts).closed && Run(FRESH, acts).received == Run(FRESH, acts).sent
    ensures var s := Run(FRESH, acts);
      && Enabled(s, EndOfChannel(c))
      && var s1 := Apply(s, EndOfChannel(c));
         && Enabled(s1, ReleaseReceiver(c))
         && var s2 := Apply(s1, ReleaseReceiver(c));
            s2.holder.None? && At(s2, c, Gone) && s2.log == s.log && s2.active == s.active
  {
  }

  // ---------------------------------------------------------------- no message is forgotten

  /** There is a client, and a message that was sent but not yet offered to anyone. */
  predicate Owing(s: State) {
    s.active.Some? && s.active.value < |s.threads| && |s.log| < s.sent
  }

  /** How many more steps of the forwarding threads there are until the next offer. */
  function Rank(s: State): nat
    requires Owing(s)
  {
    match s.threads[s.active.value]
    case Waiting => if s.holder.Some? then 5 else 4
    case Fetching => 3
    case Reading(_) => 2
    case Sending(_, _) => 1
    case _ => 0
  }

  predicate Forwarding(a: Action) {
    !a.Send? && !a.Raise? && !a.HangUp? && !a.Connect?
  }

  /** The step of a forwarding thread that is due: the holder of the receiver, else a new one. */
  function Due(s: State): Action
    requires Owing(s)
  {
    var c := s.active.value;
    match s.threads[c]
    case Waiting => if s.holder.Some? then ReleaseReceiver(s.holder.value) else TakeReceiver(c)
    case Fetching => Fetch(c)
    case Reading(_) => ReadProgress(c)
    case _ => Write(c, true)
  }

  lemma DueIsEnabled(s: State)
    requires Inv(s) && Owing(s)
    ensures Enabled(s, Due(s)) && Forwarding(Due(s))
  {
    ActiveIsServing(s);
  }

  /** The thread of a client that is owed a message has not left its loop. */
  lemma ActiveIsServing(s: State)
    requires Inv(s) && Owing(s)
    ensures s.threads[s.active.value].Waiting? || Serving(s.threads[s.active.value])
    ensures s.threads[s.active.value].Fetching? ==> s.received < s.sent
    ensures s.threads[s.active.value].Waiting? && s.holder.Some? ==> s.threads[s.holder.value].Leaving?
  {
  }

  lemma StepLeadsOn(s: State, a: Action)
    requires Inv(s) && Owing(s) && Enabled(s, a)
    ensures var s' := Apply(s, a);
      || |s'.log| == |s.log| + 1
      || (&& s'.log == s.log && s'.active == s.active && Owing(s')
          && if Forwarding(a) then Rank(s') < Rank(s) else Rank(s') == Rank(s))
  {
    ActiveIsServing(s);
    hide LogOk;
  }

  /**
   * While a client is active and a message is waiting, a forwarding thread can always step,
   * and every step of one brings the next offer nearer, at most five of them; nothing that
   * the setup or new connections do sets it back.
   */
  lemma WaitingMessageIsOffered(acts: seq<Action>, a: Action)
    requires Legal(FRESH, acts) && Owing(Run(FRESH, acts)) && Enabled(Run(FRESH, acts), a)
    ensures var s := Run(FRESH, acts);
      var s' := Apply(s, a);
      && Rank(s) <= 5 && Forwarding(Due(s)) && Enabled(s, Due(s))
      && (|| |s'.log| == |s.log| + 1
          || (&& s'.log == s.log && s'.active == s.active && Owing(s')
              && if Forwarding(a) then Rank(s') < Rank(s) else Rank(s') == Rank(s)))
  {
    ReachedIsOk(acts);
    DueIsEnabled(Run(FRESH, acts));
    StepLeadsOn(Run(FRESH, acts), a);
  }
}
