/**
 * Installing the root file system: download, extract, rename, in an app that can be
 * killed between any two steps and started again.
 */
module ArchFs {
  import opened Prelude

  type Entry = nat

  datatype Dir = Missing | Dir(entries: set<Entry>)

  /** The archive on disk: cut off, complete but not unpackable, or sound. */
  datatype Archive = NoFile | Truncated | Damaged | Sound

  datatype Pc =
    | Off
    /** Reading the configuration, which may want to save defaults under the root. */
    | Boot
    | SavingConfig
    /** `setup_arch_fs`: decide whether there is anything to do. */
    | CheckRoot
    | CheckTemp
    | Downloading
    | Cleaning
    | Unpacking
    | CleaningUp
    | RemovingBad
    | Renaming
    | RemovingTemp
    /** The later stages and what they run, which write and remove below the root. */
    | LaterStages

  /**
   * `full` is the tree in the archive. As history, whether a rename ever made the root, and
   * what was removed below it since the last one.
   */
  datatype State = State(full: set<Entry>, root: Dir, extracted: Dir, temp: Archive, pc: Pc,
                         renamed: bool, removed: set<Entry>)

  datatype Action =
    | Start
    | BootDone(save: bool)
    /** The old configuration file is renamed. */
    | BackUp(e: Entry, to: Entry)
    | SaveEntry(e: Entry)
    | SaveDone
    | DecideRoot
    | DecideTemp
    | DownloadEnds(sound: bool)
    /** `remove_dir_all` on the extraction directory: entry by entry, errors ignored. */
    | RemoveEntry(e: Entry)
    | CleanDone(ok: bool)
    | UnpackEntry(e: Entry)
    | UnpackOk
    | UnpackFails
    | RemoveBad(ok: bool)
    | Rename
    | RemoveTemp
    | WriteEntry(e: Entry)
    | DeleteEntry(e: Entry)
    /** The app is killed, or a `pb_expect` panics the setup thread. */
    | Crash

  /** `read_dir` yields something; a missing or empty directory yields nothing. */
  predicate Populated(d: Dir) {
    d.Dir? && d.entries != {}
  }

  function Add(d: Dir, e: Entry): Dir {
    if d.Dir? then Dir(d.entries + {e}) else Dir({e})
  }

  predicate Enabled(s: State, a: Action) {
    match a
    case Start => s.pc.Off?
    case BootDone(_) => s.pc.Boot?
    case BackUp(e, _) => s.pc.SavingConfig? && s.root.Dir? && e in s.root.entries
    case SaveEntry(_) => s.pc.SavingConfig?
    case SaveDone => s.pc.SavingConfig?
    case DecideRoot => s.pc.CheckRoot?
    case DecideTemp => s.pc.CheckTemp?
    case DownloadEnds(_) => s.pc.Downloading?
    case RemoveEntry(e) => (s.pc.Cleaning? || s.pc.CleaningUp?) && s.extracted.Dir? && e in s.extracted.entries
    case CleanDone(_) => s.pc.Cleaning? || s.pc.CleaningUp?
    case UnpackEntry(e) => s.pc.Unpacking? && (s.temp.Sound? ==> e in s.full)
    case UnpackOk => s.pc.Unpacking? && s.temp.Sound? && s.extracted.Dir? && s.full <= s.extracted.entries
    case UnpackFails => s.pc.Unpacking?
    case RemoveBad(_) => s.pc.RemovingBad?
    case Rename => s.pc.Renaming? && s.extracted.Dir? && !Populated(s.root)
    case RemoveTemp => s.pc.RemovingTemp?
    case WriteEntry(_) => s.pc.LaterStages?
    case DeleteEntry(e) => s.pc.LaterStages? && s.root.Dir? && e in s.root.entries
    case Crash => !s.pc.Off?
  }

  function Apply(s: State, a: Action): State
    requires Enabled(s, a)
  {
    match a
    case Start => s.(pc := Boot)
    // `save_config` returns early when the root is missing or empty
    case BootDone(save) => s.(pc := if save && Populated(s.root) then SavingConfig else CheckRoot)
    case BackUp(e, to) => s.(root := Dir(s.root.entries - {e} + {to}), removed := s.removed + {e})
    case SaveEntry(e) => s.(root := Add(s.root, e))
    case SaveDone => s.(pc := CheckRoot)
    case DecideRoot => s.(pc := if Populated(s.root) then LaterStages else CheckTemp)
    case DecideTemp =>
      if s.temp.NoFile? then s.(temp := Truncated, pc := Downloading) else s.(pc := Cleaning)
    case DownloadEnds(sound) => s.(temp := if sound then Sound else Damaged, pc := Cleaning)
    case RemoveEntry(e) => s.(extracted := Dir(s.extracted.entries - {e}))
    case CleanDone(ok) =>
      s.(extracted := if ok then Missing else s.extracted,
         pc := if s.pc.Cleaning? then Unpacking else RemovingBad)
    case UnpackEntry(e) => s.(extracted := Add(s.extracted, e))
    case UnpackOk => s.(pc := Renaming)
    case UnpackFails => s.(pc := CleaningUp)
    case RemoveBad(ok) => s.(temp := if ok then NoFile else s.temp, pc := CheckTemp)
    case Rename => s.(root := s.extracted, extracted := Missing, pc := RemovingTemp, renamed := true, removed := {})
    case RemoveTemp => s.(temp := NoFile, pc := LaterStages)
    case WriteEntry(e) => s.(root := Add(s.root, e))
    case DeleteEntry(e) => s.(root := Dir(s.root.entries - {e}), removed := s.removed + {e})
    case Crash => s.(pc := Off)
  }

  predicate Legal(s: State, acts: seq<Action>)
    decreases |acts|
  {
    acts == [] || (Enabled(s, acts[0]) && Legal(Apply(s, acts[0]), acts[1..]))
  }

  function Run(s: State, acts: seq<Action>): State
    requires Legal(s, acts)
    decreases |acts|
  {
    if acts == [] then s else Run(Apply(s, acts[0]), acts[1..])
  }

  function Entries(d: Dir): set<Entry> {
    if d.Dir? then d.entries else {}
  }

  ghost predicate Complete(s: State) {
    s.full <= Entries(s.root)
  }

  /** What an action, or a run, removes below the root. */
  function Removes(a: Action): set<Entry> {
    match a
    case BackUp(e, _) => {e}
    case DeleteEntry(e) => {e}
    case _ => {}
  }

  function Adds(a: Action): set<Entry> {
    match a
    case BackUp(_, to) => {to}
    case SaveEntry(e) => {e}
    case WriteEntry(e) => {e}
    case _ => {}
  }

  function RemovedBy(acts: seq<Action>): set<Entry> {
    if acts == [] then {} else Removes(acts[0]) + RemovedBy(acts[1..])
  }

  /** A fresh phone: no root, whatever else an earlier life left behind. */
  ghost predicate Installed(s: State) {
    s.full != {} && !Populated(s.root) && s.pc.Off? && !s.renamed && s.removed == {}
  }

  ghost predicate Inv(s: State) {
    && s.full != {}
    && (Populated(s.root) ==> s.renamed)
    && (s.renamed ==> s.full <= Entries(s.root) + s.removed)
    && (s.pc.SavingConfig? || s.pc.RemovingTemp? ==> Populated(s.root))
    && (s.pc.LaterStages? ==> s.renamed)
    && (s.pc in {CheckTemp, Downloading, Cleaning, Unpacking, CleaningUp, RemovingBad, Renaming} ==> !Populated(s.root))
    && (s.pc.Downloading? ==> s.temp.Truncated?)
    && (s.pc.Renaming? ==> s.extracted.Dir? && s.full <= s.extracted.entries)
  }

  /**
   * Every step keeps the invariant and what is below the root, except what a later stage or
   * the saving of the configuration removes itself. An empty root is populated by the rename
   * of a complete tree, or by a later stage that emptied it before.
   */
  lemma StepKeeps(s: State, a: Action)
    requires Inv(s) && Enabled(s, a)
    ensures Inv(Apply(s, a)) && Apply(s, a).full == s.full
    ensures Entries(s.root) <= Entries(Apply(s, a).root) + Removes(a)
    ensures Entries(Apply(s, a).root) ==
      if a.Rename? then Entries(s.extracted) else Entries(s.root) - Removes(a) + Adds(a)
    ensures Apply(s, a).removed <= s.removed + Removes(a)
    ensures Apply(s, a).renamed == (s.renamed || a.Rename?)
    ensures !Populated(s.root) && Populated(Apply(s, a).root) ==>
      || (a.Rename? && Apply(s, a).root == s.extracted && Complete(Apply(s, a)))
      || (a.WriteEntry? && s.renamed && s.full <= s.removed)
  {
    if a.BackUp? {
      assert a.to in Entries(Apply(s, a).root);
    }
  }

  lemma {:induction false} RunKeeps(s: State, acts: seq<Action>)
    requires Inv(s) && Legal(s, acts)
    ensures var t := Run(s, acts);
      && Inv(t) && t.full == s.full
      && Entries(s.root) <= Entries(t.root) + RemovedBy(acts)
      && t.removed <= s.removed + RemovedBy(acts)
      && (t.renamed <==> s.renamed || Rename in acts)
    decreases |acts|
  {
    if acts != [] {
      StepKeeps(s, acts[0]);
      RunKeeps(Apply(s, acts[0]), acts[1..]);
    }
  }

  /**
   * Crash safety: over any number of starts, each cut off anywhere, a root that is not empty
   * holds the whole tree, except for what later stages removed themselves since it was last
   * extracted; and what it holds stays there, except for that.
   */
  lemma NonEmptyIsComplete(s: State, before: seq<Action>, after: seq<Action>)
    requires Installed(s) && Legal(s, before) && Legal(Run(s, before), after)
    ensures var t := Run(s, before);
      && (Populated(t.root) ==> t.full <= t.root.entries + t.removed)
      && t.removed <= RemovedBy(SinceRename(before)) <= RemovedBy(before)
      && (Populated(t.root) && RemovedBy(SinceRename(before)) !! t.full ==> Complete(t))
      && Entries(t.root) <= Entries(Run(t, after).root) + RemovedBy(after)
  {
    RunKeeps(s, before);
    RunKeeps(Run(s, before), after);
    RemovedSinceRename(s, before);
  }

  /** The part of a run after its last rename, or all of it. */
  function SinceRename(acts: seq<Action>): seq<Action> {
    if Rename !in acts then acts else SinceRename(acts[1..])
  }

  lemma {:induction false} RemovedSinceRename(s: State, acts: seq<Action>)
    requires Inv(s) && Legal(s, acts)
    ensures Run(s, acts).removed <= (if Rename in acts then {} else s.removed) + RemovedBy(SinceRename(acts))
    ensures RemovedBy(SinceRename(acts)) <= RemovedBy(acts)
    decreases |acts|
  {
    if acts != [] {
      StepKeeps(s, acts[0]);
      RemovedSinceRename(Apply(s, acts[0]), acts[1..]);
    }
  }

  /**
   * An empty root is populated by the rename of a completely extracted tree, and by nothing
   * else unless later stages had removed the whole tree before.
   */
  lemma OnlyRenamePopulates(s: State, acts: seq<Action>, a: Action)
    requires Installed(s) && Legal(s, acts) && Enabled(Run(s, acts), a)
    requires !Populated(Run(s, acts).root) && Populated(Apply(Run(s, acts), a).root)
    ensures a.Rename? ==> Run(s, acts).full <= Entries(Run(s, acts).extracted)
    ensures a.Rename? ==> Apply(Run(s, acts), a).root == Run(s, acts).extracted
    ensures !a.Rename? ==> a.WriteEntry? && Rename in acts && s.full <= RemovedBy(acts)
  {
    RunKeeps(s, acts);
    StepKeeps(Run(s, acts), a);
  }

  /** A root that is not empty is not extracted again, unless all it held was removed by later stages. */
  lemma NotExtractedAgain(s: State, before: seq<Action>, after: seq<Action>)
    requires Installed(s) && Legal(s, before) && Legal(Run(s, before), after)
    requires Enabled(Run(Run(s, before), after), Rename)
    ensures Entries(Run(s, before).root) <= RemovedBy(after)
  {
    RunKeeps(s, before);
    RunKeeps(Run(s, before), after);
  }

  /** Whenever the setup thread comes to its rename, the rename can succeed. */
  lemma RenameIsNeverBlocked(s: State, acts: seq<Action>)
    requires Installed(s) && Legal(s, acts) && Run(s, acts).pc.Renaming?
    ensures Enabled(Run(s, acts), Rename)
  {
    RunKeeps(s, acts);
  }

  /** A crash can come anywhere; it leaves the disk as it is, and the next start begins from there. */
  lemma CrashAnywhere(s: State, acts: seq<Action>)
    requires Installed(s) && Legal(s, acts)
    ensures var t := Run(s, acts);
      && (!t.pc.Off? ==> Enabled(t, Crash) && Apply(t, Crash) == t.(pc := Off))
      && (t.pc.Off? ==> Enabled(t, Start) && Apply(t, Start) == t.(pc := Boot))
  {
  }

  // ---------------------------------------------------------------- an uninterrupted start

  ghost predicate CalmReaches(s: State, s': State) {
    exists acts :: Legal(s, acts) && Run(s, acts) == s' && Crash !in acts
  }

  lemma CalmThen(s: State, s': State, a: Action)
    requires CalmReaches(s, s') && Enabled(s', a) && a != Crash
    ensures CalmReaches(s, Apply(s', a))
  {
    var acts :| Legal(s, acts) && Run(s, acts) == s' && Crash !in acts;
    assert Legal(Apply(s', a), [a][1..]) && Run(s', [a]) == Apply(s', a);
    RunConcat(s, acts, [a]);
    assert Crash !in acts + [a];
  }

  /** A `remove_dir_all`: what it removed before it ended, and whether it removed everything. */
  datatype Removal = Removal(removes: seq<Entry>, ok: bool)

  /**
   * What the world does in one round of the loop: whether a download would be sound, the two
   * cleanings, what unpacking writes in which order, and whether a bad archive can be removed.
   */
  datatype Round = Round(sound: bool, before: Removal, unpacked: seq<Entry>, after: Removal, removed: bool)

  /** The archive that is unpacked in a round: the one that is there, or a new one. */
  function Tried(temp: Archive, r: Round): Archive {
    if !temp.NoFile? then temp else if r.sound then Sound else Damaged
  }

  /**
   * After some bad rounds, in which anything may be unpacked, cleaned or not, and the archive
   * removed or not, there is one with a sound archive, which then unpacks as a whole.
   */
  ghost predicate SoundInTheEnd(temp: Archive, full: set<Entry>, rounds: seq<Round>)
    decreases |rounds|
  {
    && rounds != []
    && var archive := Tried(temp, rounds[0]);
       if archive.Sound? then UnpacksWell(rounds[0], full)
       else SoundInTheEnd(if rounds[0].removed then NoFile else archive, full, rounds[1..])
  }

  ghost predicate UnpacksWell(r: Round, full: set<Entry>) {
    forall e :: e in r.unpacked <==> e in full
  }

  /** When bad archives can be removed, it is enough that some later download is sound. */
  lemma {:induction false} SoundDownloadSuffices(temp: Archive, full: set<Entry>, rounds: seq<Round>, k: nat)
    requires k < |rounds| && rounds[k].sound && (k > 0 || temp.NoFile? || temp.Sound?)
    requires forall i :: 0 <= i < |rounds| ==> rounds[i].removed
    requires forall i :: 0 <= i < |rounds| && (rounds[i].sound || (i == 0 && temp.Sound?)) ==>
      UnpacksWell(rounds[i], full)
    ensures SoundInTheEnd(temp, full, rounds)
    decreases k
  {
    if !Tried(temp, rounds[0]).Sound? {
      SoundDownloadSuffices(NoFile, full, rounds[1..], k - 1);
    } else {
      assert UnpacksWell(rounds[0], full);
    }
  }

  /** What the saving of the defaults does below the root, if it is done. */
  datatype Booting = Booting(save: bool, backUp: Option<(Entry, Entry)>, writes: seq<Entry>)

  function MovedAway(boot: Booting): set<Entry> {
    if boot.save && boot.backUp.Some? then {boot.backUp.value.0} else {}
  }

  class Installer {
    var s: State

    constructor (s: State)
      ensures this.s == s
    {
      this.s := s;
    }

    /** One step that is no crash, on the way from `start`. */
    method Do(a: Action, ghost start: State)
      requires Inv(s) && CalmReaches(start, s) && Enabled(s, a) && a != Crash
      modifies this
      ensures s == Apply(old(s), a) && Inv(s) && CalmReaches(start, s)
    {
      hide CalmReaches;
      StepKeeps(s, a);
      CalmThen(start, s, a);
      s := Apply(s, a);
    }

    /** `remove_dir_all` on the extraction directory. */
    method Clean(c: Removal, ghost start: State)
      requires Inv(s) && CalmReaches(start, s) && (s.pc.Cleaning? || s.pc.CleaningUp?)
      modifies this
      ensures Inv(s) && CalmReaches(start, s)
      ensures s == old(s).(extracted := s.extracted, pc := if old(s).pc.Cleaning? then Unpacking else RemovingBad)
      ensures c.ok ==> s.extracted.Missing?
      ensures !c.ok ==> Entries(s.extracted) == Entries(old(s).extracted) - set e | e in c.removes
    {
      hide CalmReaches, Inv;
      for i := 0 to |c.removes|
        invariant Inv(s) && CalmReaches(start, s) && s == old(s).(extracted := s.extracted)
        invariant Entries(s.extracted) == Entries(old(s).extracted) - set e | e in c.removes[..i]
      {
        if c.removes[i] in Entries(s.extracted) {
          Do(RemoveEntry(c.removes[i]), start);
        }
        assert c.removes[..i + 1] == c.removes[..i] + [c.removes[i]];
      }
      assert c.removes[..|c.removes|] == c.removes;
      Do(CleanDone(c.ok), start);
    }

    /** Unpacking, entry by entry, over whatever is there. */
    method Unpack(entries: seq<Entry>, ghost start: State)
      requires Inv(s) && CalmReaches(start, s) && s.pc.Unpacking?
      requires s.temp.Sound? ==> forall e :: e in entries ==> e in s.full
      modifies this
      ensures Inv(s) && CalmReaches(start, s) && s == old(s).(extracted := s.extracted)
      ensures Entries(s.extracted) == Entries(old(s).extracted) + set e | e in entries
      ensures entries != [] ==> s.extracted.Dir?
    {
      hide CalmReaches, Inv;
      for i := 0 to |entries|
        invariant Inv(s) && CalmReaches(start, s) && s == old(s).(extracted := s.extracted)
        invariant Entries(s.extracted) == Entries(old(s).extracted) + set e | e in entries[..i]
        invariant i > 0 ==> s.extracted.Dir?
      {
        Do(UnpackEntry(entries[i]), start);
        assert entries[..i + 1] == entries[..i] + [entries[i]];
      }
      assert entries[..|entries|] == entries;
    }

    /**
     * One round of the loop: download if there is no archive, clean, unpack; on failure clean
     * again and remove the archive.
     */
    method TryArchive(r: Round, ghost start: State)
      requires Inv(s) && CalmReaches(start, s) && s.pc.CheckTemp?
      requires Tried(s.temp, r).Sound? ==> UnpacksWell(r, s.full)
      modifies this
      ensures Inv(s) && CalmReaches(start, s)
      ensures var archive := Tried(old(s).temp, r);
        if archive.Sound? then
          && s == old(s).(extracted := s.extracted, temp := Sound, pc := Renaming)
          && (r.before.ok ==> s.extracted == Dir(s.full))
        else
          s == old(s).(extracted := s.extracted, temp := if r.removed then NoFile else archive)
    {
      hide CalmReaches, Inv;
      Do(DecideTemp, start);
      if s.pc.Downloading? {
        Do(DownloadEnds(r.sound), start);
      }
      Clean(r.before, start);
      var cleaned := s.extracted;
      Unpack(r.unpacked, start);
      if s.temp.Sound? {
        FullIsNotEmpty(s);
        assert (set e | e in r.unpacked) == s.full;
        assert Entries(s.extracted) == Entries(cleaned) + s.full;
        Do(UnpackOk, start);
      } else {
        Do(UnpackFails, start);
        Clean(r.after, start);
        Do(RemoveBad(r.removed), start);
      }
    }

    /**
     * `setup_arch_fs` and its thread, not interrupted, whatever happens in the rounds before
     * the first sound archive; one left by an earlier start is tried first.
     */
    method SetupArchFs(rounds: seq<Round>)
      requires Inv(s) && s.pc.CheckRoot?
      requires Populated(s.root) || SoundInTheEnd(s.temp, s.full, rounds)
      modifies this
      ensures Inv(s) && s.pc.LaterStages? && Populated(s.root) && s.full == old(s).full
      ensures CalmReaches(old(s), s)
      ensures Populated(old(s).root) ==> s == old(s).(pc := LaterStages)
      ensures !Populated(old(s).root) ==> Complete(s) && s.temp.NoFile? && s.extracted.Missing?
      ensures !Populated(old(s).root) && (forall r :: r in rounds ==> r.before.ok) ==> s.root == Dir(s.full)
    {
      hide CalmReaches, Inv;
      ghost var start := s;
      CalmSelf(s);
      Do(DecideRoot, start);
      if s.pc.LaterStages? {
        return;
      }
      var n := 0;
      while s.pc.CheckTemp?
        invariant Inv(s) && CalmReaches(start, s) && s.full == start.full
        invariant s.pc.CheckTemp? || s.pc.Renaming?
        invariant n <= |rounds|
        invariant s.pc.CheckTemp? ==> SoundInTheEnd(s.temp, s.full, rounds[n..])
        invariant s.pc.Renaming? && (forall r :: r in rounds ==> r.before.ok) ==> s.extracted == Dir(s.full)
        decreases s.pc.CheckTemp?, |rounds| - n
      {
        assert rounds[n..][1..] == rounds[n + 1..];
        TryArchive(rounds[n], start);
        n := n + 1;
      }
      ReadyToRename(s);
      Do(Rename, start);
      FullIsNotEmpty(s);
      Do(RemoveTemp, start);
    }

    /** What happens at a start before the setup: the defaults may have to be saved. */
    method BootUp(boot: Booting)
      requires Inv(s) && s.pc.Off?
      modifies this
      ensures Inv(s) && CalmReaches(old(s), s)
      ensures s == old(s).(pc := CheckRoot, root := s.root, removed := s.removed)
      ensures Populated(s.root) <==> Populated(old(s).root)
      ensures Entries(old(s).root) <= Entries(s.root) + MovedAway(boot)
      ensures s.removed <= old(s).removed + MovedAway(boot)
      ensures !boot.save || !Populated(s.root) ==> s.root == old(s).root
      ensures boot.save && Populated(s.root) ==> forall e :: e in boot.writes ==> e in Entries(s.root)
    {
      hide CalmReaches, Inv;
      ghost var start := s;
      CalmSelf(s);
      Do(Start, start);
      Do(BootDone(boot.save), start);
      if s.pc.SavingConfig? {
        if boot.backUp.Some? && boot.backUp.value.0 in Entries(s.root) {
          Do(BackUp(boot.backUp.value.0, boot.backUp.value.1), start);
          assert boot.backUp.value.1 in Entries(s.root);
        }
        for i := 0 to |boot.writes|
          invariant Inv(s) && CalmReaches(start, s) && s.pc.SavingConfig? && Populated(s.root)
          invariant s == start.(pc := SavingConfig, root := s.root, removed := s.removed)
          invariant Entries(start.root) <= Entries(s.root) + MovedAway(boot)
          invariant s.removed <= start.removed + MovedAway(boot)
          invariant forall e :: e in boot.writes[..i] ==> e in Entries(s.root)
        {
          assert boot.writes[..i + 1] == boot.writes[..i] + [boot.writes[i]];
          Do(SaveEntry(boot.writes[i]), start);
          assert boot.writes[i] in Entries(s.root);
        }
        assert boot.writes[..|boot.writes|] == boot.writes;
        Do(SaveDone, start);
      }
    }
  }

  /**
   * Whatever interrupted starts came before, the next start that is not interrupted ends with
   * a root that holds the whole tree, except for what later stages or the saving of the
   * configuration removed from one that was already there.
   */
  method StartAfterAnything(first: State, ghost history: seq<Action>, was: State, boot: Booting, rounds: seq<Round>)
    returns (end: State)
    requires Installed(first) && Legal(first, history) && was == Run(first, history) && was.pc.Off?
    requires Populated(was.root) || SoundInTheEnd(was.temp, was.full, rounds)
    ensures CalmReaches(was, end) && end.pc.LaterStages? && Populated(end.root) && end.full == first.full
    ensures !Populated(was.root) ==> Complete(end) && end.temp.NoFile? && end.extracted.Missing?
    ensures Populated(was.root) ==>
      && Entries(was.root) <= Entries(end.root) + MovedAway(boot)
      && end.full <= Entries(end.root) + RemovedBy(SinceRename(history)) + MovedAway(boot)
  {
    hide CalmReaches;
    RunKeeps(first, history);
    RemovedSinceRename(first, history);
    var app := new Installer(was);
    app.BootUp(boot);
    ghost var booted := app.s;
    app.SetupArchFs(rounds);
    CalmTransitive(was, booted, app.s);
    return app.s;
  }

  lemma ReadyToRename(s: State)
    requires Inv(s) && s.pc.Renaming?
    ensures s.extracted.Dir? && s.full <= s.extracted.entries && !Populated(s.root)
  {
  }

  lemma {:induction false} RunConcat(s: State, a: seq<Action>, b: seq<Action>)
    requires Legal(s, a) && Legal(Run(s, a), b)
    ensures Legal(s, a + b) && Run(s, a + b) == Run(Run(s, a), b)
    decreases |a|
  {
    if a == [] {
      assert a + b == b;
    } else {
      assert (a + b)[1..] == a[1..] + b;
      RunConcat(Apply(s, a[0]), a[1..], b);
    }
  }

  lemma CalmTransitive(s: State, m: State, s': State)
    requires CalmReaches(s, m) && CalmReaches(m, s')
    ensures CalmReaches(s, s')
  {
    var a :| Legal(s, a) && Run(s, a) == m && Crash !in a;
    var b :| Legal(m, b) && Run(m, b) == s' && Crash !in b;
    RunConcat(s, a, b);
  }

  lemma CalmSelf(s: State)
    ensures CalmReaches(s, s)
  {
    assert Legal(s, []) && Run(s, []) == s;
  }

  lemma FullIsNotEmpty(s: State)
    requires Inv(s)
    ensures exists e :: e in s.full
  {
    assert s.full != {};
  }
}
