/** The configuration file on disk, and the functions that read and rewrite it. */
module ConfigFile {
  import opened Prelude
  import opened Text
  import opened Config

  /** What a start gets from the file: an accepted text, the defaults, or a failed `pb_expect`. */
  datatype Parsed = Accepted(text: string) | Defaults | Panicked

  /** Writing a file can work, be refused before anything is touched, or stop half way. */
  datatype Write = Written | Refused | CutOff(length: nat)

  /** How the file system behaves while defaults are saved, and during a whole start. */
  datatype Saving = Saving(renames: bool, write: Write)
  datatype Environment = Environment(readable: bool, rewrite: Write, scaffold: Saving, replace: Saving)

  /** The configuration file, if it exists, and its `.bak` neighbour. */
  datatype Disk = Disk(content: Option<string>, backup: Option<string>) {
    predicate Holds(text: string) {
      content == Some(text) || backup == Some(text)
    }
  }

  /** What a write leaves of a file that was `before`. */
  function After(w: Write, before: Option<string>, text: string): Option<string> {
    match w
    case Written => Some(text)
    case Refused => before
    case CutOff(n) => Some(if n < |text| then text[..n] else text)
  }

  /** A write that is cut off leaves the beginning of the text, as far as it got. */
  lemma CutOffLeavesPrefix(n: nat, before: Option<string>, text: string)
    ensures var left := After(CutOff(n), before, text);
      left.Some? && left.value <= text && |left.value| == if n < |text| then n else |text|
  {
  }

  /** The disk after the defaults were saved; nothing is scaffolded under a missing or empty root. */
  function Saved(d: Disk, rootPopulated: bool, e: Saving, defaults: string): Disk {
    if !rootPopulated then d
    else if d.content.Some? && e.renames then Disk(After(e.write, None, defaults), d.content)
    else Disk(After(e.write, d.content, defaults), d.backup)
  }

  /**
   * The old text should be kept aside when defaults replace it. It is still there exactly
   * if there is no root, the renaming worked, or nothing was written; a failed renaming is
   * only logged, and the text then survives by chance, when the backup or the part that was
   * written is the same text.
   */
  lemma OldTextSurvivesExactly(d: Disk, text: string, rootPopulated: bool, e: Saving, defaults: string)
    requires d.content == Some(text)
    ensures Saved(d, rootPopulated, e, defaults).Holds(text) <==>
      || !rootPopulated || e.renames || e.write.Refused?
      || d.backup == Some(text) || After(e.write, None, defaults) == Some(text)
  {
  }

  /** A renaming that fails, before a write that works, loses the text. */
  lemma FailedRenameLosesText(text: string, defaults: string)
    requires text != defaults
    ensures !Saved(Disk(Some(text), None), true, Saving(false, Written), defaults).Holds(text)
  {
  }

  function Join(lines: seq<string>): string {
    if lines == [] then ""
    else if |lines| == 1 then lines[0]
    else lines[0] + "\n" + Join(lines[1..])
  }

  /** Joined lines are the written ones without the newline at the end. */
  lemma {:induction false} JoinedIsWritten(lines: seq<string>)
    requires lines != []
    ensures Join(lines) + "\n" == Unlines(lines)
  {
    if |lines| > 1 {
      JoinedIsWritten(lines[1..]);
      assert lines[0] + "\n" + (Join(lines[1..]) + "\n") == (lines[0] + "\n" + Join(lines[1..])) + "\n";
    } else {
      assert Unlines(lines) == lines[0] + "\n" + "";
    }
  }

  /** A last line that is empty cannot be told from the end of the text. */
  function WithoutEmptyEnd(lines: seq<string>): seq<string> {
    if lines != [] && Last(lines) == "" then Init(lines) else lines
  }

  lemma {:induction false} LinesOfJoin(lines: seq<string>)
    requires forall i :: 0 <= i < |lines| ==> IsLine(lines[i])
    ensures Lines(Join(lines)) == WithoutEmptyEnd(lines)
  {
    hide IsLine, Lines, OneLine, StripCr;
    if lines == [] {
      EmptyText();
    } else if |lines| == 1 {
      EmptyText();
      LineIsLine(lines[0]);
      if lines[0] != "" {
        LinesOfLine(lines[0]);
      }
    } else {
      LineIsLine(lines[0]);
      SplitFirst(lines[0], Join(lines[1..]));
      LinesOfJoin(lines[1..]);
      assert lines == [lines[0]] + lines[1..];
      assert Last(lines) == Last(lines[1..]) && Init(lines) == [lines[0]] + Init(lines[1..]);
    }
  }

  lemma EmptyText()
    ensures Lines("") == []
  {
  }

  lemma LineIsLine(s: string)
    requires IsLine(s)
    ensures OneLine(s) && StripCr(s) == s
  {
  }

  /** The text that is parsed as TOML splits into the effective lines, each on its own. */
  lemma JoinedIsEffective(text: string, effective: seq<string>)
    requires IsEffective(ParseAll(Lines(text)), effective)
    ensures Lines(Join(effective)) == WithoutEmptyEnd(effective)
  {
    EffectiveAreLines(text, effective);
    LinesOfJoin(effective);
  }

  /** The text after one pass over `text`. */
  function Rewritten(text: string): string {
    Unlines(WriteBackAll(Lines(text)))
  }

  class ConfigFile {
    var content: Option<string>
    var backup: Option<string>
    /** Whether the root file system has any entry. */
    const rootPopulated: bool
    const defaultText: string

    constructor (content: Option<string>, rootPopulated: bool, defaultText: string)
      ensures this.content == content && backup == None
      ensures this.rootPopulated == rootPopulated && this.defaultText == defaultText
    {
      this.content, backup := content, None;
      this.rootPopulated, this.defaultText := rootPopulated, defaultText;
    }

    function OnDisk(): Disk
      reads this
    {
      Disk(content, backup)
    }

    /** `save_config`; not `ok` is a failed `pb_expect`. */
    method SaveDefault(e: Saving) returns (ok: bool)
      modifies this
      ensures OnDisk() == Saved(old(OnDisk()), rootPopulated, e, defaultText)
      ensures ok <==> !rootPopulated || e.write.Written?
      ensures ok && rootPopulated ==> content == Some(defaultText)
      ensures old(content).Some? && (e.renames || !rootPopulated) ==> OnDisk().Holds(old(content).value)
    {
      if !rootPopulated {
        return true;
      }
      if content.Some? {
        if e.renames {
          content, backup := None, content;
        }
      }
      content := After(e.write, content, defaultText);
      return e.write.Written?;
    }

    /** `process_config_file`; a rewriting that fails is ignored. `None` is a failed `pb_expect`. */
    method Process(e: Environment) returns (effective: Option<seq<string>>)
      modifies this
      ensures old(content).Some? && e.readable ==>
        && effective.Some? && IsEffective(ParseAll(Lines(old(content).value)), effective.value)
        && OnDisk() == Disk(After(e.rewrite, old(content), Rewritten(old(content).value)), old(backup))
      ensures old(content).None? || !e.readable ==>
        && OnDisk() == Saved(old(OnDisk()), rootPopulated, e.scaffold, defaultText)
        && effective == if rootPopulated && !e.scaffold.write.Written? then None else Some([])
    {
      if content.Some? && e.readable {
        hide *;
        var text := content.value;
        var writeBack, lines := ProcessLines(Lines(text));
        SameLines(Lines(text), writeBack);
        RewrittenIs(text);
        content := After(e.rewrite, content, Unlines(writeBack));
        return Some(lines);
      }
      var ok := SaveDefault(e.scaffold);
      return if ok then Some([]) else None;
    }

    /**
     * `parse_config`: what cannot be read, and what is read but malformed, is set aside
     * where that is possible and replaced by the defaults.
     */
    method Parse(e: Environment, accepts: string -> bool) returns (r: Parsed)
      modifies this
      ensures old(content).Some? && e.readable ==>
        exists effective :: IsEffective(ParseAll(Lines(old(content).value)), effective) &&
          Outcome(Disk(After(e.rewrite, old(content), Rewritten(old(content).value)), old(backup)),
                  Join(effective), accepts(Join(effective)), e.replace, OnDisk(), r)
      ensures old(content).None? || !e.readable ==>
        var d := Saved(old(OnDisk()), rootPopulated, e.scaffold, defaultText);
        if rootPopulated && !e.scaffold.write.Written? then r == Panicked && OnDisk() == d
        else Outcome(d, "", accepts(""), e.replace, OnDisk(), r)
    {
      hide IsEffective, ParseAll, Lines, Rewritten;
      var effective := Process(e);
      if effective.None? {
        return Panicked;
      }
      var text := Join(effective.value);
      if accepts(text) {
        return Accepted(text);
      }
      var ok := SaveDefault(e.replace);
      return if ok then Defaults else Panicked;
    }

    /** How a start ends whose effective text is `text`, and what it leaves of the disk `d`. */
    ghost predicate Outcome(d: Disk, text: string, accepted: bool, e: Saving, d': Disk, r: Parsed)
      reads this
    {
      if accepted then r == Accepted(text) && d' == d
      else
        && d' == Saved(d, rootPopulated, e, defaultText)
        && r == if rootPopulated && !e.write.Written? then Panicked else Defaults
    }
  }

  /**
   * What the user wrote is still on disk after a start exactly if it was accepted, there is
   * no root, or it survives the saving of the defaults. Unless rewriting it was cut off, it
   * is there with its overrides commented out, or as it was.
   */
  lemma UserTextIsKeptExactly(c: ConfigFile, before: Disk, text: string, e: Environment,
                              effective: string, accepted: bool, after: Disk, r: Parsed)
    requires before.content == Some(text)
    requires c.Outcome(Disk(After(e.rewrite, before.content, Rewritten(text)), before.backup),
                       effective, accepted, e.replace, after, r)
    ensures var kept := After(e.rewrite, Some(text), Rewritten(text)).value;
            && (!e.rewrite.CutOff? ==> kept == Rewritten(text) || kept == text)
            && (after.Holds(kept) <==>
                 || accepted || !c.rootPopulated || e.replace.renames || e.replace.write.Refused?
                 || before.backup == Some(kept) || After(e.replace.write, None, c.defaultText) == Some(kept))
  {
    hide Rewritten;
    var d := Disk(After(e.rewrite, before.content, Rewritten(text)), before.backup);
    OldTextSurvivesExactly(d, d.content.value, c.rootPopulated, e.replace, c.defaultText);
  }

  lemma SameLines(raws: seq<string>, written: seq<string>)
    requires |written| == |raws| && forall i :: 0 <= i < |raws| ==> written[i] == WriteBack(raws[i])
    ensures written == WriteBackAll(raws)
  {
    hide WriteBack;
  }

  lemma RewrittenIs(text: string)
    ensures Rewritten(text) == Unlines(WriteBackAll(Lines(text)))
  {
  }

  /** On disk the rewriting is a fixpoint: the next start writes the same text back. */
  lemma SecondStartWritesTheSame(text: string)
    ensures Rewritten(Rewritten(text)) == Rewritten(text)
  {
    hide Unlines, Lines, WriteBackAll;
    RewriteIsFixpoint(text);
  }
}
