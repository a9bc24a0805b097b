/**
 * The configuration pass: `try_` overrides are applied to the effective configuration
 * and commented out in the file.
 */
module Config {
  import opened Prelude
  import opened Text

  const TRY := "try_"

  predicate IsOverride(key: string) {
    StartsWith(key, TRY)
  }

  /** The key a `try_` line stands for; repeated prefixes are stripped. */
  function StripTry(key: string): (k: string)
    ensures !IsOverride(k)
    ensures |k| <= |key| && k == key[|key| - |k|..]
  {
    StripAll(key, TRY)
  }

  /** What one line of the file means. */
  datatype Line =
    | Other(text: string)
    | Plain(key: string, value: string)
    | Try(key: string, value: string)

  /** Key and value around the first `=`, if the trimmed line has one. */
  function SplitOnce(trimmed: string): Option<(string, string)> {
    var i := Find(trimmed, '=');
    if i == |trimmed| then None else Some((Trim(trimmed[..i]), Trim(trimmed[i + 1..])))
  }

  function Parse(raw: string): Line {
    var trimmed := Trim(raw);
    match SplitOnce(trimmed)
    case None => Other(trimmed)
    case Some((key, value)) =>
      if IsOverride(key) then Try(StripTry(key), value) else Plain(key, value)
  }

  function ParseAll(raws: seq<string>): (lines: seq<Line>)
    ensures |lines| == |raws|
    ensures forall i :: 0 <= i < |raws| ==> lines[i] == Parse(raws[i])
  {
    seq(|raws|, i requires 0 <= i < |raws| => Parse(raws[i]))
  }

  function Entry(key: string, value: string): string {
    key + "=" + value
  }

  predicate IsKey(k: string) {
    '=' !in k
  }

  /** A line's key has no `=`, and a line without key has none either. */
  ghost predicate WellFormed(line: Line) {
    if line.Other? then '=' !in line.text else IsKey(line.key)
  }

  lemma ParseIsWellFormed(raw: string)
    ensures WellFormed(Parse(raw))
  {
    var trimmed := Trim(raw);
    var i := Find(trimmed, '=');
    if i < |trimmed| {
      TrimFacts(trimmed[..i]);
      assert IsKey(Trim(trimmed[..i]));
    } else {
      assert trimmed[..i] == trimmed;
    }
  }

  /** Because keys have no `=`, searching for the prefix `k=` is searching for the key `k`. */
  lemma PrefixIsKey(k: string, k': string, v: string)
    requires IsKey(k) && IsKey(k')
    ensures StartsWith(Entry(k', v), k + "=") <==> k == k'
    ensures k == k' ==> Entry(k', v)[|k| + 1..] == v
  {
    var e := Entry(k', v);
    assert e[|k'|] == '=';
    assert e[..|k'|] == k';
    if StartsWith(e, k + "=") {
      assert e[|k|] == (k + "=")[|k|] == '=';
      assert e[..|k|] == (k + "=")[..|k|] == k;
    } else {
      assert e[..|k'| + 1] == k' + "=";
    }
  }

  lemma OtherIsNoEntry(text: string, k: string)
    requires '=' !in text
    ensures !StartsWith(text, k + "=")
  {
    assert (k + "=")[|k|] == '=';
    assert forall i :: 0 <= i < |text| ==> text[i] in text;
  }

  /** Splitting at the first `=` of a text. */
  lemma SplitOnceAt(pre: string, post: string)
    requires IsKey(pre)
    ensures SplitOnce(pre + "=" + post) == Some((Trim(pre), Trim(post)))
  {
    var t := pre + "=" + post;
    assert t == pre + ['='] + post;
    FindAt(pre, '=', post);
    assert t[..|pre|] == pre && t[|pre| + 1..] == post;
  }

  /**
   * What a line says, in terms of its text: the key stands before the first `=`, the value
   * is all that follows it, both without the white space around them. A key that begins with
   * `try_` overrides the key that remains when all copies of `try_` are taken off, and the
   * line is then written back as a comment.
   */
  lemma ParseIsText(raw: string, pre: string, post: string) returns (copies: nat)
    requires Trim(raw) == pre + "=" + post && '=' !in pre
    ensures !Parse(raw).Other? && Parse(raw).value == Trim(post)
    ensures Trim(pre) == Repeat("try_", copies) + Parse(raw).key && !StartsWith(Parse(raw).key, "try_")
    ensures Parse(raw).Try? <==> copies > 0
    ensures WriteBack(raw) == (if copies > 0 then "# " else "") + Trim(raw)
  {
    hide Trim, Find, StartsWith;
    SplitOnceAt(pre, post);
    copies := StrippedCopies(Trim(pre), TRY);
    if copies == 0 {
      assert Repeat("try_", 0) + Trim(pre) == Trim(pre);
      assert "" + Trim(raw) == Trim(raw);
    }
  }

  /** A line without `=` stands for itself. */
  lemma ParseIsVerbatim(raw: string)
    requires '=' !in Trim(raw)
    ensures Parse(raw) == Other(Trim(raw)) && WriteBack(raw) == Trim(raw)
  {
    hide Trim;
    assert Find(Trim(raw), '=') == |Trim(raw)|;
  }

  /** An entry and an override, written out, are read back as what they were. */
  lemma ParseOfEntry(k: string, v: string)
    requires Trimmed(k) && Trimmed(v) && IsKey(k) && !IsOverride(k)
    ensures Parse(Entry(k, v)) == Plain(k, v)
    ensures Parse(TRY + Entry(k, v)) == Try(k, v)
  {
    hide *;
    PlainEntry(k, v);
    PrefixedIsTrimmed(k);
    StripOne(k);
    OverrideEntry(TRY + k, v);
    EntryPrefixed(k, v);
  }

  lemma EntryPrefixed(k: string, v: string)
    ensures TRY + Entry(k, v) == Entry(TRY + k, v)
  {
  }

  lemma PlainEntry(k: string, v: string)
    requires Trimmed(k) && Trimmed(v) && IsKey(k) && !IsOverride(k)
    ensures Parse(Entry(k, v)) == Plain(k, v)
  {
    hide Trim, Find, StripTry, IsOverride;
    TrimFacts(k);
    TrimFacts(v);
    EntryIsTrimmed(k, v);
    SplitOnceAt(k, v);
  }

  lemma OverrideEntry(k: string, v: string)
    requires Trimmed(k) && Trimmed(v) && IsKey(k) && IsOverride(k)
    ensures Parse(Entry(k, v)) == Try(StripTry(k), v)
  {
    hide Trim, Find, StripTry, IsOverride;
    TrimFacts(k);
    TrimFacts(v);
    EntryIsTrimmed(k, v);
    SplitOnceAt(k, v);
  }

  lemma PrefixedIsTrimmed(k: string)
    requires Trimmed(k) && IsKey(k)
    ensures Trimmed(TRY + k) && IsKey(TRY + k)
  {
    assert (TRY + k)[0] == 't';
    assert Last(TRY + k) == if k == "" then '_' else Last(k);
    assert !IsSpace('t') && !IsSpace('_');
    hide IsSpace;
    assert forall i :: 0 <= i < |TRY| ==> TRY[i] != '=';
  }

  lemma StripOne(k: string)
    requires !IsOverride(k)
    ensures IsOverride(TRY + k) && StripTry(TRY + k) == k
  {
    assert (TRY + k)[..|TRY|] == TRY && (TRY + k)[|TRY|..] == k;
    assert StripAll(k, TRY) == k;
  }

  lemma EntryIsTrimmed(k: string, v: string)
    requires Trimmed(k) && Trimmed(v)
    ensures Trim(Entry(k, v)) == Entry(k, v)
  {
    hide Trim;
    var e := Entry(k, v);
    assert e[0] == if k == "" then '=' else k[0];
    assert Last(e) == if v == "" then '=' else Last(v);
    TrimFacts(e);
  }

  // ---------------------------------------------------------------- the reference meaning

  ghost predicate HasKey(line: Line, k: string) {
    !line.Other? && line.key == k
  }

  ghost predicate Mentions(lines: seq<Line>, k: string) {
    exists i :: 0 <= i < |lines| && HasKey(lines[i], k)
  }

  /** `v` is given by the last `try_` line for `k`. */
  ghost predicate IsLastTry(lines: seq<Line>, k: string, v: string) {
    exists i :: 0 <= i < |lines| && lines[i] == Try(k, v) &&
      forall j :: i < j < |lines| ==> !(lines[j].Try? && lines[j].key == k)
  }

  ghost predicate HasTry(lines: seq<Line>, k: string) {
    exists i :: 0 <= i < |lines| && lines[i].Try? && lines[i].key == k
  }

  /** `v` is given by the first plain line for `k`. */
  ghost predicate IsFirstPlain(lines: seq<Line>, k: string, v: string) {
    exists i :: 0 <= i < |lines| && lines[i] == Plain(k, v) &&
      forall j :: 0 <= j < i ==> !(lines[j].Plain? && lines[j].key == k)
  }

  /** The value the documentation promises: the last `try_` line wins, else the first plain one. */
  ghost predicate IsValue(lines: seq<Line>, k: string, v: string) {
    if HasTry(lines, k) then IsLastTry(lines, k, v) else IsFirstPlain(lines, k, v)
  }

  /** What stands at one place of the effective configuration. */
  datatype Slot = Verbatim(text: string) | Keyed(key: string)

  ghost function SlotOf(before: seq<Line>, line: Line): seq<Slot> {
    if line.Other? then [Verbatim(line.text)]
    else if Mentions(before, line.key) then []
    else [Keyed(line.key)]
  }

  /** Every line that is no entry keeps its place; a key stands where it first occurs. */
  ghost function Layout(lines: seq<Line>): seq<Slot> {
    if lines == [] then [] else Layout(Init(lines)) + SlotOf(Init(lines), Last(lines))
  }

  ghost predicate Renders(slot: Slot, lines: seq<Line>, text: string) {
    match slot
    case Verbatim(t) => text == t
    case Keyed(k) => exists v :: IsValue(lines, k, v) && text == Entry(k, v)
  }

  /** `effective` is the effective configuration of these lines. */
  ghost predicate IsEffective(lines: seq<Line>, effective: seq<string>) {
    && |effective| == |Layout(lines)|
    && forall i :: 0 <= i < |effective| ==> Renders(Layout(lines)[i], lines, effective[i])
  }

  lemma {:induction false} LayoutKeys(lines: seq<Line>, k: string)
    ensures Keyed(k) in Layout(lines) <==> Mentions(lines, k)
  {
    if lines != [] {
      var before := Init(lines);
      LayoutKeys(before, k);
      MentionsInit(lines, k);
    }
  }

  lemma MentionsInit(lines: seq<Line>, k: string)
    requires lines != []
    ensures Mentions(lines, k) <==> Mentions(Init(lines), k) || HasKey(Last(lines), k)
  {
    if HasKey(Last(lines), k) {
      assert HasKey(lines[|lines| - 1], k);
    }
    if Mentions(Init(lines), k) {
      var i :| 0 <= i < |lines| - 1 && HasKey(Init(lines)[i], k);
      assert HasKey(lines[i], k);
    }
  }

  /** Each key has one place. */
  lemma {:induction false} LayoutOnce(lines: seq<Line>, i: nat, j: nat)
    requires i < |Layout(lines)| && j < |Layout(lines)|
    requires Layout(lines)[i].Keyed? && Layout(lines)[i] == Layout(lines)[j]
    ensures i == j
  {
    var before := Init(lines);
    var n := |Layout(before)|;
    var k := Layout(lines)[i].key;
    LayoutKeys(before, k);
    if i < n && j < n {
      LayoutOnce(before, i, j);
    }
  }

  /** A value exists for every key mentioned, and is unique. */
  lemma ValueIsUnique(lines: seq<Line>, k: string, v: string, w: string)
    requires IsValue(lines, k, v) && IsValue(lines, k, w)
    ensures v == w
  {
    if HasTry(lines, k) {
      var i :| 0 <= i < |lines| && lines[i] == Try(k, v) &&
        forall j :: i < j < |lines| ==> !(lines[j].Try? && lines[j].key == k);
      var j :| 0 <= j < |lines| && lines[j] == Try(k, w) &&
        forall l :: j < l < |lines| ==> !(lines[l].Try? && lines[l].key == k);
    } else {
      var i :| 0 <= i < |lines| && lines[i] == Plain(k, v) &&
        forall j :: 0 <= j < i ==> !(lines[j].Plain? && lines[j].key == k);
      var j :| 0 <= j < |lines| && lines[j] == Plain(k, w) &&
        forall l :: 0 <= l < j ==> !(lines[l].Plain? && lines[l].key == k);
    }
  }

  // ---------------------------------------------------------------- one more line

  /** What one more line does to the value of a key. */
  lemma ValueAfter(lines: seq<Line>, line: Line, k: string)
    ensures line.Try? && line.key == k ==> IsValue(lines + [line], k, line.value)
    ensures line.Plain? && line.key == k && !Mentions(lines, k) ==> IsValue(lines + [line], k, line.value)
    ensures forall v :: IsValue(lines, k, v) && !(line.Try? && line.key == k) ==> IsValue(lines + [line], k, v)
  {
    var all := lines + [line];
    var n := |lines|;
    assert all[n] == line && forall i :: 0 <= i < n ==> all[i] == lines[i];
    if line.Try? && line.key == k {
      assert all[n] == Try(k, line.value);
      assert HasTry(all, k);
    } else {
      assert HasTry(all, k) ==> HasTry(lines, k);
      forall v | IsValue(lines, k, v) ensures IsValue(all, k, v) {
        if HasTry(lines, k) {
          var i :| 0 <= i < n && lines[i] == Try(k, v) &&
            forall j :: i < j < n ==> !(lines[j].Try? && lines[j].key == k);
          assert all[i] == Try(k, v);
        } else {
          var i :| 0 <= i < n && lines[i] == Plain(k, v) &&
            forall j :: 0 <= j < i ==> !(lines[j].Plain? && lines[j].key == k);
          assert all[i] == Plain(k, v);
        }
      }
      if line.Plain? && line.key == k && !Mentions(lines, k) {
        assert all[n] == Plain(k, line.value);
        assert forall j :: 0 <= j < n ==> !HasKey(lines[j], k);
      }
    }
  }

  ghost predicate AllWellFormed(lines: seq<Line>) {
    forall i :: 0 <= i < |lines| ==> WellFormed(lines[i])
  }

  lemma {:induction false} LayoutIsWellFormed(lines: seq<Line>)
    requires AllWellFormed(lines)
    ensures forall i :: 0 <= i < |Layout(lines)| ==>
      match Layout(lines)[i] case Verbatim(t) => '=' !in t case Keyed(k) => IsKey(k)
  {
    if lines != [] {
      LayoutIsWellFormed(Init(lines));
    }
  }

  /** The prefix search finds the place of the key, and nothing else. */
  lemma SearchFindsPlace(lines: seq<Line>, effective: seq<string>, k: string, i: nat)
    requires AllWellFormed(lines) && IsEffective(lines, effective) && IsKey(k) && i < |effective|
    ensures StartsWith(effective[i], k + "=") <==> Layout(lines)[i] == Keyed(k)
  {
    LayoutIsWellFormed(lines);
    var slot := Layout(lines)[i];
    assert Renders(slot, lines, effective[i]);
    match slot
    case Verbatim(t) => OtherIsNoEntry(t, k);
    case Keyed(k') =>
      var v :| IsValue(lines, k', v) && effective[i] == Entry(k', v);
      PrefixIsKey(k, k', v);
  }

  /** Entries of other keys, and other lines, read the same after one more line. */
  lemma RendersAfter(lines: seq<Line>, line: Line, slot: Slot, text: string)
    requires Renders(slot, lines, text)
    requires line.Try? ==> slot != Keyed(line.key)
    ensures Renders(slot, lines + [line], text)
  {
    if slot.Keyed? {
      var v :| IsValue(lines, slot.key, v) && text == Entry(slot.key, v);
      ValueAfter(lines, line, slot.key);
      assert IsValue(lines + [line], slot.key, v);
    }
  }

  /** The index of the first line starting with `k=`, or the number of lines. */
  method Position(effective: seq<string>, k: string) returns (i: nat)
    ensures i <= |effective|
    ensures i < |effective| ==> StartsWith(effective[i], k + "=")
    ensures forall j :: 0 <= j < i ==> !StartsWith(effective[j], k + "=")
  {
    i := 0;
    while i < |effective| && !StartsWith(effective[i], k + "=")
      invariant i <= |effective|
      invariant forall j :: 0 <= j < i ==> !StartsWith(effective[j], k + "=")
    {
      i := i + 1;
    }
  }

  /** What the pass does to the effective lines for one entry of the file. */
  lemma EntryStep(lines: seq<Line>, line: Line, effective: seq<string>, i: nat)
    requires AllWellFormed(lines) && WellFormed(line) && !line.Other? && IsEffective(lines, effective)
    requires i <= |effective|
    requires i < |effective| ==> StartsWith(effective[i], line.key + "=")
    requires forall j :: 0 <= j < i ==> !StartsWith(effective[j], line.key + "=")
    ensures IsEffective(lines + [line],
      if i == |effective| then effective + [Entry(line.key, line.value)]
      else if line.Try? then effective[i := Entry(line.key, line.value)]
      else effective)
  {
    var k := line.key;
    var all := lines + [line];
    var slots := Layout(lines);
    assert Init(all) == lines && Last(all) == line;
    LayoutKeys(lines, k);
    ValueAfter(lines, line, k);
    forall j | 0 <= j < |effective| && (line.Try? ==> j != i) ensures Renders(slots[j], all, effective[j]) {
      if j < i {
        SearchFindsPlace(lines, effective, k, j);
      } else if slots[j] == Keyed(k) {
        SearchFindsPlace(lines, effective, k, i);
        LayoutOnce(lines, i, j);
      }
      RendersAfter(lines, line, slots[j], effective[j]);
    }
    if i < |effective| {
      SearchFindsPlace(lines, effective, k, i);
      assert Layout(all) == slots;
      assert line.Try? ==> Renders(slots[i], all, Entry(k, line.value));
    } else {
      forall j | 0 <= j < |slots| ensures slots[j] != Keyed(k) {
        SearchFindsPlace(lines, effective, k, j);
      }
      assert Layout(all) == slots + [Keyed(k)];
      assert Renders(Keyed(k), all, Entry(k, line.value));
    }
  }

  lemma OtherStep(lines: seq<Line>, line: Line, effective: seq<string>)
    requires line.Other? && IsEffective(lines, effective)
    ensures IsEffective(lines + [line], effective + [line.text])
  {
    var all := lines + [line];
    assert Init(all) == lines && Last(all) == line;
    forall j | 0 <= j < |effective| ensures Renders(Layout(lines)[j], all, effective[j]) {
      RendersAfter(lines, line, Layout(lines)[j], effective[j]);
    }
  }

  /** The line written back for a line of the file. */
  function WriteBack(raw: string): string {
    if Parse(raw).Try? then "# " + Trim(raw) else Trim(raw)
  }

  /** A `try_` entry overrides the line of its key, or is appended. */
  method Override(lines: seq<string>, key: string, value: string, ghost before: seq<Line>) returns (r: seq<string>)
    requires AllWellFormed(before) && IsKey(key) && IsEffective(before, lines)
    ensures IsEffective(before + [Try(key, value)], r)
  {
    var i := Position(lines, key);
    EntryStep(before, Try(key, value), lines, i);
    if i < |lines| {
      r := lines[i := key + "=" + value];
    } else {
      r := lines + [key + "=" + value];
    }
  }

  /** A plain entry is appended unless its key is already there. */
  method InsertIfNew(lines: seq<string>, key: string, value: string, ghost before: seq<Line>) returns (r: seq<string>)
    requires AllWellFormed(before) && IsKey(key) && IsEffective(before, lines)
    ensures IsEffective(before + [Plain(key, value)], r)
  {
    var i := Position(lines, key);
    EntryStep(before, Plain(key, value), lines, i);
    if i < |lines| {
      r := lines;
    } else {
      r := lines + [key + "=" + value];
    }
  }

  /** The branches of the pass, as the meaning of the line. */
  lemma ParseCases(raw: string)
    ensures var trimmed := Trim(raw);
      match SplitOnce(trimmed)
      case None => Parse(raw) == Other(trimmed) && Other(trimmed).Other? && WriteBack(raw) == trimmed
      case Some((key, value)) =>
        if IsOverride(key)
        then Parse(raw) == Try(StripTry(key), value) && IsKey(StripTry(key)) && WriteBack(raw) == "# " + trimmed
        else Parse(raw) == Plain(key, value) && IsKey(key) && WriteBack(raw) == trimmed
  {
    ParseIsWellFormed(raw);
  }

  /** The body of the loop over the lines. */
  method ProcessLine(raw: string, lines: seq<string>, ghost before: seq<Line>)
    returns (back: string, r: seq<string>)
    requires AllWellFormed(before) && IsEffective(before, lines)
    ensures back == WriteBack(raw)
    ensures IsEffective(before + [Parse(raw)], r)
  {
    hide *;
    ParseCases(raw);
    var trimmed := Trim(raw);
    match SplitOnce(trimmed)
    case Some((key, value)) =>
      if IsOverride(key) {
        back := "# " + trimmed;
        r := Override(lines, StripTry(key), value, before);
      } else {
        back := trimmed;
        r := InsertIfNew(lines, key, value, before);
      }
    case None =>
      back := trimmed;
      OtherStep(before, Other(trimmed), lines);
      r := lines + [trimmed];
  }

  /** The single pass over the lines of the file. */
  method ProcessLines(raws: seq<string>) returns (writeBack: seq<string>, effective: seq<string>)
    ensures |writeBack| == |raws| && forall i :: 0 <= i < |raws| ==> writeBack[i] == WriteBack(raws[i])
    ensures IsEffective(ParseAll(raws), effective)
  {
    hide *;
    writeBack, effective := [], [];
    NothingParsed(raws);
    for n := 0 to |raws|
      invariant |writeBack| == n && forall i :: 0 <= i < n ==> writeBack[i] == WriteBack(raws[i])
      invariant IsEffective(ParseAll(raws[..n]), effective)
    {
      ParseOneMore(raws, n);
      AllParsedWellFormed(raws[..n]);
      var back;
      back, effective := ProcessLine(raws[n], effective, ParseAll(raws[..n]));
      writeBack := writeBack + [back];
    }
    assert raws[..|raws|] == raws;
  }

  lemma NothingParsed(raws: seq<string>)
    ensures IsEffective(ParseAll(raws[..0]), [])
  {
    assert ParseAll(raws[..0]) == [];
  }

  lemma ParseOneMore(raws: seq<string>, n: nat)
    requires n < |raws|
    ensures ParseAll(raws[..n + 1]) == ParseAll(raws[..n]) + [Parse(raws[n])]
  {
    hide Parse;
  }

  lemma AllParsedWellFormed(raws: seq<string>)
    ensures AllWellFormed(ParseAll(raws))
  {
    forall i | 0 <= i < |raws| ensures WellFormed(ParseAll(raws)[i]) {
      ParseIsWellFormed(raws[i]);
    }
  }

  // ---------------------------------------------------------------- what the effective lines promise

  /** The lines determine the effective configuration. */
  lemma EffectiveIsUnique(lines: seq<Line>, a: seq<string>, b: seq<string>)
    requires IsEffective(lines, a) && IsEffective(lines, b)
    ensures a == b
  {
    forall i | 0 <= i < |a| ensures a[i] == b[i] {
      var slot := Layout(lines)[i];
      assert Renders(slot, lines, a[i]) && Renders(slot, lines, b[i]);
      if slot.Keyed? {
        var v :| IsValue(lines, slot.key, v) && a[i] == Entry(slot.key, v);
        var w :| IsValue(lines, slot.key, w) && b[i] == Entry(slot.key, w);
        ValueIsUnique(lines, slot.key, v, w);
      }
    }
  }

  /**
   * A key that the file mentions has exactly one entry, with the value of its last `try_`
   * line if there is one and else of its first plain line; no other key has an entry.
   */
  lemma OneEntryPerKey(lines: seq<Line>, effective: seq<string>, k: string)
    requires AllWellFormed(lines) && IsEffective(lines, effective) && IsKey(k)
    ensures Mentions(lines, k) ==> exists i, v ::
      && 0 <= i < |effective| && effective[i] == Entry(k, v) && IsValue(lines, k, v)
      && forall j :: 0 <= j < |effective| && StartsWith(effective[j], k + "=") ==> j == i
    ensures !Mentions(lines, k) ==> forall j :: 0 <= j < |effective| ==> !StartsWith(effective[j], k + "=")
  {
    LayoutKeys(lines, k);
    forall j | 0 <= j < |effective| ensures StartsWith(effective[j], k + "=") <==> Layout(lines)[j] == Keyed(k) {
      SearchFindsPlace(lines, effective, k, j);
    }
    if Mentions(lines, k) {
      var i :| 0 <= i < |effective| && Layout(lines)[i] == Keyed(k);
      assert Renders(Layout(lines)[i], lines, effective[i]);
      var v :| IsValue(lines, k, v) && effective[i] == Entry(k, v);
      forall j | 0 <= j < |effective| && StartsWith(effective[j], k + "=") ensures j == i {
        LayoutOnce(lines, i, j);
      }
    }
  }

  /** A single line, with nothing at its end that splitting would take off. */
  ghost predicate IsLine(s: string) {
    OneLine(s) && StripCr(s) == s
  }

  ghost predicate OfLine(line: Line) {
    match line
    case Other(text) => IsLine(text)
    case _ => OneLine(line.key) && IsLine(line.value)
  }

  lemma TrimmedEndsWell(t: string)
    requires Trimmed(t)
    ensures StripCr(t) == t
  {
    assert IsSpace('\r');
    hide IsSpace;
  }

  lemma TrimmedIsLine(s: string)
    requires OneLine(s)
    ensures IsLine(Trim(s))
  {
    TrimFacts(s);
    hide Trim, Trimmed, StripCr;
    TrimmedEndsWell(Trim(s));
  }

  lemma PartIsOneLine(s: string, from: nat, to: nat)
    requires OneLine(s) && from <= to <= |s|
    ensures OneLine(s[from..to])
  {
  }

  lemma SplitOfLine(t: string)
    requires OneLine(t) && SplitOnce(t).Some?
    ensures var (key, value) := SplitOnce(t).value;
            OneLine(key) && IsLine(value) && OneLine(StripTry(key))
  {
    hide Trim, StripCr, IsSpace, Find, OneLine, StripTry;
    var i := Find(t, '=');
    PartIsOneLine(t, 0, i);
    PartIsOneLine(t, i + 1, |t|);
    assert t[0..i] == t[..i] && t[i + 1..|t|] == t[i + 1..];
    TrimmedIsLine(t[..i]);
    TrimmedIsLine(t[i + 1..]);
    var key := Trim(t[..i]);
    PartIsOneLine(key, |key| - |StripTry(key)|, |key|);
    assert key[|key| - |StripTry(key)|..|key|] == StripTry(key);
  }

  lemma ParseOfLine(raw: string)
    requires OneLine(raw)
    ensures OfLine(Parse(raw))
  {
    TrimmedIsLine(raw);
    hide Trim, StripCr, OneLine, SplitOnce, StripTry, IsOverride;
    if SplitOnce(Trim(raw)).Some? {
      SplitOfLine(Trim(raw));
    }
  }

  /** The effective lines of a text are single lines. */
  lemma EffectiveAreLines(text: string, effective: seq<string>)
    requires IsEffective(ParseAll(Lines(text)), effective)
    ensures forall i :: 0 <= i < |effective| ==> IsLine(effective[i])
  {
    var lines := ParseAll(Lines(text));
    LinesAreSingle(text);
    forall i | 0 <= i < |lines| ensures OfLine(lines[i]) {
      ParseOfLine(Lines(text)[i]);
    }
    RenderedAreLines(lines, effective);
  }

  lemma RenderedAreLines(lines: seq<Line>, effective: seq<string>)
    requires IsEffective(lines, effective) && forall i :: 0 <= i < |lines| ==> OfLine(lines[i])
    ensures forall i :: 0 <= i < |effective| ==> IsLine(effective[i])
  {
    LayoutOfLines(lines);
    forall i | 0 <= i < |effective| ensures IsLine(effective[i]) {
      var slot := Layout(lines)[i];
      assert Renders(slot, lines, effective[i]);
      if slot.Keyed? {
        var v :| IsValue(lines, slot.key, v) && effective[i] == Entry(slot.key, v);
        var j :| 0 <= j < |lines| && (lines[j] == Try(slot.key, v) || lines[j] == Plain(slot.key, v));
        assert OfLine(lines[j]);
        assert Last(effective[i]) == if v == "" then '=' else Last(v);
      }
    }
  }

  lemma {:induction false} LayoutOfLines(lines: seq<Line>)
    requires forall i :: 0 <= i < |lines| ==> OfLine(lines[i])
    ensures forall i :: 0 <= i < |Layout(lines)| && Layout(lines)[i].Verbatim? ==> IsLine(Layout(lines)[i].text)
  {
    if lines != [] {
      LayoutOfLines(Init(lines));
    }
  }

  lemma {:induction false} LayoutGrows(lines: seq<Line>, n: nat)
    requires n <= |lines|
    ensures Layout(lines[..n]) <= Layout(lines)
    decreases |lines| - n
  {
    if n < |lines| {
      assert Init(lines[..n + 1]) == lines[..n];
      LayoutGrows(lines, n + 1);
    } else {
      assert lines[..n] == lines;
    }
  }

  /** Relative order: a line keeps its place, and a key has the place of its first occurrence. */
  lemma PlaceOfLine(lines: seq<Line>, effective: seq<string>, n: nat)
    requires IsEffective(lines, effective) && n < |lines|
    requires lines[n].Other? || !Mentions(lines[..n], lines[n].key)
    ensures var place := |Layout(lines[..n])|;
      && place < |effective|
      && (lines[n].Other? ==> effective[place] == lines[n].text)
      && (!lines[n].Other? ==>
            exists v :: IsValue(lines, lines[n].key, v) && effective[place] == Entry(lines[n].key, v))
      && |Layout(lines[..n + 1])| == place + 1
  {
    LayoutGrows(lines, n + 1);
    var upto := lines[..n + 1];
    assert Init(upto) == lines[..n] && Last(upto) == lines[n];
    var place := |Layout(lines[..n])|;
    assert Layout(lines)[place] == Layout(upto)[place];
    assert Renders(Layout(lines)[place], lines, effective[place]);
  }

  // ---------------------------------------------------------------- the file after the pass

  function WriteBackAll(raws: seq<string>): (r: seq<string>)
    ensures |r| == |raws| && forall i :: 0 <= i < |raws| ==> r[i] == WriteBack(raws[i])
  {
    seq(|raws|, i requires 0 <= i < |raws| => WriteBack(raws[i]))
  }

  lemma PlainLineWritten(raw: string)
    requires !Parse(raw).Try?
    ensures Parse(WriteBack(raw)) == Parse(raw) && WriteBack(WriteBack(raw)) == WriteBack(raw)
  {
    TrimFacts(raw);
    TrimFacts(Trim(raw));
  }

  /** Trimming what stands before the `=` of a commented line leaves the comment sign first. */
  lemma CommentKey(k: string)
    ensures Trim("# " + k) != "" && Trim("# " + k)[0] == '#'
  {
    assert ("# " + k)[0] == '#' && !IsSpace('#');
  }

  lemma CommentedFind(trimmed: string)
    ensures Find("# " + trimmed, '=') == Find(trimmed, '=') + 2
  {
    var i := Find(trimmed, '=');
    var w := "# " + trimmed;
    assert w[0] == '#' && w[1] == ' ' && w[1..][1..] == trimmed;
    assert Find(w[1..], '=') == 1 + i;
  }

  lemma CommentedSplit(trimmed: string)
    requires SplitOnce(trimmed).Some?
    ensures var s := SplitOnce("# " + trimmed);
            s.Some? && s.value.0 != "" && s.value.0[0] == '#' && s.value.1 == SplitOnce(trimmed).value.1
  {
    hide Find, Trim;
    var i := Find(trimmed, '=');
    var w := "# " + trimmed;
    CommentedFind(trimmed);
    assert w[..i + 2] == "# " + trimmed[..i];
    assert w[i + 3..] == trimmed[i + 1..];
    CommentKey(trimmed[..i]);
  }

  lemma CommentIsNoOverride(key: string)
    requires key != "" && key[0] == '#'
    ensures !IsOverride(key)
  {
    assert TRY[0] == 't';
  }

  lemma OverrideLineWritten(raw: string)
    requires Parse(raw).Try?
    ensures var l := Parse(WriteBack(raw));
            l.Plain? && l.key != "" && l.key[0] == '#' && l.value == Parse(raw).value
    ensures WriteBack(WriteBack(raw)) == WriteBack(raw)
  {
    hide Find, Trim, IsOverride, StripTry;
    var trimmed := Trim(raw);
    var w := "# " + trimmed;
    TryIsNotEmpty(raw);
    CommentTrimmed(raw);
    CommentedSplit(trimmed);
    CommentIsNoOverride(SplitOnce(w).value.0);
  }

  lemma CommentTrimmed(raw: string)
    requires Trim(raw) != ""
    ensures Trim("# " + Trim(raw)) == "# " + Trim(raw)
  {
    hide Trim, IsSpace;
    TrimFacts(raw);
    CommentSignIsNoSpace();
    var t := Trim(raw);
    var w := "# " + t;
    assert w[0] == '#' && Last(w) == Last(t);
    TrimFacts(w);
  }

  lemma CommentSignIsNoSpace()
    ensures !IsSpace('#')
  {
  }

  lemma WrittenIsOneLine(raw: string)
    requires OneLine(raw)
    ensures OneLine(WriteBack(raw)) && StripCr(WriteBack(raw)) == WriteBack(raw)
  {
    hide Trim;
    var trimmed := Trim(raw);
    TrimFacts(raw);
    assert IsSpace('\r');
    if Parse(raw).Try? {
      TryIsNotEmpty(raw);
      assert Last("# " + trimmed) == Last(trimmed);
    }
  }

  lemma TryIsNotEmpty(raw: string)
    requires Parse(raw).Try?
    ensures Trim(raw) != ""
  {
  }

  /**
   * The rewritten file is a fixpoint: it splits into the lines that were written, a second
   * pass changes none of them, and none of them is an override any more.
   */
  lemma RewriteIsFixpoint(text: string)
    ensures var written := WriteBackAll(Lines(text));
      && Lines(Unlines(written)) == written
      && WriteBackAll(written) == written
      && forall k :: !HasTry(ParseAll(written), k)
  {
    var raws := Lines(text);
    var written := WriteBackAll(raws);
    LinesAreSingle(text);
    forall i | 0 <= i < |raws|
      ensures OneLine(written[i]) && StripCr(written[i]) == written[i]
      ensures WriteBack(written[i]) == written[i] && !ParseAll(written)[i].Try?
    {
      WrittenIsOneLine(raws[i]);
      if Parse(raws[i]).Try? {
        OverrideLineWritten(raws[i]);
      } else {
        PlainLineWritten(raws[i]);
      }
    }
    LinesOfUnlines(written);
    assert WriteBackAll(written) == written;
  }

  /**
   * An override lasts one start: afterwards every key (a key cannot begin with the comment
   * sign) has the value of its first plain line in the original file again.
   */
  lemma OverrideLastsOnce(text: string, k: string, v: string)
    requires k == "" || k[0] != '#'
    ensures IsValue(ParseAll(WriteBackAll(Lines(text))), k, v) <==> IsFirstPlain(ParseAll(Lines(text)), k, v)
  {
    var raws := Lines(text);
    var lines := ParseAll(raws);
    var later := ParseAll(WriteBackAll(raws));
    RewriteIsFixpoint(text);
    forall i | 0 <= i < |raws|
      ensures lines[i].Plain? && lines[i].key == k <==> later[i].Plain? && later[i].key == k
      ensures lines[i].Plain? && lines[i].key == k ==> later[i] == lines[i]
    {
      if Parse(raws[i]).Try? {
        OverrideLineWritten(raws[i]);
      } else {
        PlainLineWritten(raws[i]);
      }
    }
    FirstPlainAgrees(lines, later, k, v);
    FirstPlainAgrees(later, lines, k, v);
  }

  lemma FirstPlainAgrees(a: seq<Line>, b: seq<Line>, k: string, v: string)
    requires |a| == |b|
    requires forall i :: 0 <= i < |a| ==> (a[i].Plain? && a[i].key == k <==> b[i].Plain? && b[i].key == k)
    requires forall i :: 0 <= i < |a| && a[i].Plain? && a[i].key == k ==> b[i] == a[i]
    ensures IsFirstPlain(a, k, v) ==> IsFirstPlain(b, k, v)
  {
    if IsFirstPlain(a, k, v) {
      var i :| 0 <= i < |a| && a[i] == Plain(k, v) &&
        forall j :: 0 <= j < i ==> !(a[j].Plain? && a[j].key == k);
      assert b[i] == Plain(k, v);
    }
  }
}
