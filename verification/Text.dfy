/** The string operations the configuration pass relies on. */
module Text {
  import opened Prelude

  /** Unicode White_Space, which is what trimming removes. */
  predicate IsSpace(c: char) {
    var n := c as int;
    || 0x9 <= n <= 0xD || n == 0x20 || n == 0x85 || n == 0xA0 || n == 0x1680
    || 0x2000 <= n <= 0x200A || n == 0x2028 || n == 0x2029 || n == 0x202F || n == 0x205F || n == 0x3000
  }

  function TrimStart(s: string): (r: string)
    ensures |r| <= |s| && r == s[|s| - |r|..]
    ensures r != "" ==> !IsSpace(r[0])
    ensures s != "" && !IsSpace(s[0]) ==> r == s
  {
    if s != "" && IsSpace(s[0]) then TrimStart(s[1..]) else s
  }

  function TrimEnd(s: string): (r: string)
    ensures |r| <= |s| && r == s[..|r|]
    ensures r != "" ==> !IsSpace(Last(r))
    ensures s != "" && !IsSpace(Last(s)) ==> r == s
    ensures s != "" && !IsSpace(s[0]) ==> r != ""
  {
    if s != "" && IsSpace(Last(s)) then TrimEnd(Init(s)) else s
  }

  function Trim(s: string): string {
    TrimEnd(TrimStart(s))
  }

  ghost predicate Trimmed(s: string) {
    s != "" ==> !IsSpace(s[0]) && !IsSpace(Last(s))
  }

  lemma TrimFacts(s: string)
    ensures Trimmed(Trim(s))
    ensures forall c :: c in Trim(s) ==> c in s
    ensures Trimmed(s) ==> Trim(s) == s
  {
    var a := TrimStart(s);
    assert forall c :: c in a ==> c in s;
    var b := TrimEnd(a);
    assert b != "" ==> b[0] == a[0];
  }

  ghost predicate AllSpace(s: string) {
    forall i :: 0 <= i < |s| ==> IsSpace(s[i])
  }

  /** Trimming takes off white space at both ends, all of it, and nothing else. */
  lemma TrimIs(s: string) returns (a: string, b: string)
    ensures s == a + Trim(s) + b && AllSpace(a) && AllSpace(b) && Trimmed(Trim(s))
  {
    TrimFacts(s);
    assert Trim(s) == TrimEnd(TrimStart(s));
    hide *;
    a := TrimmedStart(s);
    b := TrimmedEnd(TrimStart(s));
    Regroup(a, Trim(s), b);
  }

  /** White space in ASCII: tab, line feed, vertical tab, form feed, carriage return, blank. */
  lemma AsciiSpaces(c: char)
    requires c as int < 0x80
    ensures IsSpace(c) <==> 9 <= c as int <= 13 || c == ' '
  {
  }

  lemma OneMoreSpace(a: string, c: char)
    requires AllSpace(a) && IsSpace(c)
    ensures AllSpace([c] + a) && AllSpace(a + [c])
  {
    hide IsSpace;
  }

  lemma {:induction false} TrimmedStart(s: string) returns (a: string)
    ensures s == a + TrimStart(s) && AllSpace(a)
  {
    hide IsSpace, AllSpace;
    if s != "" && IsSpace(s[0]) {
      var rest := TrimmedStart(s[1..]);
      OneMoreSpace(rest, s[0]);
      a := [s[0]] + rest;
      assert TrimStart(s) == TrimStart(s[1..]);
      hide *;
      assert s == [s[0]] + s[1..];
      Regroup([s[0]], rest, TrimStart(s[1..]));
    } else {
      a := "";
      NoSpaces();
    }
  }

  lemma {:induction false} TrimmedEnd(s: string) returns (b: string)
    ensures s == TrimEnd(s) + b && AllSpace(b)
  {
    hide IsSpace, AllSpace;
    if s != "" && IsSpace(Last(s)) {
      var rest := TrimmedEnd(Init(s));
      OneMoreSpace(rest, Last(s));
      b := rest + [Last(s)];
      assert TrimEnd(s) == TrimEnd(Init(s));
      assert s == Init(s) + [Last(s)];
      hide *;
      Regroup(TrimEnd(s), rest, [Last(s)]);
    } else {
      b := "";
      NoSpaces();
    }
  }

  lemma NoSpaces()
    ensures AllSpace("")
  {
  }

  /** The first position of `c`, or the length. */
  function Find(s: string, c: char): (i: nat)
    ensures i <= |s| && c !in s[..i]
    ensures i < |s| ==> s[i] == c
  {
    if s == "" || s[0] == c then 0
    else
      var i := 1 + Find(s[1..], c);
      assert s[..i] == [s[0]] + s[1..][..i - 1];
      i
  }

  predicate StartsWith(s: string, p: string) {
    |p| <= |s| && s[..|p|] == p
  }

  /** Strip every leading copy of `p`. */
  function StripAll(s: string, p: string): (r: string)
    requires p != ""
    ensures |r| <= |s| && r == s[|s| - |r|..]
    ensures !StartsWith(r, p)
    decreases |s|
  {
    if StartsWith(s, p) then StripAll(s[|p|..], p) else s
  }

  function Repeat(p: string, n: nat): string {
    if n == 0 then "" else p + Repeat(p, n - 1)
  }

  lemma StripStep(s: string, p: string)
    requires p != "" && StartsWith(s, p)
    ensures s == p + s[|p|..] && StripAll(s, p) == StripAll(s[|p|..], p)
  {
  }

  lemma Regroup(a: string, b: string, c: string)
    ensures a + (b + c) == (a + b) + c
  {
  }

  /** What is stripped is a number of copies of `p`. */
  lemma {:induction false} StrippedCopies(s: string, p: string) returns (n: nat)
    requires p != ""
    ensures s == Repeat(p, n) + StripAll(s, p)
    ensures n == 0 <==> !StartsWith(s, p)
    decreases |s|
  {
    if StartsWith(s, p) {
      StripStep(s, p);
      var rest := s[|p|..];
      hide StripAll, StartsWith;
      var m := StrippedCopies(rest, p);
      n := m + 1;
      Regroup(p, Repeat(p, m), StripAll(rest, p));
    } else {
      n := 0;
      assert Repeat(p, 0) + s == s;
    }
  }

  function StripCr(s: string): string {
    if s != "" && Last(s) == '\r' then Init(s) else s
  }

  /** Lines end at a newline, which may follow a carriage return; the last end is optional. */
  function Lines(s: string): seq<string>
    decreases |s|
  {
    if s == "" then []
    else
      var i := Find(s, '\n');
      if i == |s| then [s] else [StripCr(s[..i])] + Lines(s[i + 1..])
  }

  function Unlines(lines: seq<string>): string {
    if lines == [] then "" else lines[0] + "\n" + Unlines(lines[1..])
  }

  ghost predicate OneLine(s: string) {
    '\n' !in s
  }

  lemma {:induction false} LinesAreSingle(s: string)
    ensures forall i :: 0 <= i < |Lines(s)| ==> OneLine(Lines(s)[i])
    decreases |s|
  {
    if s != "" {
      var i := Find(s, '\n');
      if i < |s| {
        LinesAreSingle(s[i + 1..]);
        assert forall c :: c in StripCr(s[..i]) ==> c in s[..i];
      }
    }
  }

  lemma FindAt(a: string, c: char, b: string)
    requires c !in a
    ensures Find(a + [c] + b, c) == |a|
  {
    var s := a + [c] + b;
    var i := Find(s, c);
    assert s[|a|] == c && s[..|a|] == a;
    assert forall j :: 0 <= j < i ==> s[j] in s[..i];
  }

  /** Writing lines out and splitting the text again gives the same lines. */
  lemma {:induction false} LinesOfUnlines(lines: seq<string>)
    requires forall i :: 0 <= i < |lines| ==> OneLine(lines[i]) && StripCr(lines[i]) == lines[i]
    ensures Lines(Unlines(lines)) == lines
  {
    if lines != [] {
      SplitFirst(lines[0], Unlines(lines[1..]));
      LinesOfUnlines(lines[1..]);
    }
  }

  lemma SplitFirst(line: string, rest: string)
    requires OneLine(line) && StripCr(line) == line
    ensures Lines(line + "\n" + rest) == [line] + Lines(rest)
  {
    hide StripCr;
    var s := line + ['\n'] + rest;
    assert s == line + "\n" + rest;
    FindAt(line, '\n', rest);
    assert s[..|line|] == line && s[|line| + 1..] == rest;
  }

  /** The text made of lines with their line ends. */
  function Glue(lines: seq<string>, ends: seq<string>): string
    requires |lines| == |ends|
  {
    if lines == [] then "" else lines[0] + ends[0] + Glue(lines[1..], ends[1..])
  }

  /** A line and its end: only the last line may go without one, and then it is not empty. */
  ghost predicate IsEnd(line: string, end: string, last: bool) {
    || (end == "\n" && StripCr(line) == line)
    || end == "\r\n"
    || (end == "" && last && line != "")
  }

  ghost predicate AreEnds(lines: seq<string>, ends: seq<string>) {
    |lines| == |ends| && forall i :: 0 <= i < |lines| ==> IsEnd(lines[i], ends[i], i == |lines| - 1)
  }

  lemma OneMoreEnd(line: string, end: string, lines: seq<string>, ends: seq<string>)
    requires AreEnds(lines, ends) && end != "" && IsEnd(line, end, false)
    ensures AreEnds([line] + lines, [end] + ends)
    ensures Glue([line] + lines, [end] + ends) == line + end + Glue(lines, ends)
  {
    assert ([line] + lines)[1..] == lines && ([end] + ends)[1..] == ends;
  }

  lemma FirstEnd(raw: string) returns (end: string)
    ensures end != "" && IsEnd(StripCr(raw), end, false) && StripCr(raw) + end == raw + "\n"
  {
    end := if StripCr(raw) == raw then "\n" else "\r\n";
    if StripCr(raw) != raw {
      assert raw == Init(raw) + "\r";
    }
  }

  /** The lines of a text are that text without the line ends, no character more or less. */
  lemma {:induction false} LinesAreTheText(s: string) returns (ends: seq<string>)
    ensures AreEnds(Lines(s), ends) && s == Glue(Lines(s), ends)
    decreases |s|
  {
    if s == "" {
      return [];
    }
    var i := Find(s, '\n');
    if i == |s| {
      ends := [""];
      LastLine(s);
    } else {
      hide Find, AreEnds, Glue, StripCr;
      assert Lines(s) == [StripCr(s[..i])] + Lines(s[i + 1..]);
      FirstLine(s, i);
      hide *;
      var rest := LinesAreTheText(s[i + 1..]);
      var end := FirstEnd(s[..i]);
      OneMoreEnd(StripCr(s[..i]), end, Lines(s[i + 1..]), rest);
      ends := [end] + rest;
    }
  }

  lemma FirstLine(s: string, i: nat)
    requires i < |s| && s[i] == '\n'
    ensures s == s[..i] + "\n" + s[i + 1..]
  {
  }

  lemma LastLine(s: string)
    requires s != ""
    ensures AreEnds([s], [""]) && Glue([s], [""]) == s
  {
    assert [s][1..] == [] && [""][1..] == [];
    assert s + "" + "" == s;
  }

  function Newlines(n: nat): seq<string> {
    if n == 0 then [] else ["\n"] + Newlines(n - 1)
  }

  /** Lines are written with a newline each, and nothing else. */
  lemma {:induction false} UnlinesIsText(lines: seq<string>)
    ensures |Newlines(|lines|)| == |lines| && Unlines(lines) == Glue(lines, Newlines(|lines|))
  {
    if lines != [] {
      UnlinesIsText(lines[1..]);
      assert Newlines(|lines|)[1..] == Newlines(|lines[1..]|);
    }
  }

  /** A text without a line end is one line. */
  lemma LinesOfLine(l: string)
    requires OneLine(l) && l != ""
    ensures Lines(l) == [l]
  {
    assert Find(l, '\n') == |l|;
  }
}
