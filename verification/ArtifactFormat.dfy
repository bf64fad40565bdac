/** The FILE:/fence format the planner asks the model for, and its parser. */
module ArtifactFormat {
  import opened Prelude
  import Text

  const FILE_MARK := "FILE:"
  const FENCE := "```"

  /** The format the prompt asks for. */
  function Format(path: string, content: string): string {
    "FILE: " + path + "\n" + FENCE + "\n" + content + "\n" + FENCE
  }

  predicate IsFileLine(line: string) {
    FILE_MARK <= Text.Upper(Text.Strip(line))
  }

  predicate IsFence(line: string) {
    FENCE <= Text.Strip(line)
  }

  function AfterColon(line: string): string {
    if line == "" then "" else if line[0] == ':' then line[1..] else AfterColon(line[1..])
  }

  function FileOf(line: string): string {
    Text.Strip(AfterColon(line))
  }

  /** What the remaining lines contribute, given what has been seen so far. */
  function Scan(lines: seq<string>, path: Option<string>, fenced: bool): (Option<string>, seq<string>) {
    if lines == [] then (path, [])
    else
      var line, rest := lines[0], lines[1..];
      if path.None? && IsFileLine(line) then Scan(rest, Some(FileOf(line)), fenced)
      else if IsFence(line) then
        if fenced then (path, []) else Scan(rest, path, true)
      else if fenced || (path.Some? && path.value != "") then
        var tail := Scan(rest, path, fenced);
        (tail.0, [line] + tail.1)
      else Scan(rest, path, fenced)
  }

  function Parsed(text: string): (Option<string>, string) {
    var found := Scan(Text.Split(Text.Strip(text), '\n'), None, false);
    (found.0, Text.Join(found.1, '\n'))
  }

  lemma ScanNext(lines: seq<string>, k: nat, path: Option<string>, fenced: bool)
    requires k < |lines|
    ensures var line, rest := lines[k], lines[k + 1..];
            Scan(lines[k..], path, fenced) ==
              if path.None? && IsFileLine(line) then Scan(rest, Some(FileOf(line)), fenced)
              else if IsFence(line) then (if fenced then (path, []) else Scan(rest, path, true))
              else if fenced || (path.Some? && path.value != "") then
                (Scan(rest, path, fenced).0, [line] + Scan(rest, path, fenced).1)
              else Scan(rest, path, fenced)
  {
    assert lines[k..][1..] == lines[k + 1..];
    hide IsFileLine, IsFence, FileOf;
  }

  method Parse(text: string) returns (path: Option<string>, content: string)
    ensures (path, content) == Parsed(text)
  {
    var lines := Text.Split(Text.Strip(text), '\n');
    path := None;
    var contentLines: seq<string> := [];
    var fenced := false;
    var k := 0;
    ghost var goal := Scan(lines, None, false);
    assert lines[0..] == lines;
    while k < |lines|
      invariant 0 <= k <= |lines|
      invariant var tail := Scan(lines[k..], path, fenced);
                goal.0 == tail.0 && goal.1 == contentLines + tail.1
    {
      hide Scan, IsFileLine, IsFence, FileOf;
      var line := lines[k];
      ScanNext(lines, k, path, fenced);
      k := k + 1;
      if path.None? && IsFileLine(line) {
        path := Some(FileOf(line));
        continue;
      }
      if IsFence(line) {
        if fenced {
          assert goal.1 == contentLines + [] == contentLines;
          break;
        }
        fenced := true;
        continue;
      }
      if fenced || (path.Some? && path.value != "") {
        contentLines := contentLines + [line];
      }
    }
    assert goal.0 == path && goal.1 == contentLines;
    content := Text.Join(contentLines, '\n');
  }

  /** The lines before the first one that opens with a fence. */
  function BeforeFence(lines: seq<string>): (kept: seq<string>)
    ensures kept <= lines
    ensures forall l :: l in kept ==> !IsFence(l)
    ensures |kept| < |lines| ==> IsFence(lines[|kept|])
  {
    if lines == [] || IsFence(lines[0]) then [] else [lines[0]] + BeforeFence(lines[1..])
  }

  lemma {:induction false} ScanFenced(lines: seq<string>, path: string)
    ensures Scan(lines + [FENCE], Some(path), true) == (Some(path), BeforeFence(lines))
  {
    var all := lines + [FENCE];
    if lines == [] {
      assert IsFence(FENCE);
    } else {
      assert all[0] == lines[0] && all[1..] == lines[1..] + [FENCE];
      ScanFenced(lines[1..], path);
    }
  }

  /** Without any fence, the content is every line after the path, unless the path is blank. */
  lemma {:induction false} ScanUnfenced(lines: seq<string>, path: string)
    requires forall l | l in lines :: !IsFence(l)
    ensures Scan(lines, Some(path), false) == (Some(path), if |path| > 0 then lines else [])
  {
    if lines != [] {
      assert lines[0] in lines && forall l | l in lines[1..] :: l in lines;
      ScanUnfenced(lines[1..], path);
      assert [lines[0]] + lines[1..] == lines;
    }
  }

  /** Lines before a path and outside of fences are dropped. */
  lemma {:induction false} ScanBefore(lines: seq<string>, rest: seq<string>)
    requires forall l | l in lines :: !IsFence(l) && !IsFileLine(l)
    ensures Scan(lines + rest, None, false) == Scan(rest, None, false)
  {
    if lines == [] {
      assert lines + rest == rest;
    } else {
      assert lines[0] in lines && forall l | l in lines[1..] :: l in lines;
      assert (lines + rest)[1..] == lines[1..] + rest;
      ScanBefore(lines[1..], rest);
    }
  }

  /** A reply without fences: what comes before the line that names the path is dropped, what
      comes after it is the content. */
  lemma ParsedUnfenced(before: seq<string>, path: string, lines: seq<string>, text: string)
    requires Text.Split(Text.Strip(text), '\n') == before + ["FILE: " + path] + lines
    requires forall l | l in before :: !IsFence(l) && !IsFileLine(l)
    requires forall l | l in lines :: !IsFence(l)
    ensures Parsed(text) == (Some(Text.Strip(path)), if |Text.Strip(path)| > 0 then Text.Join(lines, '\n') else "")
  {
    var line := "FILE: " + path;
    ScanBefore(before, [line] + lines);
    assert before + [line] + lines == before + ([line] + lines) && ([line] + lines)[1..] == lines;
    FileLineParses(path);
    ScanUnfenced(lines, Text.Strip(path));
    hide Text.Strip, Text.Split, IsFileLine, IsFence, FileOf;
    assert Text.Join([], '\n') == "";
  }

  lemma FileLineParses(path: string)
    ensures IsFileLine("FILE: " + path) && FileOf("FILE: " + path) == Text.Strip(path)
  {
    FileLineOpens(path);
    FileLineColon(path);
    assert (" " + path)[1..] == path;
    hide AfterColon, IsFileLine;
  }

  lemma FileLineOpens(path: string)
    ensures IsFileLine("FILE: " + path)
  {
    var line := "FILE: " + path;
    Text.StripRightKeeps(line, FILE_MARK);
    assert Text.Strip(line)[..5] == FILE_MARK;
    hide Text.Strip;
    assert Text.Upper(Text.Strip(line))[..5] == FILE_MARK;
  }

  lemma FileLineColon(path: string)
    ensures AfterColon("FILE: " + path) == " " + path
  {
    var line := "FILE: " + path;
    var l1, l2, l3, l4 := "ILE: " + path, "LE: " + path, "E: " + path, ": " + path;
    assert line[1..] == l1;
    assert l1[1..] == l2;
    assert l2[1..] == l3;
    assert l3[1..] == l4;
    assert l4[1..] == " " + path;
    assert AfterColon(line) == AfterColon(l1) && AfterColon(l2) == AfterColon(l3) && AfterColon(l4) == " " + path;
  }

  lemma NoNewlines(path: string)
    requires Text.Free(path, '\n')
    ensures Text.Free("FILE: " + path, '\n') && Text.Free(FENCE, '\n')
  {
  }

  lemma FormatLines(path: string, content: string)
    requires Text.Free(path, '\n')
    ensures Text.Split(Format(path, content), '\n') ==
            ["FILE: " + path, FENCE] + (Text.Split(content, '\n') + [FENCE])
  {
    hide Text.Split, Text.Free;
    NoNewlines(path);
    Text.SplitFree("FILE: " + path, '\n');
    Text.SplitFree(FENCE, '\n');
    var body := content + "\n" + FENCE;
    Text.SplitConcat(content, FENCE, '\n');
    Text.SplitConcat(FENCE, body, '\n');
    Text.SplitConcat("FILE: " + path, FENCE + "\n" + body, '\n');
    assert Format(path, content) == ("FILE: " + path) + "\n" + (FENCE + "\n" + body);
  }

  /** Reading the format back gives the path, stripped, and the content up to its first
      line that opens with a fence. */
  lemma ParseOfFormat(path: string, content: string)
    requires Text.Free(path, '\n')
    ensures Parsed(Format(path, content)) ==
            (Some(Text.Strip(path)), Text.Join(BeforeFence(Text.Split(content, '\n')), '\n'))
  {
    hide Text.Split, Text.Strip, Text.Join, Scan, BeforeFence, Format, FileOf, IsFileLine;
    FormatStripped(path, content);
    FormatLines(path, content);
    FileLineParses(path);
    ScanHeader("FILE: " + path, Text.Split(content, '\n') + [FENCE]);
    ScanFenced(Text.Split(content, '\n'), Text.Strip(path));
  }

  lemma FormatStripped(path: string, content: string)
    ensures Text.Strip(Format(path, content)) == Format(path, content)
  {
    var text := Format(path, content);
    assert text[0] == 'F' && text[|text| - 1] == '`';
    Text.StripFixes(text);
  }

  /** The first two lines of the format open the file and the fence. */
  lemma ScanHeader(fileLine: string, tail: seq<string>)
    requires IsFileLine(fileLine)
    ensures Scan([fileLine, FENCE] + tail, None, false) == Scan(tail, Some(FileOf(fileLine)), true)
  {
    hide IsFileLine, FileOf;
    assert ([fileLine, FENCE] + tail)[1..] == [FENCE] + tail;
    assert ([FENCE] + tail)[1..] == tail && IsFence(FENCE);
  }

  /** The round trip holds exactly when the path has no outer white space and no content
      line opens with a fence. */
  lemma {:induction false} RoundTripIff(path: string, content: string)
    requires Text.Free(path, '\n')
    ensures Parsed(Format(path, content)) == (Some(path), content) <==>
            Text.Stripped(path) && forall l :: l in Text.Split(content, '\n') ==> !IsFence(l)
  {
    ParseOfFormat(path, content);
    Text.StripIsStripped(path);
    if Text.Stripped(path) {
      Text.StripFixes(path);
    }
    var lines := Text.Split(content, '\n');
    var kept := BeforeFence(lines);
    Text.JoinOfSplit(content, '\n');
    if Text.Join(kept, '\n') == content && |kept| < |lines| {
      Text.SplitPiecesFree(content, '\n');
      if kept != [] {
        Text.SplitOfJoin(kept, '\n');
      }
    }
    assert |kept| == |lines| ==> kept == lines;
  }
}
