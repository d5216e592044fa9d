/** Files and patches as lines (`src/common/tools/tool_edit_file.cpp`). */
module TextLines {
  import opened Strings

  /** The text from `at` on, cut at its newlines. A final newline starts no further line. */
  function LinesFrom(s: string, at: nat): (lines: seq<string>)
    ensures lines == [] <==> at >= |s|
    decreases |s| - at
  {
    if at >= |s| then []
    else match FindChar(s, '\n', at)
      case None => [s[at..]]
      case Some(nl) => [s[at..nl]] + LinesFrom(s, nl + 1)
  }

  function LinesOf(s: string): seq<string> {
    LinesFrom(s, 0)
  }

  predicate EndsInNewline(s: string) {
    s != "" && s[|s| - 1] == '\n'
  }

  /** The lines with a newline between each two, and one at the end when `trailing`. */
  function Join(lines: seq<string>, trailing: bool): string {
    if lines == [] then ""
    else if |lines| == 1 then if trailing then lines[0] + "\n" else lines[0]
    else lines[0] + "\n" + Join(lines[1..], trailing)
  }

  datatype FileText = FileText(lines: seq<string>, trailingNewline: bool)

  method SplitLines(content: string) returns (text: FileText)
    ensures text == FileText(LinesOf(content), EndsInNewline(content))
  {
    if content == "" {
      return FileText([], false);
    }
    var lines: seq<string> := [];
    var at := 0;
    while at < |content|
      invariant lines + LinesFrom(content, at) == LinesOf(content)
      decreases |content| - at
    {
      var nl := FindChar(content, '\n', at);
      if nl.None? {
        lines := lines + [content[at..]];
        at := |content|;
        break;
      }
      lines := lines + [content[at..nl.value]];
      at := nl.value + 1;
      if at == |content| {
        break;
      }
    }
    text := FileText(lines, content[|content| - 1] == '\n');
  }

  method JoinLines(lines: seq<string>, trailingNewline: bool) returns (out: string)
    ensures out == Join(lines, trailingNewline)
  {
    out := "";
    for i := 0 to |lines|
      invariant out == Join(lines[..i], false)
    {
      assert lines[..i + 1] == lines[..i] + [lines[i]];
      JoinLast(lines[..i], lines[i]);
      if i != 0 {
        out := out + "\n";
      }
      out := out + lines[i];
    }
    assert lines[..|lines|] == lines;
    JoinTrailing(lines);
    if trailingNewline && lines != [] {
      out := out + "\n";
    }
  }

  lemma {:induction false} JoinLast(lines: seq<string>, line: string)
    ensures Join(lines + [line], false) == if lines == [] then line else Join(lines, false) + "\n" + line
  {
    if |lines| == 1 {
      assert (lines + [line])[1..] == [line];
    } else if |lines| > 1 {
      JoinLast(lines[1..], line);
      assert (lines + [line])[1..] == lines[1..] + [line];
    }
  }

  lemma {:induction false} JoinTrailing(lines: seq<string>)
    ensures Join(lines, true) == if lines == [] then "" else Join(lines, false) + "\n"
  {
    if |lines| > 1 {
      JoinTrailing(lines[1..]);
    }
  }

  lemma JoinCons(line: string, rest: seq<string>, trailing: bool)
    requires rest != []
    ensures Join([line] + rest, trailing) == line + "\n" + Join(rest, trailing)
  {
    assert ([line] + rest)[1..] == rest;
  }

  lemma CutAt(s: string, at: nat, nl: nat)
    requires at <= nl < |s| && s[nl] == '\n'
    ensures s[at..] == s[at..nl] + "\n" + s[nl + 1..]
  {
  }

  lemma {:induction false} JoinSplitFrom(s: string, at: nat)
    requires at < |s|
    ensures Join(LinesFrom(s, at), EndsInNewline(s)) == s[at..]
    decreases |s| - at
  {
    match FindChar(s, '\n', at)
    case None =>
    case Some(nl) =>
      CutAt(s, at, nl);
      if nl + 1 < |s| {
        JoinSplitFrom(s, nl + 1);
        JoinCons(s[at..nl], LinesFrom(s, nl + 1), EndsInNewline(s));
      } else {
        assert LinesFrom(s, nl + 1) == [] && s[nl + 1..] == "";
        assert LinesFrom(s, at) == [s[at..nl]];
      }
  }

  /** Splitting loses nothing: joining the lines gives the file back, byte for byte. */
  lemma JoinSplit(content: string)
    ensures Join(LinesOf(content), EndsInNewline(content)) == content
  {
    if content != "" {
      JoinSplitFrom(content, 0);
      assert content[0..] == content;
    }
  }

  /** Lines as a printer writes them: each one ended by a newline. */
  function Unlines(lines: seq<string>): string {
    if lines == [] then "" else lines[0] + "\n" + Unlines(lines[1..])
  }

  predicate NoNewline(line: string) {
    forall i :: 0 <= i < |line| ==> line[i] != '\n'
  }

  lemma HeadLine(line: string, rest: string)
    ensures var t := line + "\n" + rest;
      t[..|line|] == line && t[|line|] == '\n' && t[|line| + 1..] == rest
  {
  }

  lemma RestAfter(s: string, at: nat, line: string, rest: string)
    requires at <= |s| && s[at..] == line + "\n" + rest
    ensures at + |line| + 1 <= |s| && s[at + |line| + 1..] == rest
  {
    HeadLine(line, rest);
    assert s[at + |line| + 1..] == s[at..][|line| + 1..];
  }

  lemma FirstLine(s: string, at: nat, line: string, rest: string)
    requires at <= |s| && s[at..] == line + "\n" + rest && NoNewline(line)
    ensures LinesFrom(s, at) == [line] + LinesFrom(s, at + |line| + 1)
  {
    var t, nl := s[at..], at + |line|;
    HeadLine(line, rest);
    assert s[nl] == t[|line|] && s[at..nl] == t[..|line|];
    forall i | at <= i < nl ensures s[i] != '\n' { assert s[i] == t[..|line|][i - at]; }
    FindCharIs(s, '\n', at, nl);
  }

  lemma {:induction false} LinesFromUnlines(s: string, at: nat, lines: seq<string>)
    requires at <= |s| && s[at..] == Unlines(lines)
    requires forall k :: 0 <= k < |lines| ==> NoNewline(lines[k])
    ensures LinesFrom(s, at) == lines
    decreases |lines|
  {
    if lines != [] {
      var line, rest, next := lines[0], Unlines(lines[1..]), at + |lines[0]| + 1;
      assert LinesFrom(s, at) == [line] + LinesFrom(s, next) by {
        FirstLine(s, at, line, rest);
      }
      assert next <= |s| && s[next..] == rest by {
        RestAfter(s, at, line, rest);
      }
      LinesFromUnlines(s, next, lines[1..]);
    }
  }

  lemma LinesOfUnlines(lines: seq<string>)
    requires forall k :: 0 <= k < |lines| ==> NoNewline(lines[k])
    ensures LinesOf(Unlines(lines)) == lines
  {
    var s := Unlines(lines);
    assert s[0..] == s;
    LinesFromUnlines(s, 0, lines);
  }

  lemma {:induction false} UnlinesAppend(a: seq<string>, b: seq<string>)
    ensures Unlines(a + b) == Unlines(a) + Unlines(b)
  {
    if a == [] {
      assert a + b == b;
    } else {
      UnlinesAppend(a[1..], b);
      assert (a + b)[1..] == a[1..] + b;
      Associate(a[0] + "\n", Unlines(a[1..]), Unlines(b));
    }
  }

  /** One carriage return at the end of a patch line is dropped. */
  function StripReturn(line: string): string {
    if line != "" && line[|line| - 1] == '\r' then line[..|line| - 1] else line
  }

  function StripReturns(lines: seq<string>): seq<string> {
    seq(|lines|, i requires 0 <= i < |lines| => StripReturn(lines[i]))
  }

  method PatchLines(patch: string) returns (lines: seq<string>)
    ensures lines == StripReturns(LinesOf(patch))
  {
    lines := [];
    ghost var raw: seq<string> := [];
    var at := 0;
    while at < |patch|
      invariant raw + LinesFrom(patch, at) == LinesOf(patch)
      invariant lines == StripReturns(raw)
      decreases |patch| - at
    {
      var nl := FindChar(patch, '\n', at);
      var line := if nl.None? then patch[at..] else patch[at..nl.value];
      raw := raw + [line];
      lines := lines + [StripReturn(line)];
      at := if nl.None? then |patch| else nl.value + 1;
    }
  }
}
