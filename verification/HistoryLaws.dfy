/** What shrinking makes of one response, written out (`src/server/sessions/tool_history.cpp`). */
module HistoryLaws {
  import opened Strings
  import opened TextSearch
  import opened Trimming
  import opened ToolTags
  import opened ToolHistory

  // ---------------------------------------------------------------------------------------
  // Lines
  // ---------------------------------------------------------------------------------------

  /** The lines with a newline between any two. */
  function Joined(lines: seq<string>): string
    requires lines != []
  {
    if |lines| == 1 then lines[0] else lines[0] + ("\n" + Joined(lines[1..]))
  }

  lemma {:induction false} NewlinesAppend(a: string, b: string)
    ensures Newlines(a + b) == Newlines(a) + Newlines(b)
    decreases |b|
  {
    if b == "" {
      assert a + b == a;
    } else {
      assert (a + b)[..|a + b| - 1] == a + b[..|b| - 1];
      NewlinesAppend(a, b[..|b| - 1]);
    }
  }

  lemma {:induction false} OneBreak(a: string, b: string)
    requires NoBreak(a)
    ensures Newlines(a) == 0 && Newlines(a + ("\n" + b)) == 1 + Newlines(b)
    decreases |a|
  {
    NewlinesAppend(a, "\n" + b);
    NewlinesAppend("\n", b);
    assert "\n"[..0] == "";
    if a != "" {
      OneBreak(a[..|a| - 1], b);
    }
  }

  /** A text has as many lines as it was joined from. */
  lemma {:induction false} LinesCounted(lines: seq<string>)
    requires lines != [] && (forall k :: 0 <= k < |lines| ==> NoBreak(lines[k])) && lines[|lines| - 1] != ""
    ensures Newlines(Joined(lines)) == |lines| - 1 && LineCount(Joined(lines)) == |lines|
    ensures '\n' in Joined(lines) <==> |lines| > 1
    ensures FirstLine(Joined(lines)) == lines[0]
    decreases |lines|
  {
    hide Newlines;
    var whole := Joined(lines);
    if |lines| == 1 {
      OneBreak(lines[0], "");
      FindCharNone(whole, '\n', 0);
    } else {
      LinesCounted(lines[1..]);
      OneBreak(lines[0], Joined(lines[1..]));
      assert whole[|lines[0]|] == '\n';
      FindCharIs(whole, '\n', 0, |lines[0]|);
    }
    LastChar(lines);
  }

  lemma {:induction false} LastChar(lines: seq<string>)
    requires lines != [] && lines[|lines| - 1] != ""
    ensures var whole, last := Joined(lines), lines[|lines| - 1]; whole != "" && whole[|whole| - 1] == last[|last| - 1]
    decreases |lines|
  {
    if |lines| > 1 {
      LastChar(lines[1..]);
    }
  }

  // ---------------------------------------------------------------------------------------
  // Blanks around a body
  // ---------------------------------------------------------------------------------------

  predicate Blank(c: char) {
    c == ' ' || c == '\n' || c == '\r' || c == '\t'
  }

  predicate Blanks(s: string) {
    forall k :: 0 <= k < |s| ==> Blank(s[k])
  }

  /** Text without a blank at either end. */
  predicate Bare(s: string) {
    s != "" && !Blank(s[0]) && !Blank(s[|s| - 1])
  }

  lemma {:induction false} FirstAt(s: string, i: nat, at: nat)
    requires i <= at < |s| && (forall k :: i <= k < at ==> Blank(s[k])) && !Blank(s[at])
    ensures FirstNotBlank(s, i) == at
    decreases at - i
  {
    if i < at {
      FirstAt(s, i + 1, at);
    }
  }

  lemma {:induction false} LastAt(s: string, n: nat, at: nat)
    requires 0 < at <= n <= |s| && (forall k :: at <= k < n ==> Blank(s[k])) && !Blank(s[at - 1])
    ensures LastNotBlank(s, n) == at
    decreases n
  {
    if at < n {
      LastAt(s, n - 1, at);
    }
  }

  /** All blanks at the ends of a body go, and nothing else. */
  lemma BlanksTrimmed(front: string, body: string, back: string)
    requires Blanks(front) && Blanks(back) && Bare(body)
    ensures Trim(front + (body + back)) == body
  {
    var s, a, b := front + (body + back), |front|, |front| + |body|;
    assert s[..a] == front && s[a..b] == body && s[b..] == back;
    forall k | 0 <= k < a ensures Blank(s[k]) {
      assert s[k] == front[k];
    }
    forall k | b <= k < |s| ensures Blank(s[k]) {
      assert s[k] == back[k - b];
    }
    assert s[a] == body[0] && s[b - 1] == body[|body| - 1];
    FirstAt(s, 0, a);
    LastAt(s, |s|, b);
  }

  // ---------------------------------------------------------------------------------------
  // One response
  // ---------------------------------------------------------------------------------------

  /** The names a sub-agent goes by. */
  predicate SubAgent(name: string) {
    || name == "sub_agent" || name == "subagent" || name == "delegate_subagent" || name == "delegate_task"
    || name == "spawn_subagent" || name == "run_subagent" || name == "sub_task" || name == "subtask"
    || name == "run_task" || name == "task_agent" || name == "tasks" || name == "run_tasks"
  }

  ghost predicate Holds(s: string, part: string) {
    exists i :: OccursAt(s, part, i)
  }

  /** One line that an earlier pass left: it says how many lines there were. */
  ghost predicate EarlierRecord(tool: string, lines: seq<string>)
    requires lines != []
  {
    |lines| == 1 && ("omitted " <= lines[0] || (tool <= lines[0] && Holds(lines[0], " lines")))
  }

  /** A body that begins by saying which lines of a file it shows. */
  ghost predicate Window(line: string) {
    |line| <= 80 && "lines " <= line && Holds(line, " of ")
  }

  function Named(name: string): string {
    if name == "" then "tool" else name
  }

  /** What is left of a body: the body if it is short, comes from a sub-agent or was shrunk before, and
      otherwise one line that names the tool, its target and how much there was. */
  ghost function Left(name: string, detail: string, lines: seq<string>, raw: string): string
    requires lines != []
  {
    if SubAgent(name) || EarlierRecord(Named(name), lines) || (|Joined(lines)| <= 240 && |lines| <= 3) then raw
    else
      "\n" + (((if detail == "" then Named(name) else Named(name) + (" " + detail))
              + (", " + (if Window(lines[0]) then lines[0] else Decimal(|lines|) + " lines"))) + "\n")
  }

  lemma HoldsFound(s: string, part: string)
    ensures Contains(s, part) <==> Holds(s, part)
  {
    if Contains(s, part) {
      assert OccursAt(s, part, Find(s, part, 0).value);
    }
  }

  lemma CommaLines(s: string)
    requires Contains(s, ", lines ")
    ensures Contains(s, " lines")
  {
    var at := Find(s, ", lines ", 0).value;
    assert ", lines "[1..7] == " lines";
    OccursIn(s, at, at + 8, " lines", 1);
  }

  lemma RecordIs(name: string, body: string, lines: seq<string>)
    requires lines != [] && (forall k :: 0 <= k < |lines| ==> NoBreak(lines[k])) && lines[|lines| - 1] != "" && body == Joined(lines)
    ensures AlreadyRecord(body, name) <==> EarlierRecord(Named(name), lines)
  {
    LinesCounted(lines);
    HoldsFound(body, " lines");
    if Contains(body, ", lines ") {
      CommaLines(body);
    }
    if |lines| == 1 {
      FindCharNone(body, '\n', 0);
    }
  }

  lemma AmountIs(body: string, lines: seq<string>)
    requires lines != [] && (forall k :: 0 <= k < |lines| ==> NoBreak(lines[k])) && lines[|lines| - 1] != "" && body == Joined(lines)
    ensures Amount(body) == if Window(lines[0]) then lines[0] else Decimal(|lines|) + " lines"
  {
    hide LineCount, Find;
    LinesCounted(lines);
    HoldsFound(lines[0], " of ");
  }

  lemma KeptIs(tag: string, name: string, lines: seq<string>, raw: string)
    requires Attribute(tag, "name") == name && lines != [] && Trim(raw) == Joined(lines)
    requires (forall k :: 0 <= k < |lines| ==> NoBreak(lines[k])) && lines[|lines| - 1] != ""
    ensures Kept(tag, raw) <==> SubAgent(name) || EarlierRecord(Named(name), lines) || (|Joined(lines)| <= 240 && |lines| <= 3)
  {
    hide Trim, Attribute, AlreadyRecord, LineCount, SubAgent, EarlierRecord;
    LinesCounted(lines);
    RecordIs(name, Joined(lines), lines);
    NamesAre(name);
  }

  lemma ShrunkRawIs(tag: string, name: string, detail: string, lines: seq<string>, front: string, back: string)
    requires Attribute(tag, "name") == name && Attribute(tag, "detail") == detail
    requires lines != [] && (forall k :: 0 <= k < |lines| ==> NoBreak(lines[k])) && Bare(Joined(lines)) && lines[|lines| - 1] != ""
    requires Blanks(front) && Blanks(back)
    ensures var raw := front + (Joined(lines) + back); ShrunkRaw(tag, raw) == Left(name, detail, lines, raw)
  {
    hide Trim, Attribute, Kept, Amount, Window, EarlierRecord, SubAgent, Joined;
    BlanksTrimmed(front, Joined(lines), back);
    KeptIs(tag, name, lines, front + (Joined(lines) + back));
    AmountIs(Joined(lines), lines);
  }

  lemma NamesAre(name: string)
    ensures name in SUBAGENT_NAMES <==> SubAgent(name)
  {
  }

  // ---------------------------------------------------------------------------------------
  // A response in its text
  // ---------------------------------------------------------------------------------------

  lemma FenceIs()
    ensures TOOL_RESPONSE.open == "<tool_response" && TOOL_RESPONSE.close == "</tool_response>"
  {
  }

  /** The scan of what is ahead is the scan of that text. */
  lemma SplitAhead(s: string, pos: nat, rest: string)
    requires Ahead(s, pos, rest)
    ensures SplitFrom(TOOL_RESPONSE, s, pos) == SplitFrom(TOOL_RESPONSE, rest, 0)
  {
    hide SplitFrom, Canonical, Render, NextCut;
    var f, h := TOOL_RESPONSE, SplitFrom(TOOL_RESPONSE, rest, 0);
    ToolResponseGood();
    SplitRenders(f, rest, 0, h);
    assert rest[0..] == rest;
    RenderSplits(f, h, s, pos);
  }

  /** A response is shrunk by itself, and what is behind it by itself. */
  lemma OneShrunk(gap: string, tag: string, raw: string, rest: string)
    requires Without(gap, "<tool_response") && TagShape(TOOL_RESPONSE, tag) && Without(tag + raw, "</tool_response>")
    ensures Shrink(gap + (tag + (raw + ("</tool_response>" + rest))))
         == gap + (tag + (ShrunkRaw(tag, raw) + ("</tool_response>" + Shrink(rest))))
  {
    hide SplitFrom, TagShape, Without, ShrunkRaw;
    var f, s := TOOL_RESPONSE, gap + (tag + (raw + ("</tool_response>" + rest)));
    var h := Response(gap, tag, raw, SplitFrom(f, rest, 0));
    FenceIs();
    ToolResponseGood();
    var next := |gap| + |tag| + |raw| + |f.close|;
    assert Ahead(s, 0, s);
    ResponseSplits(f, h, s, 0, next, rest);
    SplitAhead(s, next, rest);
  }

  lemma NotFound(s: string, mark: string)
    requires mark != "" && Without(s, mark)
    ensures Find(s, mark, 0).None?
  {
  }

  /** A text without a response stays as it is. */
  lemma NothingShrunk(s: string)
    requires Without(s, "<tool_response")
    ensures Shrink(s) == s
  {
    FenceIs();
    NotFound(s, "<tool_response");
    assert s[0..] == s;
  }

  /** A response that is not finished, and all behind it, stays as it is. */
  lemma UnclosedStays(gap: string, rest: string)
    requires Without(gap, "<tool_response") && Without("<tool_response" + rest, "</tool_response>")
    ensures Shrink(gap + ("<tool_response" + rest)) == gap + ("<tool_response" + rest)
  {
    hide FindChar;
    var s := gap + ("<tool_response" + rest);
    FenceIs();
    OpenGood();
    assert Ahead(s, 0, s);
    MarkAhead(s, 0, gap, "<tool_response", rest);
    AheadSplit(s, 0, gap, "<tool_response" + rest);
    FindAhead(s, |gap|, "<tool_response" + rest, "</tool_response>", 0);
    NotFound("<tool_response" + rest, "</tool_response>");
    assert s[0..] == s;
  }

  /** Text between the quotes of an attribute. */
  predicate Plain(s: string) {
    forall k :: 0 <= k < |s| ==> s[k] != '"' && s[k] != '<' && s[k] != '>'
  }

  lemma {:induction false} WordPlain(name: string)
    requires SafeName(name)
    ensures Plain(name)
  {
  }

  /** The tag with a name, a target, both or none. */
  function OpenText(name: string, detail: string): string {
    if name == "" && detail == "" then "<tool_response>"
    else if detail == "" then "<tool_response name=\"" + (name + "\">")
    else if name == "" then "<tool_response detail=\"" + (detail + "\">")
    else "<tool_response name=\"" + (name + ("\" detail=\"" + (detail + "\">")))
  }

  lemma Quoted()
    ensures "<tool_response" + " name=\"" == "<tool_response name=\"" && "\"" + ">" == "\">"
    ensures "<tool_response" + " detail=\"" == "<tool_response detail=\"" && "\"" + " detail=\"" == "\" detail=\""
    ensures "<tool_response" + ">" == "<tool_response>"
  {
  }

  lemma Glue(open: string, n: string, name: string, q: string, d: string, detail: string, close: string)
    ensures open + ((n + (name + q)) + ((d + (detail + q)) + close)) == (open + n) + (name + ((q + d) + (detail + (q + close))))
  {
  }

  lemma GlueOne(open: string, n: string, name: string, q: string, close: string)
    ensures open + ((n + (name + q)) + ("" + close)) == (open + n) + (name + (q + close))
    ensures open + ("" + ((n + (name + q)) + close)) == (open + n) + (name + (q + close))
    ensures open + ("" + ("" + close)) == open + close
  {
  }

  lemma OpenTextIs(name: string, detail: string)
    ensures Tag(name, detail) == OpenText(name, detail)
  {
    Quoted();
    Glue("<tool_response", " name=\"", name, "\"", " detail=\"", detail, ">");
    GlueOne("<tool_response", " name=\"", name, "\"", ">");
    GlueOne("<tool_response", " detail=\"", detail, "\"", ">");
  }

  /** A piece of a tag: no angle bracket in it. */
  lemma NoAngles(open: string, a: string)
    requires "<tool_response" <= open && (forall k :: 1 <= k < |open| ==> open[k] != '<' && open[k] != '>')
    requires forall k :: 0 <= k < |a| ==> a[k] != '<' && a[k] != '>'
    ensures "<tool_response" <= open + a && forall k :: 1 <= k < |open + a| ==> (open + a)[k] != '<' && (open + a)[k] != '>'
  {
    assert (open + a)[..14] == open[..14];
  }

  lemma Closes(open: string)
    requires "<tool_response" <= open && (forall k :: 1 <= k < |open| ==> open[k] != '<' && open[k] != '>')
    ensures var tag := open + ">"; TagShape(TOOL_RESPONSE, tag) && forall k :: 1 <= k < |tag| ==> tag[k] != '<'
  {
    assert (open + ">")[..14] == open[..14];
    assert open[..14][0] == '<';
  }

  /** A tag ends with its only closing bracket and begins with its only opening one. */
  lemma TagAngles(name: string, detail: string)
    requires Plain(name) && Plain(detail)
    ensures var tag := Tag(name, detail);
      && TagShape(TOOL_RESPONSE, tag) && (forall k :: 1 <= k < |tag| ==> tag[k] != '<')
  {
    var first := if name == "" then "" else " name=\"" + (name + "\"");
    var second := if detail == "" then "" else " detail=\"" + (detail + "\"");
    NoAngles("<tool_response", first);
    NoAngles("<tool_response" + first, second);
    Closes("<tool_response" + first + second);
    assert "<tool_response" + (first + (second + ">")) == ("<tool_response" + first + second) + ">";
  }

  /** Any response the server opens, in any text: its tag stays, its body is kept or becomes its
      record, and the text before it stays. */
  lemma ResponseShrinks(
    gap: string, name: string, detail: string, front: string, lines: seq<string>, back: string, rest: string)
    requires Without(gap, "<tool_response") && (name == "" || SafeName(name)) && Plain(detail)
    requires lines != [] && (forall k :: 0 <= k < |lines| ==> NoBreak(lines[k])) && Bare(Joined(lines)) && lines[|lines| - 1] != ""
    requires Blanks(front) && Blanks(back) && Without(front + (Joined(lines) + back), "</tool_response>")
    ensures var raw := front + (Joined(lines) + back);
      Shrink(gap + (OpenText(name, detail) + (raw + ("</tool_response>" + rest))))
      == gap + (OpenText(name, detail) + (Left(name, detail, lines, raw) + ("</tool_response>" + Shrink(rest))))
  {
    hide Shrink, Left, Without, ShrunkRaw;
    var tag, raw := OpenText(name, detail), front + (Joined(lines) + back);
    OpenTextIs(name, detail);
    AttributesAre(name, detail);
    if name != "" {
      WordPlain(name);
    }
    TagAngles(name, detail);
    CloseNotAcross(tag, raw);
    ShrunkRawIs(tag, name, detail, lines, front, back);
    OneShrunk(gap, tag, raw, rest);
  }

  lemma AttributesAre(name: string, detail: string)
    requires (name == "" || SafeName(name)) && Plain(detail)
    ensures Attribute(Tag(name, detail), "name") == name && Attribute(Tag(name, detail), "detail") == detail
  {
    if name != "" {
      NameAttribute(name, detail);
    } else {
      NoNameAttribute(detail);
    }
    if detail != "" {
      DetailAttribute(name, detail);
    } else {
      NoDetailAttribute(name);
    }
  }

  lemma CloseNotAcross(tag: string, raw: string)
    requires tag != "" && tag[|tag| - 1] == '>' && (forall k :: 1 <= k < |tag| ==> tag[k] != '<') && "<tool_response" <= tag
    requires Without(raw, "</tool_response>")
    ensures Without(tag + raw, "</tool_response>")
  {
    var s, mark := tag + raw, "</tool_response>";
    assert tag[..14][1] == "<tool_response"[1];
    assert s[|tag|..|s|] == raw;
    forall i | 0 <= i < |s| ensures !OccursAt(s, mark, i) {
      if OccursAt(s, mark, i) {
        OccursChar(s, mark, i, 0);
        OccursChar(s, mark, i, 1);
        if i >= |tag| {
          OccursInside(s, |tag|, |s|, mark, i);
        }
      }
    }
  }

  // ---------------------------------------------------------------------------------------
  // The tag that is printed
  // ---------------------------------------------------------------------------------------

  predicate LineEnd(c: char) {
    c == '\n' || c == '\r'
  }

  /** What would end the tag or an attribute is shown as a space. */
  function Shown(c: char): char {
    if c == '"' || c == '<' || c == '>' || c == '\t' then ' ' else c
  }

  lemma {:induction false} CutIs(text: string, i: nat, n: nat)
    requires i <= n <= |text| && n <= 160 && (forall k :: i <= k < n ==> !LineEnd(text[k]))
    requires n < |text| && n < 160 ==> LineEnd(text[n])
    ensures CutAt(text, i) == n
    decreases n - i
  {
    if i < n {
      CutIs(text, i + 1, n);
    }
  }

  /** The target in a tag is the first line of the detail, at most 160 characters of it. */
  lemma DetailShown(line: string, rest: string, shown: string)
    requires (forall k :: 0 <= k < |line| ==> !LineEnd(line[k])) && |line| <= 160
    requires |line| < 160 && rest != "" ==> LineEnd(rest[0])
    requires |shown| == |line| && forall k :: 0 <= k < |line| ==> shown[k] == Shown(line[k])
    requires shown != "" ==> shown[0] != ' ' && shown[|shown| - 1] != ' '
    ensures Sanitized(line + rest) == shown
  {
    var text := line + rest;
    forall k | 0 <= k < |line| ensures text[k] == line[k] {
    }
    CutIs(text, 0, |line|);
    assert Cleaned(text) == shown;
  }

  /** The name is shown when it is one word of at most 64 letters, digits, dashes and underscores. */
  lemma TagPrinted(name: string, line: string, rest: string, shown: string)
    requires (forall k :: 0 <= k < |line| ==> !LineEnd(line[k])) && |line| <= 160
    requires |line| < 160 && rest != "" ==> LineEnd(rest[0])
    requires |shown| == |line| && forall k :: 0 <= k < |line| ==> shown[k] == Shown(line[k])
    requires shown != "" ==> shown[0] != ' ' && shown[|shown| - 1] != ' '
    ensures var safe := |name| <= 64 && forall k :: 0 <= k < |name| ==>
        'a' <= name[k] <= 'z' || 'A' <= name[k] <= 'Z' || '0' <= name[k] <= '9' || name[k] == '_' || name[k] == '-';
      OpenTag(name, line + rest) == OpenText(if safe then name else "", shown)
  {
    hide Sanitized, Tag, OpenText;
    DetailShown(line, rest, shown);
    OpenTextIs(if SafeName(name) then name else "", shown);
  }
}
