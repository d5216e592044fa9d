/** Shrinking the tool responses of a conversation to one line each
    (`src/server/sessions/tool_history.cpp`). */
module ToolHistory {
  import opened Strings
  import opened TextSearch
  import opened Trimming
  import opened ToolTags

  const KEEP_CHARS: nat := 240
  const KEEP_LINES: nat := 3

  /** What opens a response, in front of its attributes, and what closes it. */
  datatype Fence = Fence(open: string, close: string)

  const TOOL_RESPONSE := Fence("<tool_response", "</tool_response>")

  const SUBAGENT_NAMES := [
    "sub_agent", "subagent", "delegate_subagent", "delegate_task", "spawn_subagent", "run_subagent",
    "sub_task", "subtask", "run_task", "task_agent", "tasks", "run_tasks"]

  // ---------------------------------------------------------------------------------------
  // Responses in a text
  // ---------------------------------------------------------------------------------------

  /** A text as the scanner sees it: a response is the text before it, its tag, and what is between
      the tag and the closing mark. */
  datatype History = Rest(text: string) | Response(gap: string, tag: string, raw: string, more: History)

  /** Where a response begins, where its tag ends, and where its closing mark begins. */
  datatype Cut = Cut(start: nat, tagEnd: nat, end: nat)

  /** The next response, if it is closed behind its tag. (A tag never ends on the very index where
      the closing mark begins: the mark has no `>` there.) */
  function NextCut(f: Fence, s: string, pos: nat): (r: Option<Cut>)
    ensures r.Some? ==> pos <= r.value.start <= r.value.tagEnd < r.value.end && r.value.end + |f.close| <= |s|
  {
    match Find(s, f.open, pos)
    case None => None
    case Some(start) =>
      match FindChar(s, '>', start)
      case None => None
      case Some(tagEnd) =>
        match Find(s, f.close, start)
        case None => None
        case Some(end) => if tagEnd >= end then None else Some(Cut(start, tagEnd, end))
  }

  /** The text from `pos` on. The scan stops where the next response is not complete. */
  function SplitFrom(f: Fence, s: string, pos: nat): History
    requires pos <= |s| && f.close != ""
    decreases |s| - pos
  {
    match NextCut(f, s, pos)
    case None => Rest(s[pos..])
    case Some(c) =>
      Response(s[pos..c.start], s[c.start..c.tagEnd + 1], s[c.tagEnd + 1..c.end], SplitFrom(f, s, c.end + |f.close|))
  }

  lemma PartsOf(f: Fence, s: string, pos: nat, c: Cut, h: History)
    requires f.close != "" && pos <= |s| && NextCut(f, s, pos) == Some(c) && h == SplitFrom(f, s, pos)
    ensures h.Response? && h.gap == s[pos..c.start] && h.tag == s[c.start..c.tagEnd + 1] && h.raw == s[c.tagEnd + 1..c.end]
    ensures h.more == SplitFrom(f, s, c.end + |f.close|)
  {
    hide NextCut;
  }

  lemma RestOf(f: Fence, s: string, pos: nat, h: History)
    requires f.close != "" && pos <= |s| && NextCut(f, s, pos) == None && h == SplitFrom(f, s, pos)
    ensures h == Rest(s[pos..])
  {
    hide NextCut;
  }

  function Render(f: Fence, h: History): string {
    match h
    case Rest(text) => text
    case Response(gap, tag, raw, more) => gap + (tag + (raw + (f.close + Render(f, more))))
  }

  // ---------------------------------------------------------------------------------------
  // One response
  // ---------------------------------------------------------------------------------------

  function Newlines(s: string): nat {
    if s == "" then 0 else Newlines(s[..|s| - 1]) + (if s[|s| - 1] == '\n' then 1 else 0)
  }

  function LineCount(s: string): nat {
    if s == "" then 0 else if s[|s| - 1] == '\n' then Newlines(s) else Newlines(s) + 1
  }

  method CountLines(text: string) returns (count: nat)
    ensures count == LineCount(text)
  {
    if text == "" {
      return 0;
    }
    count := 1;
    for i := 0 to |text|
      invariant count == 1 + Newlines(text[..i])
    {
      assert text[..i + 1][..i] == text[..i];
      if text[i] == '\n' {
        count := count + 1;
      }
    }
    assert text[..|text|] == text;
    if text[|text| - 1] == '\n' {
      count := count - 1;
    }
  }

  predicate Contains(s: string, p: string) {
    Find(s, p, 0).Some?
  }

  function FirstLine(body: string): string {
    match FindChar(body, '\n', 0) case None => body case Some(nl) => body[..nl]
  }

  /** `lines a-b of n` at the head of a partial file. */
  function LineWindow(body: string): string {
    var first := FirstLine(body);
    if |first| > 80 || !("lines " <= first) || !Contains(first, " of ") then "" else first
  }

  function Label(name: string): string {
    if name == "" then "tool" else name
  }

  predicate AlreadyRecord(body: string, name: string) {
    && FindChar(body, '\n', 0).None?
    && ("omitted " <= body || (Label(name) <= body && (Contains(body, ", lines ") || Contains(body, " lines"))))
  }

  function Lead(name: string, detail: string): string {
    if detail == "" then Label(name) else Label(name) + (" " + detail)
  }

  function Amount(body: string): string {
    if LineWindow(body) != "" then LineWindow(body) else Decimal(LineCount(body)) + " lines"
  }

  /** The one line that stands for a body. */
  function RecordLine(name: string, detail: string, body: string): string {
    Lead(name, detail) + (", " + Amount(body))
  }

  predicate Small(body: string) {
    |body| <= KEEP_CHARS && LineCount(body) <= KEEP_LINES
  }

  predicate Kept(tag: string, raw: string) {
    var body, name := Trim(raw), Attribute(tag, "name");
    name in SUBAGENT_NAMES || AlreadyRecord(body, name) || Small(body)
  }

  function ShrunkRaw(tag: string, raw: string): string {
    if Kept(tag, raw) then raw
    else "\n" + (RecordLine(Attribute(tag, "name"), Attribute(tag, "detail"), Trim(raw)) + "\n")
  }

  /** The gaps, the tags and the number of responses stay as they are. */
  function Shrunk(h: History): History {
    match h
    case Rest(_) => h
    case Response(gap, tag, raw, more) => Response(gap, tag, ShrunkRaw(tag, raw), Shrunk(more))
  }

  function Shrink(s: string): string {
    Render(TOOL_RESPONSE, Shrunk(SplitFrom(TOOL_RESPONSE, s, 0)))
  }

  method ShrinkToolResponses(text: string) returns (out: string)
    ensures out == Shrink(text)
  {
    out := ShrinkFenced(TOOL_RESPONSE, text);
  }

  method ShrinkFenced(f: Fence, text: string) returns (out: string)
    requires f.close != "" && f.close[0] != '>'
    ensures out == Render(f, Shrunk(SplitFrom(f, text, 0)))
  {
    if Find(text, f.open, 0).None? {
      assert text[0..] == text;
      return text;
    }
    out := "";
    var pos := 0;
    ghost var ahead := SplitFrom(f, text, 0);
    ghost var whole := Render(f, Shrunk(ahead));
    while pos < |text|
      invariant pos <= |text| && ahead == SplitFrom(f, text, pos)
      invariant out + Render(f, Shrunk(ahead)) == whole
      decreases |text| - pos
    {
      var next := NextResponse(f, text, pos, ahead);
      match next {
        case None =>
          out := out + text[pos..];
          return;
        case Some((gap, tag, raw, behind)) =>
          var shown := ShrinkOne(tag, raw);
          ghost var more := ahead.more;
          ShrinkStep(f, ahead, gap, tag, raw, more, out, shown);
          out := out + gap + (tag + (shown + f.close));
          pos, ahead := behind, more;
      }
    }
  }

  /** The next response: the text before it, its tag, its body, and where it ends. */
  method NextResponse(f: Fence, text: string, pos: nat, ghost here: History) returns (r: Option<(string, string, string, nat)>)
    requires f.close != "" && f.close[0] != '>' && pos <= |text| && here == SplitFrom(f, text, pos)
    ensures r.None? ==> here == Rest(text[pos..])
    ensures r.Some? ==> pos < r.value.3 <= |text| && here.Response?
    ensures r.Some? ==> here == Response(r.value.0, r.value.1, r.value.2, here.more) && here.more == SplitFrom(f, text, r.value.3)
  {
    hide SplitFrom, Find, FindChar;
    if NextCut(f, text, pos).None? {
      RestOf(f, text, pos, here);
    } else {
      PartsOf(f, text, pos, NextCut(f, text, pos).value, here);
    }
    var start := Find(text, f.open, pos);
    if start.None? {
      return None;
    }
    var tagEnd := FindChar(text, '>', start.value);
    var end := Find(text, f.close, start.value);
    if end.Some? {
      OccursChar(text, f.close, end.value, 0);
    }
    if tagEnd.None? || end.None? || tagEnd.value > end.value {
      return None;
    }
    assert NextCut(f, text, pos) == Some(Cut(start.value, tagEnd.value, end.value));
    r := Some((text[pos..start.value], text[start.value..tagEnd.value + 1], text[tagEnd.value + 1..end.value],
               end.value + |f.close|));
  }

  lemma ShrinkStep(f: Fence, h: History, gap: string, tag: string, raw: string, more: History, out: string, shown: string)
    requires h == Response(gap, tag, raw, more) && shown == ShrunkRaw(tag, raw)
    ensures out + Render(f, Shrunk(h)) == out + gap + (tag + (shown + f.close)) + Render(f, Shrunk(more))
  {
    RenderStep(out, gap, tag, shown, f.close, Render(f, Shrunk(more)));
  }

  lemma RenderStep(done: string, gap: string, tag: string, raw: string, close: string, more: string)
    ensures done + (gap + (tag + (raw + (close + more)))) == done + gap + (tag + (raw + close)) + more
  {
  }

  method ShrinkOne(tag: string, raw: string) returns (shown: string)
    ensures shown == ShrunkRaw(tag, raw)
  {
    var body := Trim(raw);
    var name := Attribute(tag, "name");
    var detail := Attribute(tag, "detail");
    var lines := CountLines(body);
    var small := |body| <= KEEP_CHARS && lines <= KEEP_LINES;
    if name in SUBAGENT_NAMES || AlreadyRecord(body, name) || small {
      shown := raw;
    } else {
      shown := "\n" + (RecordLine(name, detail, body) + "\n");
    }
  }

  // ---------------------------------------------------------------------------------------
  // Splitting and rendering are inverse
  // ---------------------------------------------------------------------------------------

  /** What the proofs below use of the two marks. */
  predicate GoodFence(f: Fence) {
    && Rigid(f.open) && (forall k :: 0 <= k < |f.open| ==> f.open[k] != '>')
    && Rigid(f.close) && |f.close| >= 2 && f.close[0] == '<' && f.close[|f.close| - 1] == '>'
    && forall k :: 0 <= k < |f.close| ==> f.close[k] != '\n' && f.close[k] != ',' && f.close[k] != ' '
  }

  lemma OpenGood()
    ensures Rigid("<tool_response") && forall k :: 0 <= k < |"<tool_response"| ==> "<tool_response"[k] != '>'
  {
  }

  lemma CloseGood()
    ensures var close := "</tool_response>";
      && Rigid(close) && close[|close| - 1] == '>'
      && forall k :: 0 <= k < |close| ==> close[k] != '\n' && close[k] != ',' && close[k] != ' '
  {
  }

  lemma ToolResponseGood()
    ensures GoodFence(TOOL_RESPONSE)
  {
    OpenGood();
    CloseGood();
  }

  /** A tag starts with the opening mark and ends with its only `>`. */
  predicate TagShape(f: Fence, tag: string) {
    && f.open <= tag && tag != "" && tag[|tag| - 1] == '>'
    && forall k :: 0 <= k < |tag| - 1 ==> tag[k] != '>'
  }

  /** A history some text splits into. */
  predicate Canonical(f: Fence, h: History)
    requires f.close != ""
  {
    match h
    case Rest(text) => SplitFrom(f, text, 0) == h
    case Response(gap, tag, raw, more) =>
      Without(gap, f.open) && TagShape(f, tag) && Without(tag + raw, f.close) && Canonical(f, more)
  }

  lemma LeftmostWithout(s: string, from: nat, at: nat, mark: string)
    requires Find(s, mark, from) == Some(at)
    ensures from <= at <= |s| && Without(s[from..at], mark)
  {
    forall i | 0 <= i < at - from ensures !OccursAt(s[from..at], mark, i) {
      if OccursAt(s[from..at], mark, i) {
        OccursIn(s, from, at, mark, i);
      }
    }
  }

  lemma FindCharAhead(s: string, pos: nat, t: string, c: char, k: nat)
    requires Ahead(s, pos, t)
    ensures FindChar(s, c, pos + k) == Shifted(FindChar(t, c, k), pos)
    decreases |t| - k
  {
    if k < |t| {
      assert s[pos + k] == t[k];
      if t[k] != c {
        FindCharAhead(s, pos, t, c, k + 1);
      }
    }
  }

  /** Whether there is a next response depends only on what is ahead. */
  lemma CutAhead(f: Fence, s: string, pos: nat, t: string)
    requires Ahead(s, pos, t)
    ensures NextCut(f, s, pos).None? <==> NextCut(f, t, 0).None?
  {
    FindAhead(s, pos, t, f.open, 0);
    match Find(t, f.open, 0)
    case None =>
    case Some(start) =>
      FindCharAhead(s, pos, t, '>', start);
      FindAhead(s, pos, t, f.close, start);
  }

  /** The four cuts of a response. */
  lemma Cuts(s: string, a: nat, b: nat, c: nat, d: nat, close: string)
    requires a <= b <= c <= d && d + |close| <= |s| && s[d..d + |close|] == close
    ensures s[a..] == s[a..b] + (s[b..c] + (s[c..d] + (close + s[d + |close|..])))
  {
  }

  lemma NoAngleInMark(s: string, mark: string, start: nat)
    requires OccursAt(s, mark, start) && forall k :: 0 <= k < |mark| ==> mark[k] != '>'
    ensures forall k :: start <= k < start + |mark| ==> s[k] != '>'
  {
    forall k | start <= k < start + |mark| ensures s[k] != '>' {
      OccursChar(s, mark, start, k - start);
    }
  }

  lemma TagCut(f: Fence, s: string, start: nat, tagEnd: nat)
    requires GoodFence(f) && OccursAt(s, f.open, start) && FindChar(s, '>', start) == Some(tagEnd)
    ensures tagEnd < |s| && TagShape(f, s[start..tagEnd + 1])
  {
    var tag := s[start..tagEnd + 1];
    NoAngleInMark(s, f.open, start);
    assert s[tagEnd] == '>' && tagEnd >= start + |f.open|;
    assert f.open == s[start..start + |f.open|] == tag[..|f.open|];
    assert forall k :: 0 <= k < |tag| ==> tag[k] == s[start + k];
  }

  lemma CutFinds(f: Fence, s: string, pos: nat, c: Cut)
    requires NextCut(f, s, pos) == Some(c)
    ensures Find(s, f.open, pos) == Some(c.start) && FindChar(s, '>', c.start) == Some(c.tagEnd)
    ensures Find(s, f.close, c.start) == Some(c.end) && c.tagEnd < c.end
  {
  }

  /** What a response that was cut out of a text looks like. */
  lemma CutShape(f: Fence, s: string, pos: nat, c: Cut)
    requires GoodFence(f) && pos <= |s| && NextCut(f, s, pos) == Some(c)
    ensures Without(s[pos..c.start], f.open) && TagShape(f, s[c.start..c.tagEnd + 1])
    ensures Without(s[c.start..c.tagEnd + 1] + s[c.tagEnd + 1..c.end], f.close) && s[c.end..c.end + |f.close|] == f.close
  {
    hide NextCut, Find, FindChar, TagShape, Without, GoodFence;
    CutFinds(f, s, pos, c);
    assert Without(s[pos..c.start], f.open) by {
      LeftmostWithout(s, pos, c.start, f.open);
    }
    assert TagShape(f, s[c.start..c.tagEnd + 1]) by {
      TagCut(f, s, c.start, c.tagEnd);
    }
    assert Without(s[c.start..c.tagEnd + 1] + s[c.tagEnd + 1..c.end], f.close) by {
      LeftmostWithout(s, c.start, c.end, f.close);
      assert s[c.start..c.tagEnd + 1] + s[c.tagEnd + 1..c.end] == s[c.start..c.end];
    }
  }

  /** A response the scan found, as the text it was found in. */
  lemma ResponseText(f: Fence, s: string, pos: nat, c: Cut, h: History)
    requires GoodFence(f) && pos <= |s| && NextCut(f, s, pos) == Some(c) && h == SplitFrom(f, s, pos)
    ensures h.Response? && s[pos..] == h.gap + (h.tag + (h.raw + (f.close + s[c.end + |f.close|..])))
  {
    hide NextCut;
    assert s[c.end..c.end + |f.close|] == f.close by {
      CutShape(f, s, pos, c);
    }
    Cuts(s, pos, c.start, c.tagEnd + 1, c.end, f.close);
    PartsOf(f, s, pos, c, h);
  }

  lemma ResponseShape(f: Fence, s: string, pos: nat, c: Cut, h: History)
    requires GoodFence(f) && pos <= |s| && NextCut(f, s, pos) == Some(c) && h == SplitFrom(f, s, pos)
    ensures h.Response? && Without(h.gap, f.open) && TagShape(f, h.tag) && Without(h.tag + h.raw, f.close)
  {
    hide NextCut;
    CutShape(f, s, pos, c);
    PartsOf(f, s, pos, c, h);
  }

  /** Rendering what a text splits into gives the text back. */
  lemma {:induction false} SplitRenders(f: Fence, s: string, pos: nat, h: History)
    requires GoodFence(f) && pos <= |s| && h == SplitFrom(f, s, pos)
    ensures Canonical(f, h) && Render(f, h) == s[pos..]
    decreases h
  {
    hide NextCut;
    if h.Rest? {
      RestRenders(f, s, pos);
    } else {
      var c := NextCut(f, s, pos).value;
      var next := c.end + |f.close|;
      assert h.more == SplitFrom(f, s, next) by {
        PartsOf(f, s, pos, c, h);
      }
      ResponseText(f, s, pos, c, h);
      ResponseShape(f, s, pos, c, h);
      SplitRenders(f, s, next, h.more);
    }
  }

  lemma RestRenders(f: Fence, s: string, pos: nat)
    requires f.close != "" && pos <= |s| && SplitFrom(f, s, pos).Rest?
    ensures Canonical(f, SplitFrom(f, s, pos)) && Render(f, SplitFrom(f, s, pos)) == s[pos..]
  {
    var t := s[pos..];
    CutAhead(f, s, pos, t);
    assert t[0..] == t;
  }

  lemma TagAhead(f: Fence, s: string, start: nat, tag: string, rest: string)
    requires TagShape(f, tag) && Ahead(s, start, tag + rest)
    ensures FindChar(s, '>', start) == Some(start + |tag| - 1)
  {
    forall k | 0 <= k < |tag| ensures s[start + k] == tag[k] {
      assert (tag + rest)[k] == tag[k];
    }
    forall k | start <= k < start + |tag| - 1 ensures s[k] != '>' {
      assert s[start + (k - start)] == tag[k - start];
    }
    FindCharIs(s, '>', start, start + |tag| - 1);
  }

  /** Where the parts of a response ahead are found. */
  lemma ResponseAhead(f: Fence, s: string, pos: nat, gap: string, tag: string, raw: string, rest: string)
    requires GoodFence(f) && Without(gap, f.open) && TagShape(f, tag) && Without(tag + raw, f.close)
    requires Ahead(s, pos, gap + (tag + (raw + (f.close + rest))))
    ensures var start := pos + |gap|;
      NextCut(f, s, pos) == Some(Cut(start, start + |tag| - 1, start + |tag| + |raw|))
  {
    hide Find, FindChar, TagShape, Without, Ahead, Rigid;
    var start, behind := pos + |gap|, raw + (f.close + rest);
    assert Find(s, f.open, pos) == Some(start) by {
      OpenAhead(f, s, pos, gap, tag, behind);
    }
    assert Ahead(s, start, tag + behind) by {
      AheadSplit(s, pos, gap, tag + behind);
    }
    assert FindChar(s, '>', start) == Some(start + |tag| - 1) by {
      TagAhead(f, s, start, tag, behind);
    }
    var front, end := tag + raw, start + |tag| + |raw|;
    assert tag + behind == front + (f.close + rest);
    assert end == start + |front|;
    assert Find(s, f.close, start) == Some(end) by {
      MarkAhead(s, start, front, f.close, rest);
    }
  }

  lemma OpenAhead(f: Fence, s: string, pos: nat, gap: string, tag: string, behind: string)
    requires GoodFence(f) && Without(gap, f.open) && TagShape(f, tag) && Ahead(s, pos, gap + (tag + behind))
    ensures Find(s, f.open, pos) == Some(pos + |gap|)
  {
    var attrs := tag[|f.open|..];
    assert tag + behind == f.open + (attrs + behind);
    MarkAhead(s, pos, gap, f.open, attrs + behind);
  }

  /** The slices of a response ahead. */
  lemma SlicesAhead(s: string, pos: nat, gap: string, tag: string, raw: string, close: string, rest: string)
    requires Ahead(s, pos, gap + (tag + (raw + (close + rest))))
    ensures var b, c, d := pos + |gap|, pos + |gap| + |tag|, pos + |gap| + |tag| + |raw|;
      && d + |close| <= |s| && s[pos..b] == gap && s[b..c] == tag && s[c..d] == raw && Ahead(s, d + |close|, rest)
  {
    var b, c, d := pos + |gap|, pos + |gap| + |tag|, pos + |gap| + |tag| + |raw|;
    AheadSplit(s, pos, gap, tag + (raw + (close + rest)));
    AheadSplit(s, b, tag, raw + (close + rest));
    AheadSplit(s, c, raw, close + rest);
    AheadSplit(s, d, close, rest);
  }

  lemma SplitIs(f: Fence, s: string, pos: nat, c: Cut, next: nat, h: History)
    requires f.close != "" && pos <= |s| && NextCut(f, s, pos) == Some(c) && h.Response? && next == c.end + |f.close|
    requires s[pos..c.start] == h.gap && s[c.start..c.tagEnd + 1] == h.tag && s[c.tagEnd + 1..c.end] == h.raw
    requires h.more == SplitFrom(f, s, next)
    ensures SplitFrom(f, s, pos) == h
  {
    hide NextCut;
  }

  lemma RestSplits(f: Fence, h: History, s: string, pos: nat)
    requires f.close != "" && h.Rest? && Canonical(f, h) && Ahead(s, pos, h.text)
    ensures SplitFrom(f, s, pos) == h
  {
    hide NextCut;
    CutAhead(f, s, pos, h.text);
    assert s[pos..] == h.text;
  }

  /** A response ahead, in front of text that splits into what follows it. */
  lemma ResponseSplits(f: Fence, h: History, s: string, pos: nat, next: nat, rest: string)
    requires GoodFence(f) && h.Response? && Without(h.gap, f.open) && TagShape(f, h.tag) && Without(h.tag + h.raw, f.close)
    requires Ahead(s, pos, h.gap + (h.tag + (h.raw + (f.close + rest)))) && next == pos + |h.gap| + |h.tag| + |h.raw| + |f.close|
    ensures pos < next <= |s| && Ahead(s, next, rest)
    ensures SplitFrom(f, s, next) == h.more ==> SplitFrom(f, s, pos) == h
  {
    hide NextCut, SplitFrom, TagShape, Without, Ahead, Rigid;
    var start := pos + |h.gap|;
    var tagEnd, end := start + |h.tag| - 1, start + |h.tag| + |h.raw|;
    SlicesAhead(s, pos, h.gap, h.tag, h.raw, f.close, rest);
    ResponseAhead(f, s, pos, h.gap, h.tag, h.raw, rest);
    var c := Cut(start, tagEnd, end);
    assert next == c.end + |f.close|;
    if h.more == SplitFrom(f, s, next) {
      SplitIs(f, s, pos, c, next, h);
    }
  }

  /** Splitting what a canonical history renders to gives the history back. */
  lemma {:induction false} RenderSplits(f: Fence, h: History, s: string, pos: nat)
    requires GoodFence(f) && Canonical(f, h) && Ahead(s, pos, Render(f, h))
    ensures SplitFrom(f, s, pos) == h
    decreases h
  {
    if h.Rest? {
      RestSplits(f, h, s, pos);
    } else {
      var next := pos + |h.gap| + |h.tag| + |h.raw| + |f.close|;
      ResponseSplits(f, h, s, pos, next, Render(f, h.more));
      RenderSplits(f, h.more, s, next);
    }
  }

  // ---------------------------------------------------------------------------------------
  // Shrinking again changes nothing
  // ---------------------------------------------------------------------------------------

  predicate NoBreak(s: string) {
    forall k :: 0 <= k < |s| ==> s[k] != '\n'
  }

  /** A tag whose attributes can stand at the head of a one-line record. */
  predicate TameTag(tag: string) {
    var name, detail := Attribute(tag, "name"), Attribute(tag, "detail");
    NoBreak(name) && NoBreak(detail) && (name != "" ==> !IsBlank(name[0]))
  }

  predicate Tame(h: History) {
    h.Response? ==> TameTag(h.tag) && Tame(h.more)
  }

  lemma AttributeInTag(f: Fence, tag: string, key: string)
    requires TagShape(f, tag)
    ensures NoAngle(Attribute(tag, key))
  {
  }

  lemma LeadShape(name: string, detail: string)
    ensures var lead := Lead(name, detail);
      && Label(name) <= lead
      && (NoBreak(name) && NoBreak(detail) ==> NoBreak(lead))
      && ((name != "" ==> !IsBlank(name[0])) ==> !IsBlank(lead[0]))
      && (NoAngle(name) && NoAngle(detail) ==> NoAngle(lead))
  {
  }

  lemma FirstLinePart(body: string)
    ensures FirstLine(body) <= body && NoBreak(FirstLine(body))
  {
  }

  lemma TrimPart(s: string) returns (a: nat, b: nat)
    ensures a <= b <= |s| && Trim(s) == s[a..b]
  {
    a, b := FirstNotBlank(s, 0), LastNotBlank(s, |s|);
    if a >= b {
      a, b := 0, 0;
    }
  }

  /** A line window is a piece of the body. */
  lemma WindowPart(raw: string) returns (a: nat, b: nat)
    ensures a <= b <= |raw| && LineWindow(Trim(raw)) == raw[a..b]
  {
    var i, j := TrimPart(raw);
    var body := Trim(raw);
    FirstLinePart(body);
    a, b := i, if LineWindow(body) == "" then i else i + |FirstLine(body)|;
    assert raw[i..j][..b - a] == raw[a..b];
  }

  /** The amount is one line and says ` lines` behind its comma. */
  lemma AmountShape(body: string) returns (p: nat)
    ensures NoBreak(Amount(body)) && OccursAt(", " + Amount(body), " lines", p)
  {
    var window, amount := LineWindow(body), Amount(body);
    var whole := ", " + amount;
    FirstLinePart(body);
    if window != "" {
      p := 1;
      assert window[..5] == "lines " [..5] && whole[1] == ' ';
      assert whole[1..7] == [' '] + window[..5];
    } else {
      var digits := Decimal(LineCount(body));
      p := 2 + |digits|;
      assert whole == (", " + digits) + " lines";
    }
  }

  /** A record is one line that starts with the label and says ` lines` at `p`. */
  lemma RecordShape(name: string, detail: string, body: string) returns (p: nat)
    requires NoBreak(name) && NoBreak(detail) && (name != "" ==> !IsBlank(name[0]))
    ensures var record := RecordLine(name, detail, body);
      NoBreak(record) && Label(name) <= record && !IsBlank(record[0])
      && p >= |Label(name)| && OccursAt(record, " lines", p)
  {
    var lead, tail, record := Lead(name, detail), ", " + Amount(body), RecordLine(name, detail, body);
    LeadShape(name, detail);
    var q := AmountShape(body);
    p := |lead| + q;
    assert NoBreak(tail) && record == lead + tail;
    Prefixed(lead, tail, Label(name), q);
  }

  lemma Prefixed(lead: string, tail: string, word: string, q: nat)
    requires word <= lead && OccursAt(tail, " lines", q)
    ensures word <= lead + tail && OccursAt(lead + tail, " lines", |lead| + q)
  {
    var s := lead + tail;
    assert s[|lead| + q..|lead| + q + 6] == tail[q..q + 6];
    assert s[..|word|] == lead[..|word|];
  }

  /** What is left of a record when the newlines around it are trimmed off. */
  lemma TrimRecord(record: string, p: nat) returns (m: nat)
    requires record != "" && !IsBlank(record[0]) && OccursAt(record, " lines", p)
    ensures p + 6 <= m <= |record| && Trim("\n" + (record + "\n")) == record[..m]
  {
    var s := "\n" + (record + "\n");
    OccursChar(record, " lines", p, 5);
    assert s[1] == record[0] && s[p + 6] == record[p + 5] == 's';
    assert FirstNotBlank(s, 1) == 1 && FirstNotBlank(s, 0) == 1;
    LastAtLeast(s, |s|, p + 7);
    assert LastNotBlank(s, |s|) == LastNotBlank(s, |s| - 1);
    m := LastNotBlank(s, |s|) - 1;
    assert s[1..m + 1] == record[..m];
  }

  lemma RecordKept(name: string, record: string, p: nat, m: nat)
    requires NoBreak(record) && Label(name) <= record && p >= |Label(name)| && OccursAt(record, " lines", p)
    requires p + 6 <= m <= |record|
    ensures AlreadyRecord(record[..m], name)
  {
    var body := record[..m];
    FindCharNone(body, '\n', 0);
    assert body[..|Label(name)|] == record[..|Label(name)|];
    assert body[p..p + 6] == record[p..p + 6];
    assert OccursAt(body, " lines", p);
  }

  /** A body is kept, or what stands for it is, or that says the same amount as the body. */
  predicate Settles(tag: string, raw: string) {
    var shown := ShrunkRaw(tag, raw);
    Kept(tag, raw) || Kept(tag, shown) || Amount(Trim(shown)) == Amount(Trim(raw))
  }

  lemma SameRecord(lead: string, a: string, b: string)
    requires "\n" + (lead + (", " + a) + "\n") == "\n" + (lead + (", " + b) + "\n")
    ensures a == b
  {
    var s, t, n := "\n" + (lead + (", " + a) + "\n"), "\n" + (lead + (", " + b) + "\n"), |lead| + 3;
    assert s[n..|s| - 1] == a && t[n..|t| - 1] == b;
  }

  /** Shrinking a body again changes nothing exactly when it settles. */
  lemma ShrunkTwice(tag: string, raw: string)
    ensures ShrunkRaw(tag, ShrunkRaw(tag, raw)) == ShrunkRaw(tag, raw) <==> Settles(tag, raw)
  {
    hide Amount, Lead, Kept;
    var shown := ShrunkRaw(tag, raw);
    if !Kept(tag, raw) && !Kept(tag, shown) && ShrunkRaw(tag, shown) == shown {
      SameRecord(Lead(Attribute(tag, "name"), Attribute(tag, "detail")), Amount(Trim(shown)), Amount(Trim(raw)));
    }
  }

  /** Behind a tame tag every body does. */
  lemma TameTagSettles(tag: string, raw: string)
    requires TameTag(tag)
    ensures Settles(tag, raw)
  {
    if !Kept(tag, raw) {
      var name, detail := Attribute(tag, "name"), Attribute(tag, "detail");
      var record := RecordLine(name, detail, Trim(raw));
      var p := RecordShape(name, detail, Trim(raw));
      var m := TrimRecord(record, p);
      RecordKept(name, record, p, m);
    }
  }

  // ---------------------------------------------------------------------------------------
  // No closing mark in a record
  // ---------------------------------------------------------------------------------------

  lemma AmountWithout(f: Fence, tag: string, raw: string)
    requires GoodFence(f) && Without(tag + raw, f.close)
    ensures Without(Amount(Trim(raw)), f.close)
  {
    var body := Trim(raw);
    if LineWindow(body) != "" {
      assert raw == (tag + raw)[|tag|..|tag + raw|];
      SliceWithout(tag + raw, |tag|, |tag + raw|, f.close);
      var a, b := WindowPart(raw);
      SliceWithout(raw, a, b, f.close);
    } else {
      NoMarkStart(Amount(body), f.close);
    }
  }

  /** A mark without `c` does not straddle a `c`. */
  lemma NotAcross(s: string, mark: string, i: nat, at: nat)
    requires OccursAt(s, mark, i) && at < |s| && forall k :: 0 <= k < |mark| ==> mark[k] != s[at]
    ensures at < i || at >= i + |mark|
  {
    if i <= at < i + |mark| {
      OccursChar(s, mark, i, at - i);
    }
  }

  /** The closing mark is not in a shrunk response in front of its end. */
  lemma RecordWithout(f: Fence, tag: string, raw: string, lead: string, amount: string)
    requires GoodFence(f) && Without(tag + raw, f.close) && NoAngle(lead) && Without(amount, f.close)
    ensures Without(tag + ("\n" + (lead + (", " + amount) + "\n")), f.close)
  {
    var s := tag + ("\n" + (lead + (", " + amount) + "\n"));
    forall i | 0 <= i < |s| ensures !OccursAt(s, f.close, i) {
      if OccursAt(s, f.close, i) {
        RecordOccurs(f, tag, raw, lead, amount, s, i);
      }
    }
  }

  lemma RecordOccurs(f: Fence, tag: string, raw: string, lead: string, amount: string, s: string, i: nat)
    requires GoodFence(f) && NoAngle(lead) && s == tag + ("\n" + (lead + (", " + amount) + "\n")) && OccursAt(s, f.close, i)
    ensures OccursAt(tag + raw, f.close, i) || (i >= |tag| + |lead| + 3 && OccursAt(amount, f.close, i - (|tag| + |lead| + 3)))
  {
    MarkPlace(f, tag, lead, amount, s, i);
    var from, end := |tag| + |lead| + 3, i + |f.close|;
    if end <= |tag| {
      assert (tag + raw)[i..end] == s[i..end];
    } else {
      assert amount[i - from..end - from] == s[i..end];
    }
  }

  lemma MarkPlace(f: Fence, tag: string, lead: string, amount: string, s: string, i: nat)
    requires GoodFence(f) && NoAngle(lead) && s == tag + ("\n" + (lead + (", " + amount) + "\n")) && OccursAt(s, f.close, i)
    ensures var from, end := |tag| + |lead| + 3, i + |f.close|; end <= |tag| || (i >= from && end <= from + |amount|)
  {
    var n, from, last := |tag|, |tag| + |lead| + 3, i + |f.close| - 1;
    forall k | n < k < from - 2 ensures s[k] != '>' {
      assert s[k] == lead[k - n - 1];
    }
    OccursChar(s, f.close, i, |f.close| - 1);
    assert s[n] == '\n' && s[from - 2] == ',' && s[from - 1] == ' ' && s[from + |amount|] == '\n';
    NotAcross(s, f.close, i, n);
    NotAcross(s, f.close, i, from - 2);
    NotAcross(s, f.close, i, from - 1);
    NotAcross(s, f.close, i, from + |amount|);
  }

  lemma ShrunkWithout(f: Fence, tag: string, raw: string)
    requires GoodFence(f) && TagShape(f, tag) && Without(tag + raw, f.close)
    ensures Without(tag + ShrunkRaw(tag, raw), f.close)
  {
    if !Kept(tag, raw) {
      var name, detail := Attribute(tag, "name"), Attribute(tag, "detail");
      AttributeInTag(f, tag, "name");
      AttributeInTag(f, tag, "detail");
      LeadShape(name, detail);
      AmountWithout(f, tag, raw);
      RecordWithout(f, tag, raw, Lead(name, detail), Amount(Trim(raw)));
    }
  }

  lemma {:induction false} ShrunkCanonical(f: Fence, h: History)
    requires GoodFence(f) && Canonical(f, h)
    ensures Canonical(f, Shrunk(h))
  {
    match h
    case Rest(_) =>
    case Response(gap, tag, raw, more) =>
      ShrunkCanonical(f, more);
      ShrunkWithout(f, tag, raw);
  }

  predicate AllSettle(h: History) {
    h.Response? ==> Settles(h.tag, h.raw) && AllSettle(h.more)
  }

  lemma {:induction false} ShrunkAgain(h: History)
    ensures Shrunk(Shrunk(h)) == Shrunk(h) <==> AllSettle(h)
    ensures Tame(h) ==> AllSettle(h)
  {
    match h
    case Rest(_) =>
    case Response(gap, tag, raw, more) =>
      ShrunkAgain(more);
      ShrunkTwice(tag, raw);
      if TameTag(tag) {
        TameTagSettles(tag, raw);
      }
  }

  /** Shrinking is local: the shrunk text has the same gaps, tags and rest as the text. Shrinking it
      again changes nothing exactly when every body settles. */
  lemma ShrinkLocalAndIdempotent(s: string)
    ensures SplitFrom(TOOL_RESPONSE, Shrink(s), 0) == Shrunk(SplitFrom(TOOL_RESPONSE, s, 0))
    ensures Render(TOOL_RESPONSE, SplitFrom(TOOL_RESPONSE, s, 0)) == s
    ensures Shrink(Shrink(s)) == Shrink(s) <==> AllSettle(SplitFrom(TOOL_RESPONSE, s, 0))
  {
    hide SplitFrom, Shrunk, Render, Canonical, AllSettle;
    var f := TOOL_RESPONSE;
    var h := SplitFrom(f, s, 0);
    ToolResponseGood();
    SplitRenders(f, s, 0, h);
    assert s[0..] == s;
    ShrunkCanonical(f, h);
    ShrunkCanonical(f, Shrunk(h));
    RenderSplits(f, Shrunk(h), Shrink(s), 0);
    RenderSplits(f, Shrunk(Shrunk(h)), Render(f, Shrunk(Shrunk(h))), 0);
    ShrunkAgain(h);
  }

  /** Every tag `tool_response_open` prints is tame. */
  lemma PrintedTagsAreTame(name: string, detail: string)
    ensures TameTag(OpenTag(name, detail))
  {
    AttributesReadBack(name, detail);
    SanitizedClean(detail);
  }

  /** A text whose responses were all opened by `tool_response_open`. */
  ghost predicate Printed(h: History) {
    h.Response? ==> (exists name, detail :: h.tag == OpenTag(name, detail)) && Printed(h.more)
  }

  lemma {:induction false} PrintedIsTame(h: History)
    requires Printed(h)
    ensures Tame(h)
  {
    if h.Response? {
      var name, detail :| h.tag == OpenTag(name, detail);
      PrintedTagsAreTame(name, detail);
      PrintedIsTame(h.more);
    }
  }
}
