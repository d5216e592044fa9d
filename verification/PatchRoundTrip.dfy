/** The diff `edit_file` answers with is a patch it reads back and applies again
    (`src/common/tools/tool_edit_file.cpp`). */
module PatchRoundTrip {
  import opened Strings
  import opened TextLines
  import opened Splice
  import opened HunkPlacement
  import opened PatchParser
  import opened PatchPrinter

  // ---------------------------------------------------------------------------------------
  // Hunk header
  // ---------------------------------------------------------------------------------------

  lemma Peel(text: string, i: nat, piece: string, rest: string)
    requires i <= |text| && text[i..] == piece + rest
    ensures OccursAt(text, piece, i) && text[i + |piece|..] == rest
  {
    assert text[i..][..|piece|] == piece && text[i..][|piece|..] == rest;
  }

  lemma {:induction false} DigitsRead(text: string, i: nat, n: nat)
    requires OccursAt(text, Decimal(n), i)
    ensures ReadDigits(text, i, 0) == ReadDigits(text, i + |Decimal(n)|, n)
  {
    var d := Decimal(n);
    assert text[i..i + |d|] == d;
    if n >= 10 {
      var high := Decimal(n / 10);
      assert text[i..i + |high|] == d[..|high|] == high;
      DigitsRead(text, i, n / 10);
      assert text[i + |high|] == d[|high|] == Digit(n % 10);
    } else {
      assert text[i] == d[0];
    }
  }

  /** A printed number is read back, and reading stops right behind it. */
  lemma NumberReads(text: string, i: nat, n: nat, rest: string)
    requires i <= |text| && text[i..] == Decimal(n) + rest && (rest == "" || !IsDigit(rest[0]))
    ensures var next := i + |Decimal(n)|; IntAt(text, i) == Some((n, next)) && next <= |text| && text[next..] == rest
  {
    var d := Decimal(n);
    Peel(text, i, d, rest);
    DigitsRead(text, i, n);
    assert text[i] == d[0];
    assert rest != "" ==> text[i + |d|] == rest[0];
  }

  /** `start,count` stands at `at` and ends before `end`. */
  predicate RangeAt(text: string, at: nat, start: nat, count: nat, end: nat) {
    var first := IntAt(text, at);
    && first.Some? && first.value.0 == start
    && first.value.1 < |text| && text[first.value.1] == ','
    && IntAt(text, first.value.1 + 1) == Some((count, end))
  }

  /** A header line with two such ranges. */
  lemma HeaderShape(text: string, oldStart: nat, oldCount: nat, j: nat, newStart: nat, newCount: nat, end: nat)
    requires |text| >= 4 && text[..4] == "@@ -" && RangeAt(text, 4, oldStart, oldCount, j)
    requires j + 1 < |text| && text[j] == ' ' && text[j + 1] == '+' && RangeAt(text, j + 2, newStart, newCount, end)
    ensures HeaderOf(text) == Some((oldStart, oldCount))
  {
    assert text[0] == "@@ -"[0] && text[1] == "@@ -"[1] && text[2] == "@@ -"[2] && text[3] == "@@ -"[3];
    assert SkipSpaces(text, 2) == 3;
  }

  /** The text from `i` on is `rest`. */
  predicate From(text: string, i: nat, rest: string) {
    i <= |text| && text[i..] == rest
  }

  lemma PeelFrom(text: string, i: nat, piece: string, rest: string)
    requires From(text, i, piece + rest)
    ensures From(text, i + |piece|, rest) && forall k :: 0 <= k < |piece| ==> i + k < |text| && text[i + k] == piece[k]
  {
    Peel(text, i, piece, rest);
    assert text[i..i + |piece|] == piece;
  }

  lemma NumberFrom(text: string, i: nat, n: nat, rest: string)
    requires From(text, i, Decimal(n) + rest) && (rest == "" || !IsDigit(rest[0]))
    ensures From(text, i + |Decimal(n)|, rest) && IntAt(text, i) == Some((n, i + |Decimal(n)|))
  {
    NumberReads(text, i, n, rest);
  }

  /** A printed range is read back. */
  lemma RangeFrom(text: string, at: nat, start: nat, count: nat, a: string, b: string, rest: string) returns (end: nat)
    requires a == Decimal(start) + b && b == "," + (Decimal(count) + rest) && From(text, at, a)
    requires rest != "" && !IsDigit(rest[0])
    ensures RangeAt(text, at, start, count, end) && From(text, end, rest)
  {
    var i := at + |Decimal(start)|;
    end := i + 1 + |Decimal(count)|;
    assert b[0] == ',';
    NumberFrom(text, at, start, b);
    PeelFrom(text, i, ",", Decimal(count) + rest);
    assert ","[0] == ',' && i + 0 == i;
    NumberFrom(text, i + 1, count, rest);
  }

  lemma OldRange(text: string, start: nat, count: nat, r0: string, r1: string, rest: string) returns (j: nat)
    requires text == "@@ -" + r0 && r0 == Decimal(start) + r1 && r1 == "," + (Decimal(count) + rest)
    requires rest != "" && !IsDigit(rest[0])
    ensures |text| >= 4 && text[..4] == "@@ -" && RangeAt(text, 4, start, count, j) && From(text, j, rest)
  {
    assert From(text, 4, r0) by {
      assert text[0..] == text;
      PeelFrom(text, 0, "@@ -", r0);
    }
    j := RangeFrom(text, 4, start, count, r0, r1, rest);
  }

  lemma NewRange(text: string, j: nat, start: nat, count: nat, r2: string, r3: string, r4: string) returns (end: nat)
    requires From(text, j, r2) && r2 == " +" + r3 && r3 == Decimal(start) + r4 && r4 == "," + (Decimal(count) + " @@")
    ensures j + 1 < |text| && text[j] == ' ' && text[j + 1] == '+' && RangeAt(text, j + 2, start, count, end)
  {
    PeelFrom(text, j, " +", r3);
    assert j + 0 == j && text[j + 0] == " +"[0] && text[j + 1] == " +"[1];
    end := RangeFrom(text, j + 2, start, count, r3, r4, " @@");
  }

  /** A printed hunk header is read back. */
  lemma HeaderReads(oldStart: nat, oldCount: nat, newStart: nat, newCount: nat)
    ensures HeaderOf(HeaderText(oldStart, oldCount, newStart, newCount)) == Some((oldStart, oldCount))
  {
    var text := HeaderText(oldStart, oldCount, newStart, newCount);
    var r4 := "," + (Decimal(newCount) + " @@");
    var r3 := Decimal(newStart) + r4;
    var r2 := " +" + r3;
    var r1 := "," + (Decimal(oldCount) + r2);
    var r0 := Decimal(oldStart) + r1;
    assert text == "@@ -" + r0;
    var j := OldRange(text, oldStart, oldCount, r0, r1, r2);
    var end := NewRange(text, j, newStart, newCount, r2, r3, r4);
    HeaderShape(text, oldStart, oldCount, j, newStart, newCount, end);
  }

  // ---------------------------------------------------------------------------------------
  // Body lines
  // ---------------------------------------------------------------------------------------

  /** A removed or added line that, printed behind its mark, looks like a file header. */
  predicate LooksLikeHeader(line: PatchLine) {
    (line.kind == '-' && "-- " <= line.text) || (line.kind == '+' && "++ " <= line.text)
  }

  predicate Safe(line: PatchLine) {
    !EndsInReturn(line.text) && !LooksLikeHeader(line)
  }

  predicate Marks(lines: seq<PatchLine>) {
    forall k :: 0 <= k < |lines| ==> lines[k].kind == ' ' || lines[k].kind == '-' || lines[k].kind == '+'
  }

  predicate AllSafe(lines: seq<PatchLine>) {
    forall k :: 0 <= k < |lines| ==> Safe(lines[k])
  }

  function Shown(line: PatchLine): string {
    [line.kind] + line.text
  }

  function Grown(st: ParseState, lines: seq<PatchLine>): ParseState {
    st.(current := st.current.(lines := st.current.lines + lines))
  }

  lemma StartsWith(s: string, p: string)
    requires s != "" && p != ""
    ensures p <= s ==> s[0] == p[0]
  {
  }

  lemma ShownHeader(line: PatchLine)
    requires Marks([line])
    ensures FileHeaderLine(Shown(line)) <==> LooksLikeHeader(line)
    ensures line.kind == '-' ==> ("--- " <= Shown(line) <==> "-- " <= line.text)
    ensures line.kind == '+' ==> ("+++ " <= Shown(line) <==> "++ " <= line.text)
    ensures !("@@" <= Shown(line)) && !("diff --git " <= Shown(line))
    ensures line.kind != '-' ==> !("--- " <= Shown(line))
    ensures line.kind != '+' ==> !("+++ " <= Shown(line))
  {
    assert [line][0] == line;
    var s, t := Shown(line), line.text;
    assert s[1..] == t;
    assert |t| >= 3 ==> s[1..4] == t[..3] && s[..4] == [line.kind] + s[1..4];
    assert "--- " == ['-'] + "-- " && "+++ " == ['+'] + "++ ";
    assert "--- " <= s ==> s[..4] == "--- " && s[1..4] == "-- ";
    assert "+++ " <= s ==> s[..4] == "+++ " && s[1..4] == "++ ";
    StartsWith(s, "@@");
    StartsWith(s, "diff --git ");
    StartsWith(s, "--- ");
    StartsWith(s, "+++ ");
  }

  /** What a body line of any kind does that does not look like a header. */
  lemma PlainLine(st: ParseState, line: PatchLine)
    requires st.inHunk && Marks([line]) && !LooksLikeHeader(line)
    ensures Step(st, StripReturn(Shown(line))) == Ok(Grown(st, [PatchLine(line.kind, StripReturn(line.text))]))
  {
    var bare := PatchLine(line.kind, StripReturn(line.text));
    assert [line][0] == line && [bare][0] == bare;
    assert StripReturn(Shown(line)) == Shown(bare);
    assert !LooksLikeHeader(bare) by {
      assert bare.text <= line.text;
    }
    ShownHeader(bare);
    assert Shown(bare)[0] == bare.kind && Shown(bare)[1..] == bare.text;
  }

  /** Dropping a carriage return does not hide a file header. */
  lemma HeaderKept(text: string)
    ensures "-- " <= text ==> "-- " <= StripReturn(text)
    ensures "++ " <= text ==> "++ " <= StripReturn(text)
  {
    if "-- " <= text && EndsInReturn(text) {
      assert text[2] == "-- "[2];
      assert StripReturn(text)[..3] == text[..3];
    }
    if "++ " <= text && EndsInReturn(text) {
      assert text[2] == "++ "[2];
      assert StripReturn(text)[..3] == text[..3];
    }
  }

  /** How a line that looks like a header is read. */
  lemma HeaderShown(line: PatchLine)
    requires Marks([line]) && LooksLikeHeader(line)
    ensures var s := StripReturn(Shown(line));
      && !("@@" <= s) && FileHeaderLine(s) && !("diff --git " <= s)
      && (if line.kind == '+' then "+++ " <= s && !("--- " <= s) else "--- " <= s)
  {
    var bare := PatchLine(line.kind, StripReturn(line.text));
    assert [line][0] == line && [bare][0] == bare;
    assert StripReturn(Shown(line)) == Shown(bare);
    HeaderKept(line.text);
    ShownHeader(bare);
  }

  /** A line that looks like a header ends its hunk, and an added one ends the reading. */
  lemma HeaderLine(st: ParseState, line: PatchLine)
    requires st.inHunk && Marks([line]) && LooksLikeHeader(line) && st.newHeaders == 1
    ensures var shown, closed := StripReturn(Shown(line)), CloseHunk(st);
      if line.kind == '+' || closed.Err? then Step(st, shown).Err?
      else Step(st, shown) == Ok(closed.value) || Step(st, shown) == Ok(closed.value.(sawOldNull := true))
  {
    hide Shown, StripReturn, FileHeaderLine, LooksLikeHeader, HeaderPath;
    HeaderShown(line);
  }

  /** Behind such a line the rest of the hunk is passed over, unless it ends the reading. */
  lemma OutsideLineRead(st: ParseState, line: PatchLine)
    requires !st.inHunk && Marks([line]) && st.newHeaders == 1
    ensures var next := Step(st, StripReturn(Shown(line)));
      next.Err? || next == Ok(st) || next == Ok(st.(sawOldNull := true))
  {
    var bare := PatchLine(line.kind, StripReturn(line.text));
    assert [line][0] == line && [bare][0] == bare;
    assert StripReturn(Shown(line)) == Shown(bare);
    ShownHeader(bare);
  }

  lemma BodyStep(st: ParseState, lines: seq<PatchLine>, more: seq<string>)
    requires lines != []
    ensures ParseLines(st, StripReturns(BodyLines(lines) + more)) ==
      match Step(st, StripReturn(Shown(lines[0])))
      case Err(e) => Err(e)
      case Ok(next) => ParseLines(next, StripReturns(BodyLines(lines[1..]) + more))
  {
    var all := StripReturns(BodyLines(lines) + more);
    assert all[0] == StripReturn(Shown(lines[0]));
    assert all[1..] == StripReturns(BodyLines(lines[1..]) + more);
  }

  lemma NoBody(st: ParseState, more: seq<string>)
    ensures ParseLines(st, StripReturns(BodyLines([]) + more)) == ParseLines(st, StripReturns(more))
  {
    assert BodyLines([]) + more == more;
  }

  // ---------------------------------------------------------------------------------------
  // What a printed hunk is read as
  // ---------------------------------------------------------------------------------------

  /** Index of the first line that looks like a file header, or the number of lines. */
  function HeaderAt(lines: seq<PatchLine>): (n: nat)
    ensures n <= |lines| && forall k :: 0 <= k < n ==> !LooksLikeHeader(lines[k])
    ensures n < |lines| ==> LooksLikeHeader(lines[n])
  {
    if lines == [] || LooksLikeHeader(lines[0]) then 0 else 1 + HeaderAt(lines[1..])
  }

  function Stripped(lines: seq<PatchLine>): (r: seq<PatchLine>)
    ensures |r| == |lines|
  {
    seq(|lines|, k requires 0 <= k < |lines| => PatchLine(lines[k].kind, StripReturn(lines[k].text)))
  }

  /** The lines in front of the first one that looks like a file header, each without one carriage
      return at its end. */
  function Reread(lines: seq<PatchLine>): seq<PatchLine> {
    Stripped(lines[..HeaderAt(lines)])
  }

  /** A hunk is read as it was printed exactly when all its lines are safe. */
  lemma RereadSafe(lines: seq<PatchLine>)
    ensures Reread(lines) == lines <==> AllSafe(lines)
  {
    var n := HeaderAt(lines);
    if AllSafe(lines) {
      assert n == |lines| && lines[..n] == lines;
      assert forall k :: 0 <= k < n ==> Reread(lines)[k] == lines[k];
    }
    if Reread(lines) == lines {
      assert n == |lines|;
      forall k | 0 <= k < n ensures Safe(lines[k]) {
        assert Reread(lines)[k].text == StripReturn(lines[k].text);
      }
    }
  }

  lemma {:induction false} RestSkipped(st: ParseState, lines: seq<PatchLine>, more: seq<string>)
    requires !st.inHunk && Marks(lines) && st.newHeaders == 1
    requires ParseLines(st, StripReturns(BodyLines(lines) + more)).Ok?
    ensures var end := ParseLines(st, StripReturns(BodyLines(lines) + more));
      end == ParseLines(st, StripReturns(more)) || end == ParseLines(st.(sawOldNull := true), StripReturns(more))
    decreases |lines|
  {
    hide Step;
    if lines == [] {
      NoBody(st, more);
    } else {
      assert [lines[0]][0] == lines[0] && Marks([lines[0]]);
      OutsideLineRead(st, lines[0]);
      BodyStep(st, lines, more);
      RestSkipped(Step(st, StripReturn(Shown(lines[0]))).value, lines[1..], more);
    }
  }

  /** Lines of a hunk of which none looks like a header. */
  lemma {:induction false} BodyReads(st: ParseState, lines: seq<PatchLine>, more: seq<string>)
    requires st.inHunk && Marks(lines) && HeaderAt(lines) == |lines|
    ensures ParseLines(st, StripReturns(BodyLines(lines) + more)) == ParseLines(Grown(st, Stripped(lines)), StripReturns(more))
    decreases |lines|
  {
    hide Step, StripReturn, Shown, LooksLikeHeader;
    if lines == [] {
      NoBody(st, more);
      assert st.current.lines + [] == st.current.lines;
    } else {
      var line, rest := lines[0], lines[1..];
      var bare := PatchLine(line.kind, StripReturn(line.text));
      assert [line][0] == line && Marks([line]);
      var next := Grown(st, [bare]);
      assert ParseLines(st, StripReturns(BodyLines(lines) + more)) == ParseLines(next, StripReturns(BodyLines(rest) + more)) by {
        BodyStep(st, lines, more);
        PlainLine(st, line);
      }
      BodyReads(next, rest, more);
      assert Grown(next, Stripped(rest)) == Grown(st, Stripped(lines)) by {
        assert Stripped(lines) == [bare] + Stripped(rest);
        Associate(st.current.lines, [bare], Stripped(rest));
      }
    }
  }

  lemma HeaderInFront(lines: seq<PatchLine>, n: nat)
    requires n == HeaderAt(lines)
    ensures HeaderAt(lines[..n]) == n
  {
  }

  lemma BodySplit(lines: seq<PatchLine>, n: nat, more: seq<string>)
    requires n <= |lines|
    ensures BodyLines(lines) + more == BodyLines(lines[..n]) + (BodyLines(lines[n..]) + more)
  {
  }

  /** Lines of a hunk of which one looks like a header. */
  lemma CutBodyReads(st: ParseState, lines: seq<PatchLine>, more: seq<string>) returns (next: ParseState)
    requires st.inHunk && Marks(lines) && st.newHeaders == 1 && HeaderAt(lines) < |lines|
    ensures var end := ParseLines(st, StripReturns(BodyLines(lines) + more));
      end.Ok? ==>
        && end == ParseLines(next, StripReturns(more)) && lines[HeaderAt(lines)].kind == '-'
        && AllRead(next, st.(inHunk := false, current := NO_HUNK), [Grown(st, Reread(lines)).current])
  {
    hide Step, Marks;
    var n := HeaderAt(lines);
    var read, line, rest := Grown(st, Reread(lines)), lines[n], lines[n + 1..];
    next := st;
    assert ParseLines(st, StripReturns(BodyLines(lines) + more)) == ParseLines(read, StripReturns(BodyLines(lines[n..]) + more)) by {
      MarksParts(lines, n);
      BodySplit(lines, n, more);
      HeaderInFront(lines, n);
      BodyReads(st, lines[..n], BodyLines(lines[n..]) + more);
    }
    BodyStep(read, lines[n..], more);
    assert lines[n..][0] == line && lines[n..][1..] == rest;
    MarksParts(lines, n);
    HeaderLine(read, line);
    var after := Step(read, StripReturn(Shown(line)));
    if after.Ok? && ParseLines(after.value, StripReturns(BodyLines(rest) + more)).Ok? {
      RestSkipped(after.value, rest, more);
      next := if ParseLines(after.value, StripReturns(BodyLines(rest) + more)) == ParseLines(after.value, StripReturns(more))
        then after.value else after.value.(sawOldNull := true);
      assert AllRead(next, st.(inHunk := false, current := NO_HUNK), [read.current]);
    }
  }

  lemma MarksParts(lines: seq<PatchLine>, n: nat)
    requires Marks(lines) && n < |lines|
    ensures Marks(lines[..n]) && Marks([lines[n]]) && Marks(lines[n + 1..])
  {
  }

  lemma StripHeader(h: DiffHunk)
    ensures StripReturn(Header(h)) == Header(h) && "@@" <= Header(h)
  {
    var r1 := Decimal(h.newCount) + " @@";
    var r2 := " +" + (Decimal(h.newStart) + ("," + r1));
    var r3 := "@@ -" + (Decimal(h.oldStart) + ("," + (Decimal(h.oldCount) + r2)));
    assert r1[|r1| - 1] == '@';
    assert r2[|r2| - 1] == r1[|r1| - 1];
    assert r3[|r3| - 1] == r2[|r2| - 1];
    assert r3[..2] == "@@";
  }

  function AsHunk(h: DiffHunk, number: nat): Hunk {
    Hunk(number, h.oldStart, h.oldCount, h.oldCount == 0, h.lines)
  }

  /** A printed hunk as it is read. */
  function AsReread(h: DiffHunk, number: nat): Hunk {
    AsHunk(h, number).(lines := Reread(h.lines))
  }

  /** The header line of a printed hunk opens it. */
  lemma HeaderOpens(st: ParseState, closed: ParseState, h: DiffHunk, more: seq<string>)
    requires CloseHunk(st) == Ok(closed)
    ensures ParseLines(st, StripReturns(HunkText(h) + more))
         == ParseLines(closed.(inHunk := true, current := AsHunk(h, |closed.hunks| + 1).(lines := [])), StripReturns(BodyLines(h.lines) + more))
  {
    hide StripReturn;
    var lines := StripReturns(HunkText(h) + more);
    StripHeader(h);
    assert lines[0] == Header(h);
    assert lines[1..] == StripReturns(BodyLines(h.lines) + more);
    assert HeaderOf(Header(h)) == Some((h.oldStart, h.oldCount)) by {
      HeaderReads(h.oldStart, h.oldCount, h.newStart, h.newCount);
    }
  }

  /** Printed hunks as the parser numbers them behind `n` others. */
  function Numbered(hs: seq<DiffHunk>, n: nat): (hunks: seq<Hunk>)
    ensures |hunks| == |hs| && forall k :: 0 <= k < |hs| ==> hunks[k] == AsHunk(hs[k], n + k + 1)
  {
    seq(|hs|, k requires 0 <= k < |hs| => AsHunk(hs[k], n + k + 1))
  }

  /** The same, as they are read. */
  function RereadAll(hs: seq<DiffHunk>, n: nat): (hunks: seq<Hunk>)
    ensures |hunks| == |hs| && forall k :: 0 <= k < |hs| ==> hunks[k] == AsReread(hs[k], n + k + 1)
  {
    seq(|hs|, k requires 0 <= k < |hs| => AsReread(hs[k], n + k + 1))
  }

  /** Hunks as the printer makes them. */
  predicate WellFormed(hs: seq<DiffHunk>) {
    forall k :: 0 <= k < |hs| ==> hs[k].lines != [] && Marks(hs[k].lines)
  }

  predicate HunksSafe(hs: seq<DiffHunk>) {
    forall k :: 0 <= k < |hs| ==> AllSafe(hs[k].lines)
  }

  /** No line of any hunk looks like a file header. */
  predicate NoHeaders(hs: seq<DiffHunk>) {
    forall k :: 0 <= k < |hs| ==> HeaderAt(hs[k].lines) == |hs[k].lines|
  }

  /** Where a line looks like a file header, the first such line is a removed one. */
  predicate OnlyRemovedHeaders(hs: seq<DiffHunk>) {
    forall k :: 0 <= k < |hs| ==> var n := HeaderAt(hs[k].lines); n < |hs[k].lines| ==> hs[k].lines[n].kind == '-'
  }

  predicate Outside(st: ParseState) {
    !st.inHunk && st.current == NO_HUNK && st.newHeaders == 1
  }

  function EndOf(st: ParseState, hs: seq<DiffHunk>): Result<ParseState, PatchError> {
    ParseLines(st, StripReturns(TextOf(hs)))
  }

  /** `end` is a parser with `more` hunks behind what `closed` had, and nothing else new. */
  predicate JustRead(end: ParseState, closed: ParseState, more: seq<Hunk>) {
    CloseHunk(end) == Ok(closed.(hunks := closed.hunks + more))
  }

  /** The same, except that it may have seen a header that names no old file. */
  predicate AllRead(end: ParseState, closed: ParseState, more: seq<Hunk>) {
    JustRead(end, closed, more) || JustRead(end, closed.(sawOldNull := true), more)
  }

  /** One printed hunk and what is behind it. */
  lemma HunkReads(st: ParseState, closed: ParseState, h: DiffHunk, more: seq<string>) returns (next: ParseState)
    requires CloseHunk(st) == Ok(closed) && Outside(closed) && h.lines != [] && Marks(h.lines)
    ensures var end := ParseLines(st, StripReturns(HunkText(h) + more)); var hunk := AsReread(h, |closed.hunks| + 1);
      && (end.Ok? || HeaderAt(h.lines) == |h.lines| ==> end == ParseLines(next, StripReturns(more)))
      && (HeaderAt(h.lines) == |h.lines| ==> JustRead(next, closed, [hunk]))
      && (end.Ok? ==> AllRead(next, closed, [hunk]) && OnlyRemovedHeaders([h]))
  {
    hide Step, Reread, Stripped;
    var open := closed.(inHunk := true, current := AsHunk(h, |closed.hunks| + 1).(lines := []));
    HeaderOpens(st, closed, h, more);
    RereadWhole(h.lines);
    assert [] + Reread(h.lines) == Reread(h.lines) && [] + Stripped(h.lines) == Stripped(h.lines);
    assert [h][0] == h;
    if HeaderAt(h.lines) == |h.lines| {
      BodyReads(open, h.lines, more);
      next := Grown(open, Stripped(h.lines));
      assert |Stripped(h.lines)| == |h.lines|;
      assert JustRead(next, closed, [AsReread(h, |closed.hunks| + 1)]);
    } else {
      next := CutBodyReads(open, h.lines, more);
    }
  }

  lemma RereadWhole(lines: seq<PatchLine>)
    ensures HeaderAt(lines) == |lines| ==> Reread(lines) == Stripped(lines)
  {
    assert lines[..|lines|] == lines;
  }

  lemma RereadAllCons(hs: seq<DiffHunk>, n: nat)
    requires hs != []
    ensures RereadAll(hs, n) == [AsReread(hs[0], n + 1)] + RereadAll(hs[1..], n + 1)
  {
    hide AsReread;
  }

  lemma ReadOneMore(end: ParseState, closed: ParseState, after: ParseState, hunk: Hunk, more: seq<Hunk>)
    ensures after == closed.(hunks := closed.hunks + [hunk]) && JustRead(end, after, more) ==> JustRead(end, closed, [hunk] + more)
  {
    Associate(closed.hunks, [hunk], more);
  }

  lemma ReadAnyMore(end: ParseState, closed: ParseState, next: ParseState, hunk: Hunk, more: seq<Hunk>)
    requires AllRead(next, closed, [hunk]) && AllRead(end, CloseHunk(next).value, more)
    ensures AllRead(end, closed, [hunk] + more)
  {
    hide CloseHunk;
    var after, nulled := CloseHunk(next).value, closed.(sawOldNull := true);
    ReadOneMore(end, closed, after, hunk, more);
    ReadOneMore(end, nulled, after, hunk, more);
    ReadOneMore(end, nulled, after.(sawOldNull := true), hunk, more);
  }

  /** What the parser makes of printed hunks, if it reads them at all: each hunk up to its first line
      that looks like a file header. It does read them when there is no such line. */
  lemma {:induction false} HunksReread(st: ParseState, closed: ParseState, hs: seq<DiffHunk>)
    requires CloseHunk(st) == Ok(closed) && Outside(closed) && WellFormed(hs)
    ensures EndOf(st, hs).Ok? ==> AllRead(EndOf(st, hs).value, closed, RereadAll(hs, |closed.hunks|)) && OnlyRemovedHeaders(hs)
    ensures NoHeaders(hs) ==> EndOf(st, hs).Ok? && JustRead(EndOf(st, hs).value, closed, RereadAll(hs, |closed.hunks|))
    decreases |hs|
  {
    hide Step, AsReread;
    if hs == [] {
      assert closed.hunks + [] == closed.hunks && RereadAll(hs, |closed.hunks|) == [];
    } else {
      var h, rest, n := hs[0], hs[1..], |closed.hunks|;
      var hunk, more := AsReread(h, n + 1), RereadAll(rest, n + 1);
      RereadAllCons(hs, n);
      var next := HunkReads(st, closed, h, TextOf(rest));
      var end := EndOf(st, hs);
      assert end == ParseLines(st, StripReturns(HunkText(h) + TextOf(rest)));
      if end.Ok? || HeaderAt(h.lines) == |h.lines| {
        var after := CloseHunk(next).value;
        assert Outside(after) && |after.hunks| == n + 1 by {
          NextOutside(next, closed, hunk);
        }
        HunksReread(next, after, rest);
        if end.Ok? {
          ReadAnyMore(end.value, closed, next, hunk, more);
          HeadersCons(hs);
        }
        if NoHeaders(hs) {
          HeadersCons(hs);
          ReadOneMore(EndOf(next, rest).value, closed, after, hunk, more);
        }
      }
    }
  }

  lemma NextOutside(next: ParseState, closed: ParseState, hunk: Hunk)
    requires Outside(closed) && AllRead(next, closed, [hunk])
    ensures Outside(CloseHunk(next).value) && |CloseHunk(next).value.hunks| == |closed.hunks| + 1
  {
  }

  lemma HeadersCons(hs: seq<DiffHunk>)
    requires hs != []
    ensures NoHeaders(hs) ==> HeaderAt(hs[0].lines) == |hs[0].lines| && NoHeaders(hs[1..])
    ensures OnlyRemovedHeaders([hs[0]]) && OnlyRemovedHeaders(hs[1..]) ==> OnlyRemovedHeaders(hs)
  {
    hide HeaderAt;
    var h, rest := hs[0], hs[1..];
    assert [h][0] == h && forall k :: 0 < k < |hs| ==> hs[k] == rest[k - 1];
  }

  // ---------------------------------------------------------------------------------------
  // The whole diff
  // ---------------------------------------------------------------------------------------

  /** The path the file headers of a diff are read to name. */
  function ReadPath(path: string): string {
    HeaderPath(StripReturn("+++ " + path))
  }

  /** They are read to name the file, or no file at all. */
  predicate Carried(path: string) {
    ReadPath(path) == "" || SameTarget(path, ReadPath(path))
  }

  /** A path as they mostly are: no tab, quotes or carriage return where they would be dropped, and a
      name behind a leading `a/` or `b/`. */
  predicate PlainPath(path: string) {
    && FindChar(path, '\t', 0).None? && !EndsInReturn(path)
    && !(|path| >= 2 && path[0] == '"' && path[|path| - 1] == '"')
    && var name := if "a/" <= path || "b/" <= path then path[2..] else path;
       name != "" && name != "/dev/null"
  }

  /** The file headers carry every such path. */
  lemma PlainPathCarried(path: string)
    requires PlainPath(path)
    ensures ReadPath(path) == path && Carried(path)
  {
    hide FindChar, FileName;
    PlainPathRead(path);
    if "a/" <= path || "b/" <= path {
      SlashAhead(path);
    }
  }

  lemma PlainPathRead(path: string)
    requires PlainPath(path)
    ensures ReadPath(path) == path
  {
    var line := "+++ " + path;
    assert line[4..] == path && line[..4] == "+++ " && !EndsInReturn(line);
  }

  lemma SlashAhead(path: string)
    requires "a/" <= path || "b/" <= path
    ensures path == path[..2] + path[2..] && (path[..2] == "a/" || path[..2] == "b/") && path[1..] == "/" + path[2..]
  {
    assert path[1] == path[..2][1] == '/';
  }

  /** What the file headers leave the parser with. */
  function AfterHeader(path: string, created: bool): ParseState {
    var nowhere := ReadPath(path) == "/dev/null";
    START.(sawOldNull := created || nowhere, sawNewNull := nowhere, newHeaders := 1, plusPath := ReadPath(path))
  }

  lemma StripBehind(mark: string, path: string)
    requires mark == "--- " || mark == "+++ "
    ensures StripReturn(mark + path) == mark + StripReturn(path)
  {
    var a := mark + path;
    if path == "" {
      assert a == mark && mark[3] == ' ';
    } else {
      assert a[|a| - 1] == path[|path| - 1];
      assert a[..|a| - 1] == mark + path[..|path| - 1];
    }
  }

  lemma MarkKinds(mark: string, q: string)
    requires mark == "--- " || mark == "+++ "
    ensures var a := mark + q;
      mark <= a && a[4..] == q && !("@@" <= a) && !("diff --git " <= a) && (mark == "+++ " ==> !("--- " <= a))
  {
    var a := mark + q;
    assert a[0] == mark[0];
    StartsWith(a, "@@");
    StartsWith(a, "diff --git ");
    StartsWith(a, "--- ");
  }

  /** A file header with its carriage return off, which is not part of its mark. */
  lemma HeaderStripped(mark: string, path: string)
    requires mark == "--- " || mark == "+++ "
    ensures var a := StripReturn(mark + path);
      mark <= a && !("@@" <= a) && !("diff --git " <= a) && (mark == "+++ " ==> !("--- " <= a)) && HeaderPath(a) == ReadPath(path)
  {
    hide StripReturn;
    StripBehind(mark, path);
    StripBehind("+++ ", path);
    MarkKinds(mark, StripReturn(path));
    MarkKinds("+++ ", StripReturn(path));
  }

  lemma OldHeaderReads(path: string, created: bool)
    ensures Step(START, StripReturn(if created then "--- /dev/null" else "--- " + path))
         == Ok(START.(sawOldNull := created || ReadPath(path) == "/dev/null"))
  {
    hide HeaderPath, StripReturn;
    if created {
      NullPath();
      assert "--- " + "/dev/null" == "--- /dev/null";
      HeaderStripped("--- ", "/dev/null");
    } else {
      HeaderStripped("--- ", path);
    }
  }

  lemma NewHeaderReads(path: string, created: bool)
    ensures Step(START.(sawOldNull := created || ReadPath(path) == "/dev/null"), StripReturn("+++ " + path)) == Ok(AfterHeader(path, created))
  {
    hide HeaderPath, StripReturn;
    HeaderStripped("+++ ", path);
  }

  lemma ParseTwo(st: ParseState, a: string, b: string, rest: seq<string>, middle: ParseState, end: ParseState)
    requires Step(st, a) == Ok(middle) && Step(middle, b) == Ok(end)
    ensures ParseLines(st, [a] + ([b] + rest)) == ParseLines(end, rest)
  {
    assert ([a] + ([b] + rest))[1..] == [b] + rest;
    assert ([b] + rest)[1..] == rest;
  }

  lemma HeaderLinesStripped(a: string, b: string, more: seq<string>)
    ensures StripReturns([a, b] + more) == [StripReturn(a)] + ([StripReturn(b)] + StripReturns(more))
  {
  }

  lemma HeaderLinesRead(path: string, created: bool, more: seq<string>)
    ensures ParseLines(START, StripReturns(FileHeader(path, created) + more))
         == ParseLines(AfterHeader(path, created), StripReturns(more))
  {
    hide StripReturn, AfterHeader, Step, HeaderPath;
    var a, b := if created then "--- /dev/null" else "--- " + path, "+++ " + path;
    var middle, end := START.(sawOldNull := created || ReadPath(path) == "/dev/null"), AfterHeader(path, created);
    OldHeaderReads(path, created);
    NewHeaderReads(path, created);
    HeaderLinesStripped(a, b, more);
    ParseTwo(START, StripReturn(a), StripReturn(b), StripReturns(more), middle, end);
  }

  lemma NullPath()
    ensures ReadPath("/dev/null") == "/dev/null"
  {
    var b := "+++ " + "/dev/null";
    assert b[..4] == "+++ " && b[4..] == "/dev/null" && !EndsInReturn(b);
    FindCharNone("/dev/null", '\t', 0);
  }

  /** No printed line holds a newline; lines of a file or a patch never do. */
  predicate OneLiners(hs: seq<DiffHunk>) {
    forall k, j :: 0 <= k < |hs| && 0 <= j < |hs[k].lines| ==> NoNewline(hs[k].lines[j].text)
  }

  predicate AllOneLine(lines: seq<string>) {
    forall k :: 0 <= k < |lines| ==> NoNewline(lines[k])
  }

  lemma HeaderOneLine(h: DiffHunk)
    ensures NoNewline(Header(h))
  {
    var a, b, c, d := Decimal(h.oldStart), Decimal(h.oldCount), Decimal(h.newStart), Decimal(h.newCount);
    assert NoNewline(a) && NoNewline(b) && NoNewline(c) && NoNewline(d);
    var r1 := "," + (d + " @@");
    assert NoNewline(r1);
    var r2 := "," + (b + (" +" + (c + r1)));
    assert NoNewline(r2);
    assert Header(h) == "@@ -" + (a + r2);
  }

  lemma {:induction false} TextOneLine(hs: seq<DiffHunk>)
    requires OneLiners(hs) && WellFormed(hs)
    ensures AllOneLine(TextOf(hs))
    decreases |hs|
  {
    if hs != [] {
      var h, rest := hs[0], hs[1..];
      assert OneLiners(rest) by {
        forall k, j | 0 <= k < |rest| && 0 <= j < |rest[k].lines| ensures NoNewline(rest[k].lines[j].text) {
          assert rest[k] == hs[k + 1];
        }
      }
      TextOneLine(rest);
      HeaderOneLine(h);
      forall j | 0 <= j < |h.lines| ensures NoNewline(BodyLines(h.lines)[j]) {
        assert NoNewline(h.lines[j].text);
        assert Marks(h.lines);
      }
      assert TextOf(hs) == [Header(h)] + BodyLines(h.lines) + TextOf(rest);
    }
  }

  /** The text of a diff with these hunks. */
  function DiffText(path: string, created: bool, hs: seq<DiffHunk>): string {
    Unlines(FileHeader(path, created) + TextOf(hs))
  }

  lemma DiffTextLines(path: string, created: bool, hs: seq<DiffHunk>)
    requires NoNewline(path) && WellFormed(hs) && OneLiners(hs)
    ensures ParseLines(START, StripReturns(LinesOf(DiffText(path, created, hs)))) == EndOf(AfterHeader(path, created), hs)
  {
    TextOneLine(hs);
    var all := FileHeader(path, created) + TextOf(hs);
    assert AllOneLine(all);
    LinesOfUnlines(all);
    HeaderLinesRead(path, created, TextOf(hs));
  }

  /** Parsing what was printed: the hunks as they are read, if there is anything to read. */
  lemma DiffRereads(path: string, created: bool, hs: seq<DiffHunk>)
    requires NoNewline(path) && hs != [] && WellFormed(hs) && OneLiners(hs)
    ensures var read := Parse(DiffText(path, created, hs), path);
      && (read.Ok? ==> read.value.hunks == RereadAll(hs, 0) && OnlyRemovedHeaders(hs) && Carried(path))
      && (NoHeaders(hs) && Carried(path) ==> read == Ok(Patch(RereadAll(hs, 0), created)))
  {
    hide NoHeaders, OnlyRemovedHeaders, NoNewline, WellFormed, OneLiners, EndOf, RereadAll, LinesOf, DiffText, Carried, ReadPath;
    var base := AfterHeader(path, created);
    var end, hunks := EndOf(base, hs), RereadAll(hs, 0);
    DiffTextLines(path, created, hs);
    HunksReread(base, base, hs);
    if end.Ok? {
      FinishIs(end.value, path, created, hunks);
    }
  }

  lemma FinishIs(end: ParseState, path: string, created: bool, hunks: seq<Hunk>)
    requires AllRead(end, AfterHeader(path, created), hunks) && hunks != []
    ensures Finish(end, path).Ok? <==> Carried(path)
    ensures Finish(end, path).Ok? ==> Finish(end, path).value.hunks == hunks
    ensures JustRead(end, AfterHeader(path, created), hunks) && Carried(path) ==> Finish(end, path) == Ok(Patch(hunks, created))
  {
    hide HeaderPath, StripReturn;
    assert [] + hunks == hunks;
    NullNames(path);
  }

  lemma NullNames(path: string)
    ensures !SameTarget(path, "/dev/null")
  {
    assert !("a/" <= "/dev/null") && !("b/" <= "/dev/null") by {
      StartsWith("/dev/null", "a/");
      StartsWith("/dev/null", "b/");
    }
  }

  lemma RereadAllSafe(hs: seq<DiffHunk>)
    ensures RereadAll(hs, 0) == Numbered(hs, 0) <==> HunksSafe(hs)
    ensures HunksSafe(hs) ==> NoHeaders(hs)
  {
    hide Reread;
    forall k | 0 <= k < |hs| ensures RereadAll(hs, 0)[k] == Numbered(hs, 0)[k] <==> AllSafe(hs[k].lines) {
      RereadSafe(hs[k].lines);
    }
  }

  /** Parsing what was printed gives the printed hunks back exactly when no printed line ends in a
      carriage return, none looks like a file header, and the file headers carry the path. */
  lemma DiffReadsBack(path: string, created: bool, hs: seq<DiffHunk>)
    requires NoNewline(path) && hs != [] && WellFormed(hs) && OneLiners(hs)
    ensures Parse(DiffText(path, created, hs), path) == Ok(Patch(Numbered(hs, 0), created)) <==> HunksSafe(hs) && Carried(path)
  {
    DiffRereads(path, created, hs);
    RereadAllSafe(hs);
  }
}
