/** Answers of `edit_file` that show a line that cannot be read back
    (`src/common/tools/tool_edit_file.cpp`): what happens when they are applied again. */
module AnswerExamples {
  import opened Strings
  import opened TextLines
  import opened Splice
  import opened HunkPlacement
  import opened PatchParser
  import opened PatchPrinter
  import opened PatchRoundTrip
  import opened PatchReapply
  import opened EditFile

  // ---------------------------------------------------------------------------------------
  // A removed line that looks like a file header
  // ---------------------------------------------------------------------------------------

  const MARKED_FILE := ["a", "-- b", "c"]
  const MARKED_TEXT := "a\n-- b\nc\n"

  /** No patch line can remove `-- b` itself, but it may stand between two that are removed. */
  const MARKED_LINES := [PatchLine('-', "a"), PatchLine(' ', "-- b"), PatchLine('-', "c")]
  const MARKED_PATCH := [DiffHunk(1, 3, 1, 1, MARKED_LINES)]
  const MARKED_SPAN := Span(0, 3, ["-- b"])

  lemma MarkedText()
    ensures LinesOf(MARKED_TEXT) == MARKED_FILE && EndsInNewline(MARKED_TEXT)
  {
    var f := MARKED_FILE;
    var g, h := f[1..], f[1..][1..];
    assert g == ["-- b", "c"] && h == ["c"] && h[1..] == [];
    assert Unlines(h) == "c" + "\n" + "" == "c\n";
    assert Unlines(g) == "-- b" + "\n" + "c\n" == "-- b\nc\n";
    assert Unlines(f) == "a" + "\n" + "-- b\nc\n" == MARKED_TEXT;
    LinesOfUnlines(f);
  }

  lemma OneSide(line: PatchLine)
    requires line.kind == ' ' || line.kind == '-' || line.kind == '+'
    ensures OldSide([line]) == (if line.kind == '+' then [] else [line.text])
    ensures NewSide([line]) == (if line.kind == '-' then [] else [line.text])
  {
    assert [line][1..] == [] && [line.text] + [] == [line.text];
  }

  lemma MarkedSides()
    ensures OldSide(MARKED_LINES) == MARKED_FILE && NewSide(MARKED_LINES) == ["-- b"]
  {
    hide OldSide, NewSide;
    var a, b, c := [MARKED_LINES[0]], [MARKED_LINES[1]], [MARKED_LINES[2]];
    assert MARKED_LINES == (a + b) + c;
    OldSideAppend(a, b);
    OldSideAppend(a + b, c);
    NewSideAppend(a, b);
    NewSideAppend(a + b, c);
    OneSide(a[0]);
    OneSide(b[0]);
    OneSide(c[0]);
    assert ["a"] + ["-- b"] + ["c"] == MARKED_FILE && [] + ["-- b"] + [] == ["-- b"];
  }

  lemma MarkedPlaced()
    ensures PlaceAll(MARKED_FILE, Numbered(MARKED_PATCH, 0), []) == Ok([MARKED_SPAN])
  {
    var hunk, l := AsHunk(MARKED_PATCH[0], 1), MARKED_LINES;
    MarkedSides();
    LeadIs(l, 0);
    TailIs(l, 0, 3);
    assert Changed(l) == l;
    assert MARKED_FILE[0..3] == MARKED_FILE;
    LocateHint(MARKED_FILE, MARKED_FILE, 0);
    assert SpanFor(MARKED_FILE, hunk) == Ok(MARKED_SPAN);
    assert Numbered(MARKED_PATCH, 0) == [hunk] + [];
    PlaceOne(MARKED_FILE, hunk, [], [], MARKED_SPAN);
    assert [] + [MARKED_SPAN] == [MARKED_SPAN];
  }

  // ---------------------------------------------------------------------------------------
  // Sizes
  // ---------------------------------------------------------------------------------------

  const PATH := "f"

  lemma PathCarried()
    ensures NoNewline(PATH) && Carried(PATH)
  {
    FindCharNone(PATH, '\t', 0);
    PlainPathCarried(PATH);
  }

  /** A file with quotes around its name is taken for one without them. */
  lemma QuotedPathNotCarried()
    ensures !Carried("\"q\"")
  {
    var path := "\"q\"";
    var line := "+++ " + path;
    assert line[4..] == path && line[..4] == "+++ " && !EndsInReturn(line);
    FindCharNone(path, '\t', 0);
    FindCharNone(path, '/', 0);
    assert ReadPath(path) == path[1..2] == "q";
    assert "/q"[1] != path[2];
  }

  predicate Short(lines: seq<string>) {
    forall k :: 0 <= k < |lines| ==> |lines[k]| <= 30
  }

  lemma {:induction false} ShortUnlines(lines: seq<string>)
    requires Short(lines)
    ensures |Unlines(lines)| <= 31 * |lines|
  {
    if lines != [] {
      assert forall k :: 0 < k < |lines| ==> lines[1..][k - 1] == lines[k];
      ShortUnlines(lines[1..]);
    }
  }

  predicate ShortHunk(h: DiffHunk) {
    && h.oldStart < 10 && h.oldCount < 10 && h.newStart < 10 && h.newCount < 10
    && |h.lines| < 10 && forall k :: 0 <= k < |h.lines| ==> |h.lines[k].text| < 10
  }

  lemma {:induction false} ShortText(hs: seq<DiffHunk>)
    requires forall k :: 0 <= k < |hs| ==> ShortHunk(hs[k])
    ensures Short(TextOf(hs)) && |TextOf(hs)| <= 10 * |hs|
  {
    if hs != [] {
      var h, rest := hs[0], hs[1..];
      assert forall k :: 0 < k < |hs| ==> rest[k - 1] == hs[k];
      ShortText(rest);
      assert |Header(h)| <= 30;
      assert Short(HunkText(h));
    }
  }

  lemma ShortDiff(file: seq<string>, spans: seq<Span>)
    requires Chained(spans, 0, |file|) && |spans| <= 2 && forall k :: 0 <= k < |spans| ==> ShortHunk(HunkOf(file, spans, k))
    ensures |Unlines(DiffLines(PATH, file, spans, false))| <= MAX_TOOL_OUTPUT_CHARS
  {
    ShortText(HunksOf(file, spans));
    ShortUnlines(DiffLines(PATH, file, spans, false));
  }

  // ---------------------------------------------------------------------------------------
  // Edits by printed patches
  // ---------------------------------------------------------------------------------------

  /** An edit by the patch with these hunks. */
  lemma EditedBy(original: string, hs: seq<DiffHunk>, spans: seq<Span>)
    requires hs != [] && WellFormed(hs) && OneLiners(hs) && HunksSafe(hs)
    requires PlaceAll(LinesOf(original), Numbered(hs, 0), []) == Ok(spans)
    ensures var patch := DiffText(PATH, false, hs);
      && Parse(patch, PATH) == Ok(Patch(Numbered(hs, 0), false))
      && Apart(spans, |LinesOf(original)|) && Edit(PATH, Some(original), patch) == Rewritten(PATH, original, spans)
  {
    PathCarried();
    DiffReadsBack(PATH, false, hs);
    EditPlanned(PATH, original, DiffText(PATH, false, hs), Numbered(hs, 0), spans);
  }

  lemma MarkedAnswer()
    ensures var file, spans := MARKED_FILE, [MARKED_SPAN];
      && Apart(spans, 3) && SortUp(spans) == spans && Chained(spans, 0, 3)
      && HunkOf(file, spans, 0).lines == Sections([], MARKED_FILE, ["-- b"], []) && ShortHunk(HunkOf(file, spans, 0))
      && Merge(file, spans, 0) == ["-- b"]
  {
    var file, spans := MARKED_FILE, [MARKED_SPAN];
    assert spans[1..] == [] && file[0..3] == file && file[0..0] == [] && file[3..3] == [];
    RangesAgree(file, spans, 0);
    var lines := Sections([], file, ["-- b"], []);
    SectionCount([], file, ["-- b"], []);
    forall k | 0 <= k < |lines| ensures |lines[k].text| < 10 {
      SectionKinds([], file, ["-- b"], [], k);
    }
    assert [] + ["-- b"] + Merge(file, [], 3) == ["-- b"];
  }

  /** An edit whose spans are known, top down. */
  lemma EditIs(original: string, hs: seq<DiffHunk>, spans: seq<Span>, placed: seq<Span>, body: string)
    requires hs != [] && WellFormed(hs) && OneLiners(hs) && HunksSafe(hs)
    requires PlaceAll(LinesOf(original), Numbered(hs, 0), []) == Ok(placed) && SortUp(placed) == spans
    requires Chained(spans, 0, |LinesOf(original)|) && |spans| <= 2
    requires forall k :: 0 <= k < |spans| ==> ShortHunk(HunkOf(LinesOf(original), spans, k))
    requires body == NewText(original, Merge(LinesOf(original), spans, 0)) && body != original
    ensures var patch, file := DiffText(PATH, false, hs), LinesOf(original);
      && Edit(PATH, Some(original), patch) == Ok(Edited(body, Unlines(DiffLines(PATH, file, spans, false))))
      && |Unlines(DiffLines(PATH, file, spans, false))| <= MAX_TOOL_OUTPUT_CHARS
      && Planned(PATH, original, patch) == placed
      && (Readable(PATH, original, patch) <==> HunksSafe(HunksOf(file, spans)))
  {
    hide HunksSafe, WellFormed, OneLiners, LinesOf, NewText, DiffLines, PlaceAll, Carried;
    PathCarried();
    EditedBy(original, hs, placed);
    ShortDiff(LinesOf(original), spans);
  }

  /** The answer shows the removed line as `--- b`, which is read as a file header. Given back to
      `edit_file`, it does not make the same edit. */
  lemma MarkedAnswerDiffers()
    ensures var patch := DiffText(PATH, false, MARKED_PATCH);
      && Edit(PATH, Some(MARKED_TEXT), patch).Ok? && !Readable(PATH, MARKED_TEXT, patch)
      && Edit(PATH, Some(MARKED_TEXT), Edit(PATH, Some(MARKED_TEXT), patch).value.diff) != Edit(PATH, Some(MARKED_TEXT), patch)
  {
    hide LinesOf, PlaceAll, DiffText, Edit, Readable, Merge;
    var patch, file, spans := DiffText(PATH, false, MARKED_PATCH), MARKED_FILE, [MARKED_SPAN];
    MarkedText();
    MarkedPlaced();
    MarkedAnswer();
    assert HunksSafe(MARKED_PATCH) && WellFormed(MARKED_PATCH) && OneLiners(MARKED_PATCH) by {
      assert AllSafe(MARKED_LINES);
    }
    EditIs(MARKED_TEXT, MARKED_PATCH, spans, spans, "-- b\n");
    assert !HunksSafe(HunksOf(file, spans)) by {
      SectionKinds([], file, ["-- b"], [], 1);
      assert !Safe(HunksOf(file, spans)[0].lines[1]);
    }
    PathCarried();
    AnswerRepeatsExactly(PATH, MARKED_TEXT, patch);
  }

  // ---------------------------------------------------------------------------------------
  // Two hunks that change places
  // ---------------------------------------------------------------------------------------

  const TWIN_FILE := ["r\r", "r", "r", "r\r"]
  const TWIN_TEXT := "r\r\nr\nr\nr\r\n"
  const TWIN_LINES := [PatchLine('-', "r")]
  const TWIN_PATCH := [DiffHunk(2, 1, 1, 0, TWIN_LINES), DiffHunk(3, 1, 1, 0, TWIN_LINES)]
  const UPPER := Span(1, 1, [])
  const LOWER := Span(2, 1, [])

  lemma TwinText()
    ensures LinesOf(TWIN_TEXT) == TWIN_FILE && EndsInNewline(TWIN_TEXT)
  {
    var f := TWIN_FILE;
    var g, h, i := f[1..], f[2..], f[3..];
    assert g == ["r", "r", "r\r"] && h == g[1..] == ["r", "r\r"] && i == h[1..] == ["r\r"] && i[1..] == [];
    assert Unlines(i) == "r\r" + "\n" + "" == "r\r\n";
    assert Unlines(h) == "r" + "\n" + "r\r\n" == "r\nr\r\n";
    assert Unlines(g) == "r" + "\n" + "r\nr\r\n" == "r\nr\nr\r\n";
    assert Unlines(f) == "r\r" + "\n" + "r\nr\nr\r\n" == TWIN_TEXT;
    LinesOfUnlines(f);
  }

  /** Two spans placed one after the other. */
  lemma BothPlaced(file: seq<string>, a: Hunk, b: Hunk, s: Span, t: Span)
    requires SpanFor(file, a) == Ok(s) && SpanFor(file, b) == Ok(t) && !Idle(s) && !Idle(t) && !Overlap(s, t)
    ensures PlaceAll(file, [a, b], []) == Ok([s, t])
  {
    assert [a, b] == [a] + [b] && [b] == [b] + [] && [] + [s] == [s] && [s] + [t] == [s, t];
    PlaceOne(file, a, [b], [], s);
    PlaceOne(file, b, [], [s], t);
  }

  lemma TwinPlaced()
    ensures PlaceAll(TWIN_FILE, Numbered(TWIN_PATCH, 0), []) == Ok([UPPER, LOWER])
  {
    var a, b, l := AsHunk(TWIN_PATCH[0], 1), AsHunk(TWIN_PATCH[1], 2), TWIN_LINES;
    assert l[1..] == [] && OldSide(l) == ["r"] && NewSide(l) == [];
    LeadIs(l, 0);
    TailIs(l, 0, 1);
    assert Changed(l) == l;
    assert TWIN_FILE[1..2] == ["r"] && TWIN_FILE[2..3] == ["r"];
    LocateHint(TWIN_FILE, ["r"], 1);
    LocateHint(TWIN_FILE, ["r"], 2);
    assert Numbered(TWIN_PATCH, 0) == [a, b];
    BothPlaced(TWIN_FILE, a, b, UPPER, LOWER);
  }

  lemma TwinAnswer()
    ensures var file, spans := TWIN_FILE, [UPPER, LOWER];
      && Chained(spans, 0, 4) && SortUp(spans) == spans && SortUp([LOWER, UPPER]) == spans
      && HunkOf(file, spans, 0) == Shape(file, UPPER, 0, 2) && HunkOf(file, spans, 1) == Shape(file, LOWER, 2, 4)
      && Merge(file, spans, 0) == ["r\r", "r\r"]
  {
    TwinSorted();
    TwinMerged();
    RangesAgree(TWIN_FILE, [UPPER, LOWER], 0);
    RangesAgree(TWIN_FILE, [UPPER, LOWER], 1);
  }

  lemma TwinSorted()
    ensures SortUp([UPPER, LOWER]) == [UPPER, LOWER] && SortUp([LOWER, UPPER]) == [UPPER, LOWER]
  {
    var u, l := [UPPER], [LOWER];
    assert [UPPER, LOWER][1..] == l && [LOWER, UPPER][1..] == u && u[1..] == [] && l[1..] == [];
    OneSorted(u);
    OneSorted(l);
    assert InsertUp(UPPER, l) == [UPPER] + l;
    assert InsertUp(LOWER, []) == [LOWER] + [];
    assert InsertUp(LOWER, u) == [UPPER] + InsertUp(LOWER, []);
  }

  lemma TwinMerged()
    ensures Chained([UPPER, LOWER], 0, 4) && Merge(TWIN_FILE, [UPPER, LOWER], 0) == ["r\r", "r\r"]
  {
    var file, spans := TWIN_FILE, [UPPER, LOWER];
    assert spans[1..] == [LOWER] && [LOWER][1..] == [];
    assert file[0..1] == ["r\r"] && file[2..2] == [] && file[3..4] == ["r\r"];
    assert Merge(file, [], 3) == ["r\r"];
    assert Merge(file, [LOWER], 2) == [] + [] + ["r\r"];
    assert Merge(file, spans, 0) == ["r\r"] + [] + ["r\r"];
  }

  /** Without its carriage return the context of one hunk fits the other one's place. */
  lemma TwinMatch(hint: int)
    requires hint == 0 || hint == 2
    ensures Locate(TWIN_FILE, ["r", "r"], hint) == At(1)
  {
    var quoted := ["r", "r"];
    assert TWIN_FILE[1..3] == quoted;
    forall at | LinesMatch(TWIN_FILE, at, quoted) ensures at == 1 {
      assert TWIN_FILE[at..at + 2][0] == TWIN_FILE[at] && TWIN_FILE[at..at + 2][1] == TWIN_FILE[at + 1];
      assert |TWIN_FILE[0]| == 2 && |TWIN_FILE[3]| == 2;
    }
    LocateAt(TWIN_FILE, quoted, hint, 1);
  }

  lemma TwinSections()
    ensures var file := TWIN_FILE;
      && Shape(file, UPPER, 0, 2) == DiffHunk(1, 2, 1, 1, Sections(["r\r"], ["r"], [], []))
      && Shape(file, LOWER, 2, 4) == DiffHunk(3, 2, 3, 1, Sections([], ["r"], [], ["r\r"]))
  {
    var file := TWIN_FILE;
    assert file[0..1] == ["r\r"] && file[1..2] == ["r"] && file[2..2] == [];
    assert file[2..3] == ["r"] && file[3..4] == ["r\r"];
  }

  lemma TwinReread(upper: seq<PatchLine>, lower: seq<PatchLine>)
    requires upper == Sections(["r\r"], ["r"], [], []) && lower == Sections([], ["r"], [], ["r\r"])
    ensures HeaderAt(upper) == |upper| == 2 && HeaderAt(lower) == |lower| == 2
    ensures Reread(upper) == Sections(["r"], ["r"], [], []) && Reread(lower) == Sections([], ["r"], [], ["r"])
    ensures !AllSafe(upper)
    ensures forall k :: 0 <= k < 2 ==> |upper[k].text| < 10 && |lower[k].text| < 10
  {
    hide Sections;
    SectionCount(["r\r"], ["r"], [], []);
    SectionCount([], ["r"], [], ["r\r"]);
    forall k | 0 <= k < 2
      ensures !LooksLikeHeader(upper[k]) && !LooksLikeHeader(lower[k]) && |upper[k].text| < 10 && |lower[k].text| < 10
    {
      SectionKinds(["r\r"], ["r"], [], [], k);
      SectionKinds([], ["r"], [], ["r\r"], k);
    }
    SectionKinds(["r\r"], ["r"], [], [], 0);
    assert !Safe(upper[0]);
    WholeReread(["r\r"], ["r"], [], []);
    WholeReread([], ["r"], [], ["r\r"]);
    assert "r\r"[..1] == "r" && StripReturn("r\r") == "r";
    assert StripReturns(["r\r"]) == ["r"] && StripReturns(["r"]) == ["r"] && StripReturns([]) == [];
  }

  lemma TwinSwapped(a: Hunk, b: Hunk)
    requires a == Hunk(1, 1, 2, false, Sections(["r"], ["r"], [], [])) && b == Hunk(2, 3, 2, false, Sections([], ["r"], [], ["r"]))
    ensures PlaceAll(TWIN_FILE, [a, b], []) == Ok([LOWER, UPPER])
  {
    hide Sections, Lead, Changed;
    SectionSides(["r"], ["r"], [], []);
    SectionSides([], ["r"], [], ["r"]);
    assert ["r"] + ["r"] + [] == ["r", "r"] && [] + ["r"] + ["r"] == ["r", "r"];
    TwinMatch(0);
    TwinMatch(2);
    SectionChanged(["r"], ["r"], [], []);
    SectionChanged([], ["r"], [], ["r"]);
    ChangedParts(["r"], []);
    BothPlaced(TWIN_FILE, a, b, LOWER, UPPER);
  }

  /** The hunks of the answer as they are read. */
  const UPPER_HUNK := Hunk(1, 1, 2, false, Sections(["r"], ["r"], [], []))
  const LOWER_HUNK := Hunk(2, 3, 2, false, Sections([], ["r"], [], ["r"]))

  lemma TwinRead()
    ensures Chained([UPPER, LOWER], 0, 4) && AllOneLine(TWIN_FILE)
    ensures Parse(Unlines(DiffLines(PATH, TWIN_FILE, [UPPER, LOWER], false)), PATH) == Ok(Patch([UPPER_HUNK, LOWER_HUNK], false))
  {
    hide DiffText, Shape, HunkOf, Sections, Merge, SortUp, WellFormed, OneLiners, Carried, NoNewline;
    var file, spans := TWIN_FILE, [UPPER, LOWER];
    TwinAnswer();
    TwinSections();
    var hs := HunksOf(file, spans);
    TwinReread(hs[0].lines, hs[1].lines);
    PathCarried();
    assert AllOneLine(file) && Printable(spans) by {
      TwinOneLine();
    }
    PrintedWell(file, spans);
    DiffTextIs(PATH, file, spans, false);
    DiffRereads(PATH, false, hs);
    assert RereadAll(hs, 0) == [UPPER_HUNK, LOWER_HUNK];
  }

  lemma TwinOneLine()
    ensures AllOneLine(TWIN_FILE) && Printable([UPPER, LOWER])
  {
  }

  /** The answer given back. */
  lemma TwinAgain()
    ensures Chained([UPPER, LOWER], 0, 4)
    ensures var diff := Unlines(DiffLines(PATH, TWIN_FILE, [UPPER, LOWER], false));
      Apart([LOWER, UPPER], 4) && LinesOf(TWIN_TEXT) == TWIN_FILE && Edit(PATH, Some(TWIN_TEXT), diff) == Rewritten(PATH, TWIN_TEXT, [LOWER, UPPER])
  {
    hide LinesOf, PlaceAll, Parse, Sections, Rewritten, DiffLines;
    TwinText();
    TwinRead();
    TwinSwapped(UPPER_HUNK, LOWER_HUNK);
    EditPlanned(PATH, TWIN_TEXT, Unlines(DiffLines(PATH, TWIN_FILE, [UPPER, LOWER], false)), [UPPER_HUNK, LOWER_HUNK], [LOWER, UPPER]);
  }

  lemma TwinJoined()
    ensures Join(["r\r", "r\r"], true) == "r\r\nr\r\n"
  {
    JoinCons("r\r", ["r\r"], true);
    assert ["r\r"] + ["r\r"] == ["r\r", "r\r"];
  }

  /** What the answer shows. */
  lemma TwinShown()
    ensures Chained([UPPER, LOWER], 0, 4)
    ensures !HunksSafe(HunksOf(TWIN_FILE, [UPPER, LOWER])) && forall k :: 0 <= k < 2 ==> ShortHunk(HunkOf(TWIN_FILE, [UPPER, LOWER], k))
  {
    hide Sections, Shape, HunkOf, Merge, SortUp;
    TwinAnswer();
    TwinSections();
    var hs := HunksOf(TWIN_FILE, [UPPER, LOWER]);
    TwinReread(hs[0].lines, hs[1].lines);
  }

  /** A file with carriage returns and a patch with two hunks whose answer is not read as it was
      printed, and still makes the same edit: its hunks come to each other's places. */
  lemma TwinAnswerRepeats()
    ensures var patch := DiffText(PATH, false, TWIN_PATCH);
      && Edit(PATH, Some(TWIN_TEXT), patch).Ok? && !Readable(PATH, TWIN_TEXT, patch)
      && Edit(PATH, Some(TWIN_TEXT), Edit(PATH, Some(TWIN_TEXT), patch).value.diff) == Edit(PATH, Some(TWIN_TEXT), patch)
  {
    hide LinesOf, PlaceAll, DiffText, Readable, Merge, HunkOf, SortUp, ShortHunk, DiffLines, Join;
    var spans := [UPPER, LOWER];
    TwinText();
    TwinPlaced();
    TwinAnswer();
    TwinShown();
    TwinJoined();
    assert HunksSafe(TWIN_PATCH) && WellFormed(TWIN_PATCH) && OneLiners(TWIN_PATCH) by {
      assert AllSafe(TWIN_LINES);
    }
    EditIs(TWIN_TEXT, TWIN_PATCH, spans, spans, "r\r\nr\r\n");
    TwinAgain();
  }
}
