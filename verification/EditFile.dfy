/** `edit_file` from patch to new file text and diff (`src/common/tools/tool_edit_file.cpp`).
    Reading and writing the file are left to the caller. */
module EditFile {
  import opened Strings
  import opened TextLines
  import opened Splice
  import opened HunkPlacement
  import opened PatchParser
  import opened PatchPrinter
  import opened PatchRoundTrip
  import opened PatchReapply

  datatype Refusal =
    | BadPatch(patch: PatchError)
    | AlreadyExists
    | NotThere
    | BadHunk(hunk: EditError)
    | NoChange

  /** The new text of the file, and the answer to the caller. */
  datatype Edited = Edited(body: string, diff: string)

  // ---------------------------------------------------------------------------------------
  // What the parser guarantees
  // ---------------------------------------------------------------------------------------

  /** Hunks have lines, and no line of theirs holds a newline. */
  predicate Tidy(hunks: seq<Hunk>) {
    forall k :: 0 <= k < |hunks| ==> hunks[k].lines != [] && TextsOneLine(hunks[k].lines)
  }

  predicate TidyState(st: ParseState) {
    Tidy(st.hunks) && TextsOneLine(st.current.lines)
  }

  lemma CloseTidy(st: ParseState)
    requires TidyState(st) && CloseHunk(st).Ok?
    ensures TidyState(CloseHunk(st).value)
  {
  }

  lemma StepTidy(st: ParseState, line: string)
    requires TidyState(st) && NoNewline(line) && Step(st, line).Ok?
    ensures TidyState(Step(st, line).value)
  {
    if "@@" <= line || !st.inHunk || FileHeaderLine(line) {
      CloseTidy(st);
    } else if line != "" {
      assert NoNewline(line[1..]);
    }
  }

  lemma {:induction false} LinesTidy(st: ParseState, lines: seq<string>)
    requires TidyState(st) && AllOneLine(lines) && ParseLines(st, lines).Ok?
    ensures TidyState(ParseLines(st, lines).value)
    decreases |lines|
  {
    if lines != [] {
      assert NoNewline(lines[0]);
      StepTidy(st, lines[0]);
      LinesTidy(Step(st, lines[0]).value, lines[1..]);
    }
  }

  lemma {:induction false} LinesOneLine(s: string, at: nat)
    ensures AllOneLine(LinesFrom(s, at))
    decreases |s| - at
  {
    if at < |s| {
      match FindChar(s, '\n', at)
      case None =>
        assert NoNewline(s[at..]);
      case Some(nl) =>
        LinesOneLine(s, nl + 1);
        assert NoNewline(s[at..nl]);
    }
  }

  lemma PatchTidy(patch: string, path: string)
    requires Parse(patch, path).Ok?
    ensures Tidy(Parse(patch, path).value.hunks) && Parse(patch, path).value.hunks != []
  {
    LinesOneLine(patch, 0);
    var lines := StripReturns(LinesOf(patch));
    forall k | 0 <= k < |lines| ensures NoNewline(lines[k]) {
      assert NoNewline(LinesOf(patch)[k]);
    }
    LinesTidy(START, lines);
    CloseTidy(ParseLines(START, lines).value);
  }

  // ---------------------------------------------------------------------------------------
  // The edit
  // ---------------------------------------------------------------------------------------

  function Texts(lines: seq<PatchLine>): (texts: seq<string>)
    ensures |texts| == |lines|
  {
    seq(|lines|, i requires 0 <= i < |lines| => lines[i].text)
  }

  /** The texts of all lines of all hunks. */
  function AllTexts(hunks: seq<Hunk>): seq<string> {
    if hunks == [] then [] else Texts(hunks[0].lines) + AllTexts(hunks[1..])
  }

  predicate OnlyAdds(lines: seq<PatchLine>) {
    forall i :: 0 <= i < |lines| ==> lines[i].kind == '+'
  }

  predicate AdditionsOnly(hunks: seq<Hunk>) {
    hunks != [] && forall k :: 0 <= k < |hunks| ==> OnlyAdds(hunks[k].lines)
  }

  /** A file made from nothing. */
  function Created(path: string, lines: seq<string>): Edited {
    var spans := [Span(0, 0, lines)];
    Edited(Join(lines, lines != []), Truncated(Unlines(DiffLines(path, [], spans, true))))
  }

  /** The new text: its newline at the end is the old one's, or new where the file was empty. */
  function NewText(original: string, updated: seq<string>): string {
    Join(updated, if original == "" && updated != [] then true else EndsInNewline(original))
  }

  function Rewritten(path: string, original: string, spans: seq<Span>): Result<Edited, Refusal>
    requires Apart(spans, |LinesOf(original)|)
  {
    ApartChains(spans, |LinesOf(original)|);
    var file, sorted := LinesOf(original), SortUp(spans);
    var body := NewText(original, Merge(file, sorted, 0));
    if body == original then Err(NoChange) else Ok(Edited(body, Truncated(Unlines(DiffLines(path, file, sorted, false)))))
  }

  ghost function Edit(path: string, existing: Option<string>, patch: string): Result<Edited, Refusal> {
    match Parse(patch, path)
    case Err(e) => Err(BadPatch(e))
    case Ok(p) =>
      match existing
      case None => if AdditionsOnly(p.hunks) then Ok(Created(path, AllTexts(p.hunks))) else Err(NotThere)
      case Some(original) =>
        if p.newFile then Err(AlreadyExists)
        else match PlaceAll(LinesOf(original), p.hunks, [])
          case Err(e) => Err(BadHunk(e))
          case Ok(spans) =>
            PlacedApart(LinesOf(original), p.hunks, []);
            Rewritten(path, original, spans)
  }

  method CheckAdditions(hunks: seq<Hunk>) returns (ok: bool)
    ensures ok == AdditionsOnly(hunks)
  {
    if hunks == [] {
      return false;
    }
    for k := 0 to |hunks|
      invariant forall j :: 0 <= j < k ==> OnlyAdds(hunks[j].lines)
    {
      for i := 0 to |hunks[k].lines|
        invariant forall j :: 0 <= j < i ==> hunks[k].lines[j].kind == '+'
      {
        if hunks[k].lines[i].kind != '+' {
          assert !OnlyAdds(hunks[k].lines);
          return false;
        }
      }
    }
    ok := true;
  }

  method CollectTexts(hunks: seq<Hunk>) returns (lines: seq<string>)
    ensures lines == AllTexts(hunks)
  {
    lines := [];
    assert hunks[0..] == hunks;
    for k := 0 to |hunks|
      invariant lines + AllTexts(hunks[k..]) == AllTexts(hunks)
    {
      assert hunks[k..][1..] == hunks[k + 1..];
      ghost var before, texts := lines, Texts(hunks[k].lines);
      for i := 0 to |hunks[k].lines|
        invariant lines == before + texts[..i]
      {
        lines := lines + [hunks[k].lines[i].text];
      }
      assert texts[..|texts|] == texts;
      Associate(before, texts, AllTexts(hunks[k + 1..]));
    }
  }

  method Run(path: string, existing: Option<string>, patch: string) returns (r: Result<Edited, Refusal>)
    ensures r == Edit(path, existing, patch)
  {
    var parsed := ParsePatch(patch, path);
    if parsed.Err? {
      return Err(BadPatch(parsed.error));
    }
    var hunks := parsed.value.hunks;
    if existing.Some? && parsed.value.newFile {
      return Err(AlreadyExists);
    }
    if existing.None? {
      var additions := CheckAdditions(hunks);
      if !additions {
        return Err(NotThere);
      }
      r := CreateFile(path, hunks);
    } else {
      var placed := PlaceHunks(LinesOf(existing.value), hunks);
      if placed.Err? {
        return Err(BadHunk(placed.error));
      }
      r := ChangeFile(path, existing.value, placed.value);
    }
  }

  method CreateFile(path: string, hunks: seq<Hunk>) returns (r: Result<Edited, Refusal>)
    ensures r == Ok(Created(path, AllTexts(hunks)))
  {
    var lines := CollectTexts(hunks);
    var body := JoinLines(lines, lines != []);
    var spans := [Span(0, 0, lines)];
    var diff := FormatDiff(path, [], spans, true);
    assert SortUp(spans) == spans by { assert spans[1..] == []; }
    r := Ok(Edited(body, diff));
  }

  method ChangeFile(path: string, original: string, spans: seq<Span>) returns (r: Result<Edited, Refusal>)
    requires Apart(spans, |LinesOf(original)|)
    ensures r == Rewritten(path, original, spans)
  {
    var file := SplitLines(original);
    var updated := SpliceAll(file.lines, spans);
    var trailing := file.trailingNewline;
    if original == "" && updated != [] {
      trailing := true;
    }
    var body := JoinLines(updated, trailing);
    if body == original {
      return Err(NoChange);
    }
    var diff := FormatDiff(path, file.lines, spans, false);
    r := Ok(Edited(body, diff));
  }

  // ---------------------------------------------------------------------------------------
  // The answer is the edit
  // ---------------------------------------------------------------------------------------

  lemma {:induction false} NewSideOneLine(lines: seq<PatchLine>)
    requires TextsOneLine(lines)
    ensures AllOneLine(NewSide(lines))
    decreases |lines|
  {
    if lines != [] {
      NewSideOneLine(lines[1..]);
      assert NoNewline(lines[0].text);
    }
  }

  lemma SpanOneLine(file: seq<string>, hunk: Hunk)
    requires TextsOneLine(hunk.lines) && SpanFor(file, hunk).Ok?
    ensures AllOneLine(SpanFor(file, hunk).value.neu)
  {
    NewSideOneLine(hunk.lines);
    NewSideOneLine(HunkPlacement.Changed(hunk.lines));
  }

  /** Spans worth printing. */
  predicate Printable(spans: seq<Span>) {
    NoneIdle(spans) && AddsOneLiners(spans)
  }

  lemma {:induction false} PlacedPrintable(file: seq<string>, hunks: seq<Hunk>, spans: seq<Span>)
    requires Tidy(hunks) && Printable(spans) && PlaceAll(file, hunks, spans).Ok?
    ensures Printable(PlaceAll(file, hunks, spans).value)
    decreases |hunks|
  {
    if hunks != [] {
      var span := SpanFor(file, hunks[0]).value;
      if Idle(span) {
        PlacedPrintable(file, hunks[1..], spans);
      } else {
        SpanOneLine(file, hunks[0]);
        PlacedPrintable(file, hunks[1..], spans + [span]);
      }
    }
  }

  lemma SortedPrintable(spans: seq<Span>)
    requires Printable(spans)
    ensures Printable(SortUp(spans))
  {
    var sorted := SortUp(spans);
    SortUpSorts(spans);
    forall k | 0 <= k < |sorted| ensures !Idle(sorted[k]) && AllOneLine(sorted[k].neu) {
      assert sorted[k] in multiset(sorted);
      assert sorted[k] in multiset(spans);
    }
  }

  lemma SortedTwice(spans: seq<Span>, n: nat)
    requires Apart(spans, n)
    ensures SortUp(SortUp(spans)) == SortUp(spans)
  {
    var sorted := SortUp(spans);
    ApartChains(spans, n);
    SortUpSorts(spans);
    SortUpSorts(sorted);
    SameOrder(SortUp(sorted), sorted);
  }

  lemma NothingChanged(original: string)
    ensures NewText(original, Merge(LinesOf(original), [], 0)) == original
  {
    JoinSplit(original);
    assert LinesOf(original)[0..] == LinesOf(original);
  }

  /** The spans a patch comes to in a file. */
  ghost function Planned(path: string, original: string, patch: string): seq<Span>
    requires Parse(patch, path).Ok? && PlaceAll(LinesOf(original), Parse(patch, path).value.hunks, []).Ok?
  {
    PlaceAll(LinesOf(original), Parse(patch, path).value.hunks, []).value
  }

  lemma PlannedGood(path: string, original: string, patch: string)
    requires Edit(path, Some(original), patch).Ok?
    ensures var spans, file := Planned(path, original, patch), LinesOf(original);
      && Apart(spans, |file|) && Printable(spans) && spans != []
      && Chained(SortUp(spans), 0, |file|) && Apart(SortUp(spans), |file|) && Printable(SortUp(spans)) && SortUp(spans) != []
  {
    var spans, file := Planned(path, original, patch), LinesOf(original);
    var hunks := Parse(patch, path).value.hunks;
    PatchTidy(patch, path);
    PlacedApart(file, hunks, []);
    PlacedPrintable(file, hunks, []);
    if spans == [] {
      NothingChanged(original);
    }
    ApartChains(spans, |file|);
    SortedPrintable(spans);
    SortUpSorts(spans);
    assert |multiset(SortUp(spans))| == |multiset(spans)|;
  }

  /** No line the answer shows ends in a carriage return or looks like a file header, and its file
      headers name the file. */
  ghost predicate Readable(path: string, original: string, patch: string)
    requires Edit(path, Some(original), patch).Ok?
  {
    PlannedGood(path, original, patch);
    HunksSafe(HunksOf(LinesOf(original), SortUp(Planned(path, original, patch)))) && Carried(path)
  }

  lemma EditPlanned(path: string, original: string, patch: string, hunks: seq<Hunk>, spans: seq<Span>)
    requires Parse(patch, path) == Ok(Patch(hunks, false)) && PlaceAll(LinesOf(original), hunks, []) == Ok(spans)
    ensures Apart(spans, |LinesOf(original)|) && Edit(path, Some(original), patch) == Rewritten(path, original, spans)
  {
    PlacedApart(LinesOf(original), hunks, []);
  }

  lemma RewrittenSorted(path: string, original: string, spans: seq<Span>)
    requires Apart(spans, |LinesOf(original)|) && Apart(SortUp(spans), |LinesOf(original)|)
    ensures Rewritten(path, original, SortUp(spans)) == Rewritten(path, original, spans)
  {
    SortedTwice(spans, |LinesOf(original)|);
  }

  /** An answer that was not cut off is the whole diff. */
  lemma AnswerIs(path: string, original: string, spans: seq<Span>)
    requires Apart(spans, |LinesOf(original)|) && Chained(SortUp(spans), 0, |LinesOf(original)|)
    requires Rewritten(path, original, spans).Ok? && |Rewritten(path, original, spans).value.diff| <= MAX_TOOL_OUTPUT_CHARS
    ensures Rewritten(path, original, spans).value.diff == Unlines(DiffLines(path, LinesOf(original), SortUp(spans), false))
  {
  }

  /** The spans of an accepted edit as its answer shows them, top down. */
  ghost function Shown(path: string, original: string, patch: string): seq<Span>
    requires Edit(path, Some(original), patch).Ok?
  {
    SortUp(Planned(path, original, patch))
  }

  /** The answer, uncut, and what the edit is. */
  lemma AnswerShows(path: string, original: string, patch: string)
    requires Edit(path, Some(original), patch).Ok? && |Edit(path, Some(original), patch).value.diff| <= MAX_TOOL_OUTPUT_CHARS
    ensures var file, spans := LinesOf(original), Shown(path, original, patch);
      && Chained(spans, 0, |file|) && Apart(spans, |file|) && Printable(spans) && spans != [] && AllOneLine(file)
      && Edit(path, Some(original), patch).value.diff == Unlines(DiffLines(path, file, spans, false))
      && Edit(path, Some(original), patch) == Rewritten(path, original, spans)
  {
    var spans := Planned(path, original, patch);
    PlannedGood(path, original, patch);
    AnswerIs(path, original, spans);
    LinesOneLine(original, 0);
    RewrittenSorted(path, original, spans);
  }

  /** Each hunk of the answer comes to its own span in the old file again exactly when the answer
      shows nothing that cannot be read back. */
  lemma AnswerReapplies(path: string, original: string, patch: string)
    requires NoNewline(path) && Edit(path, Some(original), patch).Ok?
    requires |Edit(path, Some(original), patch).value.diff| <= MAX_TOOL_OUTPUT_CHARS
    ensures Reapplies(Edit(path, Some(original), patch).value.diff, path, LinesOf(original), Shown(path, original, patch))
      <==> Readable(path, original, patch)
  {
    AnswerShows(path, original, patch);
    DiffReapplies(path, LinesOf(original), Shown(path, original, patch), false);
  }

  /** Editing the old file again with the answer of an edit gives the same text and the same
      answer, unless the answer was cut off or shows something that cannot be read back. */
  lemma AnswerRepeatsEdit(path: string, original: string, patch: string)
    requires NoNewline(path) && Edit(path, Some(original), patch).Ok?
    requires |Edit(path, Some(original), patch).value.diff| <= MAX_TOOL_OUTPUT_CHARS && Readable(path, original, patch)
    ensures Edit(path, Some(original), Edit(path, Some(original), patch).value.diff) == Edit(path, Some(original), patch)
  {
    var file, spans := LinesOf(original), Shown(path, original, patch);
    AnswerShows(path, original, patch);
    DiffReapplies(path, file, spans, false);
    var diff, hs := Unlines(DiffLines(path, file, spans, false)), HunksOf(file, spans);
    EditPlanned(path, original, diff, Numbered(hs, 0), spans);
  }

  /** What an answer that repeats its edit is placed as. */
  lemma RepeatedSpans(path: string, original: string, patch: string)
    requires NoNewline(path) && Edit(path, Some(original), patch).Ok?
    requires |Edit(path, Some(original), patch).value.diff| <= MAX_TOOL_OUTPUT_CHARS
    requires Edit(path, Some(original), Edit(path, Some(original), patch).value.diff) == Edit(path, Some(original), patch)
    ensures Shown(path, original, Edit(path, Some(original), patch).value.diff) == Shown(path, original, patch)
  {
    var diff := Edit(path, Some(original), patch).value.diff;
    AnswerShows(path, original, patch);
    AnswerShows(path, original, diff);
    DiffTells(path, LinesOf(original), Shown(path, original, diff), Shown(path, original, patch));
  }

  /** Reading the patch and placing its hunks gives the spans, in whatever order. */
  ghost predicate ComesTo(patch: string, path: string, file: seq<string>, spans: seq<Span>) {
    && Parse(patch, path).Ok? && !Parse(patch, path).value.newFile
    && PlaceAll(file, Parse(patch, path).value.hunks, []).Ok? && SortUp(PlaceAll(file, Parse(patch, path).value.hunks, []).value) == spans
  }

  /** In any file the answer makes the same edit exactly when it comes to the same spans. */
  lemma AnswerRepeatsBySpans(path: string, original: string, patch: string)
    requires NoNewline(path) && Edit(path, Some(original), patch).Ok?
    requires |Edit(path, Some(original), patch).value.diff| <= MAX_TOOL_OUTPUT_CHARS
    ensures Edit(path, Some(original), Edit(path, Some(original), patch).value.diff) == Edit(path, Some(original), patch)
      <==> ComesTo(Edit(path, Some(original), patch).value.diff, path, LinesOf(original), Shown(path, original, patch))
  {
    var diff, spans := Edit(path, Some(original), patch).value.diff, Shown(path, original, patch);
    AnswerShows(path, original, patch);
    if Edit(path, Some(original), diff) == Edit(path, Some(original), patch) {
      RepeatedSpans(path, original, patch);
    }
    if ComesTo(diff, path, LinesOf(original), spans) {
      var hunks := Parse(diff, path).value.hunks;
      var placed := PlaceAll(LinesOf(original), hunks, []).value;
      EditPlanned(path, original, diff, hunks, placed);
      RewrittenSorted(path, original, placed);
    }
  }

  /** For an edit of one place, and for any edit of a file without carriage returns at line ends,
      that is the only case in which it does. */
  lemma AnswerRepeatsExactly(path: string, original: string, patch: string)
    requires NoNewline(path) && Edit(path, Some(original), patch).Ok?
    requires |Edit(path, Some(original), patch).value.diff| <= MAX_TOOL_OUTPUT_CHARS
    requires |Planned(path, original, patch)| == 1 || NoReturns(LinesOf(original))
    ensures Edit(path, Some(original), Edit(path, Some(original), patch).value.diff) == Edit(path, Some(original), patch)
      <==> Readable(path, original, patch)
  {
    var diff := Edit(path, Some(original), patch).value.diff;
    if Readable(path, original, patch) {
      AnswerRepeatsEdit(path, original, patch);
    }
    if Edit(path, Some(original), diff) == Edit(path, Some(original), patch) {
      RepeatedSpans(path, original, patch);
      OnlyReadable(path, original, patch, diff);
    }
  }

  lemma OnlyReadable(path: string, original: string, patch: string, diff: string)
    requires NoNewline(path) && Edit(path, Some(original), patch).Ok? && diff == Edit(path, Some(original), patch).value.diff
    requires |diff| <= MAX_TOOL_OUTPUT_CHARS && Edit(path, Some(original), diff).Ok?
    requires Shown(path, original, diff) == Shown(path, original, patch)
    requires |Planned(path, original, patch)| == 1 || NoReturns(LinesOf(original))
    ensures Readable(path, original, patch)
  {
    hide RereadAll, HunksSafe, NoReturns, LinesOf, AllOneLine, NoNewline, Carried;
    var file, spans := LinesOf(original), Shown(path, original, patch);
    AnswerShows(path, original, patch);
    DiffPlaced(path, file, spans);
    PlacedSafe(file, spans, Planned(path, original, patch), Planned(path, original, diff));
  }

  /** Reading a diff of these spans. */
  lemma DiffPlaced(path: string, file: seq<string>, spans: seq<Span>)
    requires NoNewline(path) && Chained(spans, 0, |file|) && Printable(spans) && spans != [] && AllOneLine(file)
    ensures var read := Parse(Unlines(DiffLines(path, file, spans, false)), path);
      read.Ok? ==> read.value.hunks == RereadAll(HunksOf(file, spans), 0) && OnlyRemovedHeaders(HunksOf(file, spans)) && Carried(path)
  {
    PrintedWell(file, spans);
    DiffTextIs(path, file, spans, false);
    DiffRereads(path, false, HunksOf(file, spans));
  }

  lemma CreatedSpan(lines: seq<string>)
    requires lines != [] && AllOneLine(lines)
    ensures var spans := [Span(0, 0, lines)];
      Chained(spans, 0, 0) && Apart(spans, 0) && Printable(spans)
      && AllTexts(Numbered(HunksOf([], spans), 0)) == lines && AdditionsOnly(Numbered(HunksOf([], spans), 0))
  {
    var spans := [Span(0, 0, lines)];
    var hs := HunksOf([], spans);
    var hunks := Numbered(hs, 0);
    assert hunks[0].lines == Marked('+', lines);
    assert Texts(hunks[0].lines) == lines;
    assert hunks[1..] == [] && lines + [] == lines;
  }

  lemma TextsNonEmpty(hunks: seq<Hunk>)
    requires Tidy(hunks) && hunks != []
    ensures AllTexts(hunks) != []
  {
  }

  lemma {:induction false} TextsTidy(hunks: seq<Hunk>)
    requires Tidy(hunks)
    ensures AllOneLine(AllTexts(hunks))
  {
    if hunks != [] {
      TextsTidy(hunks[1..]);
      assert TextsOneLine(hunks[0].lines);
    }
  }

  /** The one hunk a created file is answered with, and what is read of it. */
  lemma CreatedHunk(lines: seq<string>)
    requires lines != [] && AllOneLine(lines)
    ensures var hs := HunksOf([], [Span(0, 0, lines)]);
      if NoneLooksLikeHeader(lines) then
        NoHeaders(hs) && AdditionsOnly(RereadAll(hs, 0)) && AllTexts(RereadAll(hs, 0)) == StripReturns(lines)
      else !OnlyRemovedHeaders(hs)
  {
    var hs := HunksOf([], [Span(0, 0, lines)]);
    CreatedSpan(lines);
    var shown := hs[0].lines;
    assert shown == Marked('+', lines) && forall k :: 0 <= k < |lines| ==> shown[k] == PatchLine('+', lines[k]);
    if NoneLooksLikeHeader(lines) {
      var hunks := RereadAll(hs, 0);
      RereadWhole(shown);
      assert Texts(hunks[0].lines) == StripReturns(lines);
      assert hunks[1..] == [] && StripReturns(lines) + [] == StripReturns(lines);
    } else {
      assert shown[HeaderAt(shown)].kind == '+';
    }
  }

  /** What a created file is answered with is read back. */
  lemma CreationReads(path: string, lines: seq<string>)
    requires NoNewline(path) && lines != [] && AllOneLine(lines)
    ensures var read := Parse(Unlines(DiffLines(path, [], [Span(0, 0, lines)], true)), path);
      && (NoneLooksLikeHeader(lines) && Carried(path) <==> read.Ok?)
      && (read.Ok? ==> AdditionsOnly(read.value.hunks) && AllTexts(read.value.hunks) == StripReturns(lines))
  {
    hide NoHeaders, OnlyRemovedHeaders, NoneLooksLikeHeader, Carried, Parse, RereadAll, AllTexts, AdditionsOnly, HunksOf, DiffLines,
      AllOneLine, NoNewline, DiffText, StripReturns, WellFormed, OneLiners;
    var spans := [Span(0, 0, lines)];
    CreatedSpan(lines);
    PrintedWell([], spans);
    DiffTextIs(path, [], spans, true);
    DiffRereads(path, true, HunksOf([], spans));
    CreatedHunk(lines);
  }

  predicate NoneLooksLikeHeader(lines: seq<string>) {
    forall k :: 0 <= k < |lines| ==> !("++ " <= lines[k])
  }

  lemma JoinedSize(lines: seq<string>)
    ensures |Join(lines, true)| == TextSize(lines) + |lines|
    decreases |lines|
  {
    if |lines| > 1 {
      JoinCons(lines[0], lines[1..], true);
      JoinedSize(lines[1..]);
      assert lines == [lines[0]] + lines[1..];
    }
  }

  /** The same for a file that was created: the answer creates it again exactly when no line ends in
      a carriage return, none looks like a file header, and the file headers name the file. */
  lemma AnswerRepeatsCreation(path: string, patch: string)
    requires NoNewline(path) && Edit(path, None, patch).Ok?
    requires |Edit(path, None, patch).value.diff| <= MAX_TOOL_OUTPUT_CHARS
    ensures Edit(path, None, Edit(path, None, patch).value.diff) == Edit(path, None, patch)
      <==> HunksSafe(HunksOf([], [Span(0, 0, AllTexts(Parse(patch, path).value.hunks))])) && Carried(path)
  {
    hide Carried, NoneLooksLikeHeader, NoReturns, DiffLines, HunksSafe, TextSize, Parse;
    var hunks := Parse(patch, path).value.hunks;
    var lines := AllTexts(hunks);
    PatchTidy(patch, path);
    TextsNonEmpty(hunks);
    TextsTidy(hunks);
    CreationReads(path, lines);
    var diff := Unlines(DiffLines(path, [], [Span(0, 0, lines)], true));
    assert Edit(path, None, patch) == Ok(Edited(Join(lines, true), diff));
    CreatedSafe(lines);
    StripKeeps(lines);
    StripShrinks(lines);
    JoinedSize(lines);
    JoinedSize(StripReturns(lines));
  }

  lemma CreatedSafe(lines: seq<string>)
    requires lines != [] && AllOneLine(lines)
    ensures HunksSafe(HunksOf([], [Span(0, 0, lines)])) <==> NoneLooksLikeHeader(lines) && NoReturns(lines)
  {
    CreatedSpan(lines);
    var hs := HunksOf([], [Span(0, 0, lines)]);
    assert hs[0].lines == Marked('+', lines);
    assert forall k :: 0 <= k < |lines| ==> hs[0].lines[k] == PatchLine('+', lines[k]);
  }
}
