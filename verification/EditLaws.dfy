/** What an edit does, told without the functions that compute it
    (`src/common/tools/tool_edit_file.cpp`). */
module EditLaws {
  import opened Strings
  import opened TextLines
  import opened Splice
  import opened HunkPlacement
  import opened PatchParser
  import opened PatchPrinter
  import opened PatchRoundTrip
  import opened PatchReapply
  import opened EditFile

  // ---------------------------------------------------------------------------------------
  // Which edits are accepted
  // ---------------------------------------------------------------------------------------

  /** A span covers the lines it removes. One that removes none covers the line it goes in front of. */
  predicate Covers(s: Span, line: nat) {
    if s.oldLen == 0 then line == s.from else s.from <= line < s.from + s.oldLen
  }

  /** Spans overlap exactly when they cover a common line. */
  lemma OverlapIs(a: Span, b: Span)
    ensures Overlap(a, b) <==> exists line: nat :: Covers(a, line) && Covers(b, line)
  {
    if Overlap(a, b) {
      var line := if a.from < b.from then b.from else a.from;
      assert Covers(a, line) && Covers(b, line);
    }
  }

  ghost predicate Placeable(file: seq<string>, hunks: seq<Hunk>) {
    forall k :: 0 <= k < |hunks| ==> SpanFor(file, hunks[k]).Ok?
  }

  /** The spans of the hunks that change anything. */
  ghost function Live(file: seq<string>, hunks: seq<Hunk>): seq<Span>
    requires Placeable(file, hunks)
  {
    if hunks == [] then []
    else
      var span := SpanFor(file, hunks[0]).value;
      (if span.oldLen == 0 && span.neu == [] then [] else [span]) + Live(file, hunks[1..])
  }

  /** No span from number `n` on covers a line an earlier one covers. */
  ghost predicate NoneShared(spans: seq<Span>, n: nat) {
    forall j, k, line: nat :: 0 <= j < k < |spans| && n <= k ==> !(Covers(spans[j], line) && Covers(spans[k], line))
  }

  lemma SharedIs(spans: seq<Span>, n: nat)
    ensures NoneShared(spans, n) <==> forall j, k :: 0 <= j < k < |spans| && n <= k ==> !Overlap(spans[j], spans[k])
  {
    forall j, k | 0 <= j < k < |spans| && n <= k
      ensures Overlap(spans[j], spans[k]) <==> exists line: nat :: Covers(spans[j], line) && Covers(spans[k], line)
    {
      OverlapIs(spans[j], spans[k]);
    }
  }

  /** The hunks are placed exactly when each is and none covers a line of another, and then as their
      spans in order, without those that change nothing. */
  lemma {:induction false} PlacedExactly(file: seq<string>, hunks: seq<Hunk>, done: seq<Span>)
    ensures PlaceAll(file, hunks, done).Ok? <==> Placeable(file, hunks) && NoneShared(done + Live(file, hunks), |done|)
    ensures PlaceAll(file, hunks, done).Ok? ==> PlaceAll(file, hunks, done).value == done + Live(file, hunks)
    decreases |hunks|
  {
    hide SpanFor, Covers;
    if hunks == [] {
      assert done + [] == done;
    } else {
      var rest := hunks[1..];
      assert Placeable(file, hunks) <==> SpanFor(file, hunks[0]).Ok? && Placeable(file, rest) by {
        assert forall k :: 0 < k < |hunks| ==> hunks[k] == rest[k - 1];
      }
      if SpanFor(file, hunks[0]).Ok? {
        var span := SpanFor(file, hunks[0]).value;
        if Idle(span) {
          PlacedExactly(file, rest, done);
          if Placeable(file, hunks) {
            assert [] + Live(file, rest) == Live(file, rest);
          }
        } else {
          PlacedExactly(file, rest, done + [span]);
          if Placeable(file, hunks) {
            OneMoreSpan(done, span, Live(file, rest));
          } else if !OverlapsAny(done, span) {
            assert PlaceAll(file, hunks, done) == PlaceAll(file, rest, done + [span]);
          }
        }
      }
    }
  }

  lemma OneMoreSpan(done: seq<Span>, span: Span, rest: seq<Span>)
    ensures (done + [span]) + rest == done + ([span] + rest)
    ensures NoneShared(done + ([span] + rest), |done|) <==> !OverlapsAny(done, span) && NoneShared((done + [span]) + rest, |done| + 1)
  {
    var all := (done + [span]) + rest;
    assert all == done + ([span] + rest);
    SharedIs(all, |done|);
    SharedIs(all, |done| + 1);
    assert all[|done|] == span && forall j :: 0 <= j < |done| ==> all[j] == done[j];
  }

  /** When a patch that can be read is accepted for a file that is there: it does not ask for a new
      file, every hunk has its place, no two cover a line, and the text is not what it was. */
  lemma AcceptsExactly(path: string, original: string, patch: string)
    requires Parse(patch, path).Ok?
    ensures var hunks, file := Parse(patch, path).value.hunks, LinesOf(original);
      Edit(path, Some(original), patch).Ok? <==>
        && !Parse(patch, path).value.newFile && Placeable(file, hunks) && NoneShared(Live(file, hunks), 0)
        && Changes(path, original, patch)
  {
    var hunks, file := Parse(patch, path).value.hunks, LinesOf(original);
    PlacedExactly(file, hunks, []);
    if Placeable(file, hunks) {
      assert [] + Live(file, hunks) == Live(file, hunks);
    }
    if PlaceAll(file, hunks, []).Ok? {
      PlacedApart(file, hunks, []);
    }
  }

  /** The merged lines, joined as the file was, are another text. */
  ghost predicate Changes(path: string, original: string, patch: string) {
    Parse(patch, path).Ok? && PlaceAll(LinesOf(original), Parse(patch, path).value.hunks, []).Ok?
    && var spans := PlaceAll(LinesOf(original), Parse(patch, path).value.hunks, []).value;
    PlacedApart(LinesOf(original), Parse(patch, path).value.hunks, []);
    ApartChains(spans, |LinesOf(original)|);
    NewText(original, Merge(LinesOf(original), SortUp(spans), 0)) != original
  }

  /** A patch whose `+++` line names another path is refused, whether there is a file or not. */
  lemma OtherFileNotEdited(path: string, existing: Option<string>, patch: string, i: nat)
    requires var lines := StripReturns(LinesOf(patch)); i < |lines| && "+++ " <= lines[i]
    requires var header := HeaderPath(StripReturns(LinesOf(patch))[i]); var name := HeaderName(header);
      header != "" && (name == "" || name == "/dev/null" || (path != name && !EndsWith(path, "/" + name)))
    ensures Edit(path, existing, patch).Err?
  {
    OtherFileRefused(patch, path, i);
  }

  // ---------------------------------------------------------------------------------------
  // The text that is left
  // ---------------------------------------------------------------------------------------

  lemma {:induction false} JoinEnds(lines: seq<string>, trailing: bool)
    requires lines != []
    ensures var body := Join(lines, trailing);
      EndsInNewline(body) <==> trailing || EndsInNewline(lines[|lines| - 1]) || (lines[|lines| - 1] == "" && |lines| > 1)
    decreases |lines|
  {
    if |lines| > 1 {
      var rest := lines[1..];
      JoinEnds(rest, trailing);
      assert rest[|rest| - 1] == lines[|lines| - 1];
      var head, tail := lines[0] + "\n", Join(rest, trailing);
      assert Join(lines, trailing) == head + tail;
      if tail == "" {
        assert head + tail == head && head[|head| - 1] == '\n';
        assert |rest| == 1;
      } else {
        assert (head + tail)[|head + tail| - 1] == tail[|tail| - 1];
      }
    }
  }

  /** An edited file that is not empty ends in a newline when it did before or was empty; otherwise
      only when its last line is empty. */
  lemma FinalNewline(path: string, original: string, patch: string)
    requires Edit(path, Some(original), patch).Ok? && Edit(path, Some(original), patch).value.body != ""
    ensures Chained(EditFile.Shown(path, original, patch), 0, |LinesOf(original)|)
    ensures var body := Edit(path, Some(original), patch).value.body;
      && (original == "" || original[|original| - 1] == '\n' ==> body[|body| - 1] == '\n')
      && (original != "" && original[|original| - 1] != '\n' && body[|body| - 1] == '\n' ==>
          var updated := Merge(LinesOf(original), EditFile.Shown(path, original, patch), 0);
          updated != [] && (updated[|updated| - 1] == "" || EndsInNewline(updated[|updated| - 1])))
  {
    hide Edit, NewText, Merge, LinesOf;
    EditBody(path, original, patch);
    NewTextEnds(original, Merge(LinesOf(original), EditFile.Shown(path, original, patch), 0));
  }

  lemma EditBody(path: string, original: string, patch: string)
    requires Edit(path, Some(original), patch).Ok?
    ensures Chained(EditFile.Shown(path, original, patch), 0, |LinesOf(original)|)
    ensures Edit(path, Some(original), patch).value.body
         == NewText(original, Merge(LinesOf(original), EditFile.Shown(path, original, patch), 0))
  {
    hide NewText, Merge, LinesOf;
    PlannedGood(path, original, patch);
  }

  lemma NewTextEnds(original: string, updated: seq<string>)
    requires NewText(original, updated) != ""
    ensures var body := NewText(original, updated);
      && (original == "" || original[|original| - 1] == '\n' ==> body[|body| - 1] == '\n')
      && (original != "" && original[|original| - 1] != '\n' && body[|body| - 1] == '\n' ==>
          updated != [] && (updated[|updated| - 1] == "" || EndsInNewline(updated[|updated| - 1])))
  {
    if updated != [] {
      JoinEnds(updated, true);
      JoinEnds(updated, false);
    }
  }

  /** A created file is the added lines, each with a newline behind it. */
  lemma CreatedText(path: string, patch: string)
    requires Edit(path, None, patch).Ok?
    ensures Edit(path, None, patch).value.body == Unlines(AllTexts(Parse(patch, path).value.hunks))
    ensures forall h, i :: h in Parse(patch, path).value.hunks && 0 <= i < |h.lines| ==> h.lines[i].kind == '+'
  {
    var hunks := Parse(patch, path).value.hunks;
    JoinIsUnlines(AllTexts(hunks));
    forall h, i | h in hunks && 0 <= i < |h.lines| ensures h.lines[i].kind == '+' {
      var k :| 0 <= k < |hunks| && hunks[k] == h;
      assert OnlyAdds(hunks[k].lines);
    }
  }

  lemma {:induction false} JoinIsUnlines(lines: seq<string>)
    ensures Join(lines, lines != []) == Unlines(lines)
    decreases |lines|
  {
    if |lines| == 1 {
      assert lines[1..] == [];
    } else if |lines| > 1 {
      JoinIsUnlines(lines[1..]);
    }
  }

  /** A text, or its first 8000 characters and a note when it has more. */
  function Shortened(full: string): string {
    if |full| <= 8000 then full else full[..8000] + "\n... [diff truncated]"
  }

  /** The answer is the whole diff of the edit up to 8000 characters, and says so when it is cut there. */
  lemma AnswerIsDiff(path: string, original: string, patch: string)
    requires Edit(path, Some(original), patch).Ok?
    ensures Chained(EditFile.Shown(path, original, patch), 0, |LinesOf(original)|)
    ensures Edit(path, Some(original), patch).value.diff
         == Shortened(Unlines(DiffLines(path, LinesOf(original), EditFile.Shown(path, original, patch), false)))
  {
    hide NewText, Merge, LinesOf, DiffLines;
    PlannedGood(path, original, patch);
  }

  /** And so is that of a created file. */
  lemma CreationIsDiff(path: string, patch: string)
    requires Edit(path, None, patch).Ok?
    ensures Edit(path, None, patch).value.diff
         == Shortened(Unlines(DiffLines(path, [], [Span(0, 0, AllTexts(Parse(patch, path).value.hunks))], true)))
  {
    hide DiffLines;
  }

  // ---------------------------------------------------------------------------------------
  // Where the new side of a printed hunk stands
  // ---------------------------------------------------------------------------------------

  /** By how many lines the first `k` spans make the file longer. */
  function Shift(spans: seq<Span>, k: nat): int
    requires k <= |spans|
  {
    if k == 0 then 0 else |spans[0].neu| - spans[0].oldLen + Shift(spans[1..], k - 1)
  }

  /** With lines `lo` up to `hi` around span `k` and none of another span, the merged file has the
      context and the new lines `Shift` lines further on. */
  lemma {:induction false} NewSideAt(file: seq<string>, spans: seq<Span>, at: nat, k: nat, lo: nat, hi: nat, side: seq<string>)
    requires at <= |file| && Chained(spans, at, |file|) && k < |spans|
    requires (if k == 0 then at else End(spans[k - 1])) <= lo <= spans[k].from
    requires End(spans[k]) <= hi <= if k + 1 == |spans| then |file| else spans[k + 1].from
    requires side == file[lo..spans[k].from] + spans[k].neu + file[End(spans[k])..hi]
    ensures LinesMatch(Merge(file, spans, at), lo - at + Shift(spans, k), side)
    decreases |spans|
  {
    hide Merge, LinesMatch, Shift;
    var s, rest := spans[0], spans[1..];
    MergeCons(file, spans, at);
    if k == 0 {
      MergeFrom(file, rest, End(s), hi);
      FirstSide(file, s, at, lo, hi, Merge(file, rest, hi));
      NoShift(spans);
    } else {
      assert rest[k - 1] == spans[k] && (k > 1 ==> rest[k - 2] == spans[k - 1]);
      NewSideAt(file, rest, End(s), k - 1, lo, hi, side);
      ShiftNext(file, spans, at, k, lo, side, Merge(file, rest, End(s)));
    }
  }

  lemma NoShift(spans: seq<Span>)
    ensures Shift(spans, 0) == 0
  {
  }

  lemma ShiftNext(file: seq<string>, spans: seq<Span>, at: nat, k: nat, lo: nat, side: seq<string>, tail: seq<string>)
    requires 0 < k < |spans| && at <= spans[0].from <= |file|
    requires LinesMatch(tail, lo - End(spans[0]) + Shift(spans[1..], k - 1), side)
    ensures LinesMatch((file[at..spans[0].from] + spans[0].neu) + tail, lo - at + Shift(spans, k), side)
  {
    hide LinesMatch;
    Behind(file[at..spans[0].from] + spans[0].neu, tail, lo - End(spans[0]) + Shift(spans[1..], k - 1), side);
  }

  lemma MergeCons(file: seq<string>, spans: seq<Span>, at: nat)
    requires spans != [] && at <= |file| && Chained(spans, at, |file|)
    ensures Chained(spans[1..], End(spans[0]), |file|)
    ensures Merge(file, spans, at) == (file[at..spans[0].from] + spans[0].neu) + Merge(file, spans[1..], End(spans[0]))
  {
  }

  lemma Behind(head: seq<string>, tail: seq<string>, q: int, part: seq<string>)
    requires LinesMatch(tail, q, part)
    ensures LinesMatch(head + tail, |head| + q, part)
  {
    assert (head + tail)[|head| + q..|head| + q + |part|] == tail[q..q + |part|];
  }

  lemma FirstSide(file: seq<string>, s: Span, at: nat, lo: nat, hi: nat, more: seq<string>)
    requires at <= lo <= s.from && End(s) <= hi <= |file|
    ensures LinesMatch((file[at..s.from] + s.neu) + (file[End(s)..hi] + more), lo - at, file[lo..s.from] + s.neu + file[End(s)..hi])
  {
    var new_ := file[lo..s.from] + s.neu + file[End(s)..hi];
    var all := (file[at..s.from] + s.neu) + (file[End(s)..hi] + more);
    assert file[at..s.from] == file[at..lo] + file[lo..s.from];
    assert all == file[at..lo] + (new_ + more);
  }

  lemma HunkSides(file: seq<string>, s: Span, lo: nat, hi: nat)
    requires lo <= s.from && End(s) <= hi <= |file|
    ensures var h := Shape(file, s, lo, hi);
      && OldSide(h.lines) == file[lo..hi] && NewSide(h.lines) == file[lo..s.from] + s.neu + file[End(s)..hi]
      && h.oldCount == hi - lo && h.newCount == |NewSide(h.lines)|
      && (h.oldCount > 0 ==> h.oldStart == lo + 1) && (h.newCount > 0 ==> h.newStart == lo + 1)
  {
    hide Sections, OldSide, NewSide;
    SectionSides(file[lo..s.from], file[s.from..End(s)], s.neu, file[End(s)..hi]);
    ThreeSlices(file, lo, s.from, End(s), hi);
  }

  /** The ranges of a printed hunk: the old one is where its old side stands in the file; the new one
      has the right length, but is off by the lines that earlier spans add or take away. */
  lemma RangesStand(file: seq<string>, spans: seq<Span>, k: nat)
    requires k < |spans| && Chained(spans, 0, |file|)
    ensures var h, merged := HunkOf(file, spans, k), Merge(file, spans, 0);
      && h.oldCount == |OldSide(h.lines)| && h.newCount == |NewSide(h.lines)|
      && (h.oldCount > 0 ==> LinesMatch(file, h.oldStart - 1, OldSide(h.lines)))
      && (h.newCount > 0 ==> LinesMatch(merged, h.newStart - 1 + Shift(spans, k), NewSide(h.lines)))
  {
    hide Merge, Shape, OldSide, NewSide, Shift;
    var lo, hi := ContextLow(spans, k), ContextHigh(|file|, spans, k);
    RangesAgree(file, spans, k);
    HunkSides(file, spans[k], lo, hi);
    NewSideAt(file, spans, 0, k, lo, hi, NewSide(Shape(file, spans[k], lo, hi).lines));
  }
}
