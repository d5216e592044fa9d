/** Applying the diff an edit is answered with again (`src/common/tools/tool_edit_file.cpp`): which
    spans its hunks come to, and when they are those of the edit. */
module PatchReapply {
  import opened Strings
  import opened TextLines
  import opened Splice
  import opened HunkPlacement
  import opened PatchParser
  import opened PatchPrinter
  import opened PatchRoundTrip

  // ---------------------------------------------------------------------------------------
  // Printed hunks come to their spans
  // ---------------------------------------------------------------------------------------

  predicate NoneIdle(spans: seq<Span>) {
    forall k :: 0 <= k < |spans| ==> !Idle(spans[k])
  }

  lemma ShapeMarks(file: seq<string>, s: Span, lo: nat, hi: nat)
    requires lo <= s.from && End(s) <= hi <= |file| && !Idle(s)
    ensures Marks(Shape(file, s, lo, hi).lines) && Shape(file, s, lo, hi).lines != []
  {
    assert |Shape(file, s, lo, hi).lines| >= s.oldLen + |s.neu|;
  }

  lemma {:induction false} MarkedSides(kind: char, texts: seq<string>)
    ensures OldSide(Marked(kind, texts)) == if kind == ' ' || kind == '-' then texts else []
    ensures NewSide(Marked(kind, texts)) == if kind == ' ' || kind == '+' then texts else []
  {
    if texts != [] {
      MarkedSides(kind, texts[1..]);
      assert Marked(kind, texts)[1..] == Marked(kind, texts[1..]);
      assert texts == [texts[0]] + texts[1..];
    }
  }

  lemma FourSides(a: seq<PatchLine>, b: seq<PatchLine>, c: seq<PatchLine>, d: seq<PatchLine>)
    ensures OldSide(a + b + c + d) == OldSide(a) + OldSide(b) + OldSide(c) + OldSide(d)
    ensures NewSide(a + b + c + d) == NewSide(a) + NewSide(b) + NewSide(c) + NewSide(d)
  {
    OldSideAppend(a + b + c, d);
    OldSideAppend(a + b, c);
    OldSideAppend(a, b);
    NewSideAppend(a + b + c, d);
    NewSideAppend(a + b, c);
    NewSideAppend(a, b);
  }

  /** Both sides of a printed hunk. */
  lemma SectionSides(before: seq<string>, removed: seq<string>, added: seq<string>, after: seq<string>)
    ensures OldSide(Sections(before, removed, added, after)) == before + removed + after
    ensures NewSide(Sections(before, removed, added, after)) == before + added + after
  {
    FourSides(Marked(' ', before), Marked('-', removed), Marked('+', added), Marked(' ', after));
    MarkedSides(' ', before);
    MarkedSides('-', removed);
    MarkedSides('+', added);
    MarkedSides(' ', after);
    assert before + removed + [] + after == before + removed + after;
    assert before + [] + added + after == before + added + after;
  }

  lemma SectionEdges(before: seq<string>, removed: seq<string>, added: seq<string>, after: seq<string>)
    requires removed != [] || added != []
    ensures var lines, n, m := Sections(before, removed, added, after), |before|, |before| + |removed| + |added|;
      && n < m <= |lines| && lines[n].kind != ' ' && lines[m - 1].kind != ' '
      && (forall k :: 0 <= k < n ==> lines[k].kind == ' ') && (forall k :: m <= k < |lines| ==> lines[k].kind == ' ')
      && lines[n..m] == Marked('-', removed) + Marked('+', added)
  {
    var a, b, c, d := Marked(' ', before), Marked('-', removed), Marked('+', added), Marked(' ', after);
    assert Sections(before, removed, added, after) == a + (b + c) + d;
  }

  /** Opening context and changed part of a printed hunk. */
  lemma SectionChanged(before: seq<string>, removed: seq<string>, added: seq<string>, after: seq<string>)
    requires removed != [] || added != []
    ensures var lines := Sections(before, removed, added, after);
      && Lead(lines) == |before|
      && Changed(lines) == Marked('-', removed) + Marked('+', added)
  {
    var lines := Sections(before, removed, added, after);
    SectionEdges(before, removed, added, after);
    LeadIs(lines, |before|);
    TailIs(lines, |before|, |before| + |removed| + |added|);
  }

  lemma ChangedParts(removed: seq<string>, added: seq<string>)
    ensures OldSide(Marked('-', removed) + Marked('+', added)) == removed
    ensures NewSide(Marked('-', removed) + Marked('+', added)) == added
  {
    OldSideAppend(Marked('-', removed), Marked('+', added));
    NewSideAppend(Marked('-', removed), Marked('+', added));
    MarkedSides('-', removed);
    MarkedSides('+', added);
  }

  lemma ThreeSlices(file: seq<string>, a: nat, b: nat, c: nat, d: nat)
    requires a <= b <= c <= d <= |file|
    ensures file[a..b] + file[b..c] + file[c..d] == file[a..d]
  {
  }

  lemma ShapeParts(file: seq<string>, s: Span, lo: nat, hi: nat)
    requires lo <= s.from && End(s) <= hi <= |file| && !Idle(s)
    ensures var lines := Shape(file, s, lo, hi).lines;
      && OldSide(lines) == file[lo..hi]
      && Lead(lines) == s.from - lo
      && OldSide(Changed(lines)) == file[s.from..End(s)] && NewSide(Changed(lines)) == s.neu
      && (lo == hi ==> NewSide(lines) == s.neu)
  {
    var a, b, d := file[lo..s.from], file[s.from..End(s)], file[End(s)..hi];
    var lines := Sections(a, b, s.neu, d);
    assert OldSide(lines) == file[lo..hi] by {
      SectionSides(a, b, s.neu, d);
      ThreeSlices(file, lo, s.from, End(s), hi);
    }
    assert lo == hi ==> NewSide(lines) == s.neu by {
      SectionSides(a, b, s.neu, d);
      assert lo == hi ==> a == [] && d == [];
      assert [] + s.neu + [] == s.neu;
    }
    assert b != [] || s.neu != [];
    SectionChanged(a, b, s.neu, d);
    ChangedParts(b, s.neu);
  }

  lemma SpanLocated(file: seq<string>, hunk: Hunk, quoted: seq<string>, lo: nat, s: Span)
    requires OldSide(hunk.lines) == quoted && quoted != [] && hunk.oldStart == lo + 1 && LinesMatch(file, lo, quoted)
    requires s.from == lo + Lead(hunk.lines) && |OldSide(Changed(hunk.lines))| == s.oldLen && NewSide(Changed(hunk.lines)) == s.neu
    ensures SpanFor(file, hunk) == Ok(s) && Locate(file, quoted, hunk.oldStart - 1) == At(lo)
  {
    LocateHint(file, quoted, lo);
  }

  lemma SpanInserted(file: seq<string>, hunk: Hunk, s: Span)
    requires OldSide(hunk.lines) == [] && hunk.pureInsert && hunk.oldStart == s.from <= |file| && s.oldLen == 0
    requires NewSide(hunk.lines) == s.neu
    ensures SpanFor(file, hunk) == Ok(s)
  {
  }

  /** A printed hunk is found on its own hint, and placing it gives its span back. */
  lemma SpanReturns(file: seq<string>, s: Span, lo: nat, hi: nat, hunk: Hunk)
    requires lo <= s.from && End(s) <= hi <= |file| && !Idle(s)
    requires hunk == AsHunk(Shape(file, s, lo, hi), hunk.number)
    ensures SpanFor(file, hunk) == Ok(s)
    ensures lo < hi ==> Locate(file, OldSide(hunk.lines), hunk.oldStart - 1) == At(lo)
  {
    hide SpanFor, Locate, OldSide, NewSide, Sections;
    var quoted := file[lo..hi];
    ShapeParts(file, s, lo, hi);
    if lo < hi {
      assert SpanFor(file, hunk) == Ok(s) && Locate(file, quoted, lo) == At(lo) by {
        SpanLocated(file, hunk, quoted, lo, s);
      }
    } else {
      assert quoted == [];
      assert SpanFor(file, hunk) == Ok(s) by {
        SpanInserted(file, hunk, s);
      }
    }
  }

  lemma HunkAt(file: seq<string>, spans: seq<Span>, hs: seq<DiffHunk>, j: nat, hunk: Hunk)
    requires j < |spans| && Chained(spans, 0, |file|) && !Idle(spans[j]) && hs == HunksOf(file, spans)
    requires hunk == AsHunk(hs[j], j + 1)
    ensures SpanFor(file, hunk) == Ok(spans[j])
  {
    var s, lo, hi := spans[j], ContextLow(spans, j), ContextHigh(|file|, spans, j);
    assert lo <= s.from && End(s) <= hi <= |file| && hs[j] == Shape(file, s, lo, hi) by {
      RangesAgree(file, spans, j);
    }
    SpanReturns(file, s, lo, hi, hunk);
  }

  /** Hunk `j` stands for span `j`. */
  ghost predicate StandFor(file: seq<string>, hunks: seq<Hunk>, spans: seq<Span>) {
    |hunks| == |spans| && forall j :: 0 <= j < |hunks| ==> SpanFor(file, hunks[j]) == Ok(spans[j])
  }

  lemma PlaceOne(file: seq<string>, hunk: Hunk, rest: seq<Hunk>, spans: seq<Span>, s: Span)
    requires SpanFor(file, hunk) == Ok(s) && !Idle(s) && !OverlapsAny(spans, s)
    ensures PlaceAll(file, [hunk] + rest, spans) == PlaceAll(file, rest, spans + [s])
  {
    assert ([hunk] + rest)[1..] == rest;
  }

  lemma NoneOverlaps(spans: seq<Span>, k: nat, n: nat)
    requires k < |spans| && Apart(spans, n)
    ensures !OverlapsAny(spans[..k], spans[k])
  {
  }

  lemma {:induction false} PlacesAgain(file: seq<string>, hunks: seq<Hunk>, spans: seq<Span>, k: nat)
    requires k <= |spans| && StandFor(file, hunks, spans) && Apart(spans, |file|) && NoneIdle(spans)
    ensures PlaceAll(file, hunks[k..], spans[..k]) == Ok(spans)
    decreases |spans| - k
  {
    if k == |spans| {
      assert spans[..k] == spans && hunks[k..] == [];
    } else {
      var hunk, rest, done, s := hunks[k], hunks[k + 1..], spans[..k], spans[k];
      assert done + [s] == spans[..k + 1] && hunks[k..] == [hunk] + rest;
      assert PlaceAll(file, [hunk] + rest, done) == PlaceAll(file, rest, done + [s]) by {
        NoneOverlaps(spans, k, |file|);
        PlaceOne(file, hunk, rest, done, s);
      }
      PlacesAgain(file, hunks, spans, k + 1);
    }
  }

  lemma HunksWellFormed(file: seq<string>, spans: seq<Span>)
    requires Chained(spans, 0, |file|) && NoneIdle(spans)
    ensures WellFormed(HunksOf(file, spans))
  {
    var hs := HunksOf(file, spans);
    forall k | 0 <= k < |hs| ensures hs[k].lines != [] && Marks(hs[k].lines) {
      RangesAgree(file, spans, k);
      ShapeMarks(file, spans[k], ContextLow(spans, k), ContextHigh(|file|, spans, k));
    }
  }

  predicate AddsOneLiners(spans: seq<Span>) {
    forall k :: 0 <= k < |spans| ==> AllOneLine(spans[k].neu)
  }

  predicate TextsOneLine(lines: seq<PatchLine>) {
    forall j :: 0 <= j < |lines| ==> NoNewline(lines[j].text)
  }

  lemma SectionsOneLine(before: seq<string>, removed: seq<string>, added: seq<string>, after: seq<string>)
    requires AllOneLine(before) && AllOneLine(removed) && AllOneLine(added) && AllOneLine(after)
    ensures TextsOneLine(Sections(before, removed, added, after))
  {
    assert TextsOneLine(Marked(' ', before)) && TextsOneLine(Marked('-', removed));
    assert TextsOneLine(Marked('+', added)) && TextsOneLine(Marked(' ', after));
  }

  lemma BodyOneLine(file: seq<string>, spans: seq<Span>, k: nat)
    requires k < |spans| && Chained(spans, 0, |file|) && AllOneLine(file) && AddsOneLiners(spans)
    ensures TextsOneLine(HunkOf(file, spans, k).lines)
  {
    var s, lo, hi := spans[k], ContextLow(spans, k), ContextHigh(|file|, spans, k);
    RangesAgree(file, spans, k);
    SectionsOneLine(file[lo..s.from], file[s.from..End(s)], s.neu, file[End(s)..hi]);
  }

  lemma HunksOneLine(file: seq<string>, spans: seq<Span>)
    requires Chained(spans, 0, |file|) && AllOneLine(file) && AddsOneLiners(spans)
    ensures OneLiners(HunksOf(file, spans))
  {
    var hs := HunksOf(file, spans);
    forall k, j | 0 <= k < |hs| && 0 <= j < |hs[k].lines| ensures NoNewline(hs[k].lines[j].text) {
      BodyOneLine(file, spans, k);
    }
  }

  lemma HunksStand(file: seq<string>, spans: seq<Span>)
    requires Chained(spans, 0, |file|) && NoneIdle(spans)
    ensures StandFor(file, Numbered(HunksOf(file, spans), 0), spans)
  {
    var hs := HunksOf(file, spans);
    var hunks := Numbered(hs, 0);
    forall j | 0 <= j < |hunks| ensures SpanFor(file, hunks[j]) == Ok(spans[j]) {
      HunkAt(file, spans, hs, j, hunks[j]);
    }
  }

  // ---------------------------------------------------------------------------------------
  // What hunks come to that are not read as they were printed
  // ---------------------------------------------------------------------------------------

  predicate NoReturns(texts: seq<string>) {
    forall k :: 0 <= k < |texts| ==> !EndsInReturn(texts[k])
  }

  lemma StripKeeps(texts: seq<string>)
    ensures StripReturns(texts) == texts <==> NoReturns(texts)
  {
    if StripReturns(texts) == texts {
      forall k | 0 <= k < |texts| ensures !EndsInReturn(texts[k]) {
        assert StripReturns(texts)[k] == StripReturn(texts[k]);
      }
    }
  }

  lemma SectionKinds(before: seq<string>, removed: seq<string>, added: seq<string>, after: seq<string>, k: nat)
    requires k < |Sections(before, removed, added, after)|
    ensures var line, b, r, a := Sections(before, removed, added, after)[k], |before|, |before| + |removed|, |before| + |removed| + |added|;
      line == if k < b then PatchLine(' ', before[k]) else if k < r then PatchLine('-', removed[k - b])
              else if k < a then PatchLine('+', added[k - r]) else PatchLine(' ', after[k - a])
  {
  }

  /** A printed hunk that is read whole. */
  lemma WholeReread(before: seq<string>, removed: seq<string>, added: seq<string>, after: seq<string>)
    requires var lines := Sections(before, removed, added, after); HeaderAt(lines) == |lines|
    ensures Reread(Sections(before, removed, added, after))
         == Sections(StripReturns(before), StripReturns(removed), StripReturns(added), StripReturns(after))
  {
    hide HeaderAt, Sections, StripReturn;
    var lines := Sections(before, removed, added, after);
    var bare := Sections(StripReturns(before), StripReturns(removed), StripReturns(added), StripReturns(after));
    RereadWhole(lines);
    SectionCount(before, removed, added, after);
    SectionCount(StripReturns(before), StripReturns(removed), StripReturns(added), StripReturns(after));
    forall k | 0 <= k < |lines| ensures Stripped(lines)[k] == bare[k] {
      SectionKinds(before, removed, added, after, k);
      SectionKinds(StripReturns(before), StripReturns(removed), StripReturns(added), StripReturns(after), k);
    }
    assert Stripped(lines) == bare;
  }

  lemma SectionCount(before: seq<string>, removed: seq<string>, added: seq<string>, after: seq<string>)
    ensures |Sections(before, removed, added, after)| == |before| + |removed| + |added| + |after|
  {
  }

  /** One that is read up to a removed line. */
  lemma CutReread(before: seq<string>, removed: seq<string>, added: seq<string>, after: seq<string>) returns (j: nat)
    requires var lines := Sections(before, removed, added, after); var n := HeaderAt(lines); n < |lines| && lines[n].kind == '-'
    ensures j < |removed|
    ensures Reread(Sections(before, removed, added, after)) == Sections(StripReturns(before), StripReturns(removed[..j]), [], [])
  {
    hide HeaderAt, Sections, StripReturn;
    var lines := Sections(before, removed, added, after);
    var n := HeaderAt(lines);
    SectionCount(before, removed, added, after);
    SectionKinds(before, removed, added, after, n);
    j := n - |before|;
    var bare := Sections(StripReturns(before), StripReturns(removed[..j]), [], []);
    SectionCount(StripReturns(before), StripReturns(removed[..j]), [], []);
    forall k | 0 <= k < n ensures Reread(lines)[k] == bare[k] {
      SectionKinds(before, removed, added, after, k);
      SectionKinds(StripReturns(before), StripReturns(removed[..j]), [], [], k);
    }
    assert Reread(lines) == bare;
  }

  /** A hunk without a change comes to nothing. */
  lemma ContextIsIdle(file: seq<string>, hunk: Hunk, texts: seq<string>)
    requires hunk.lines == Sections(texts, [], [], []) && SpanFor(file, hunk).Ok?
    ensures Idle(SpanFor(file, hunk).value)
  {
    var lines := hunk.lines;
    SectionSides(texts, [], [], []);
    SectionCount(texts, [], [], []);
    forall k | 0 <= k < |lines| ensures lines[k].kind == ' ' {
      SectionKinds(texts, [], [], [], k);
    }
    LeadIs(lines, |lines|);
    TailIs(lines, |lines|, |lines|);
    assert Changed(lines) == [];
  }

  /** What a hunk with a change comes to: its removed and added lines, where its quoted lines match. */
  lemma ChangeComesTo(file: seq<string>, hunk: Hunk, before: seq<string>, removed: seq<string>, added: seq<string>, after: seq<string>)
    requires hunk.lines == Sections(before, removed, added, after) && (removed != [] || added != []) && SpanFor(file, hunk).Ok?
    ensures var s, quoted := SpanFor(file, hunk).value, before + removed + after;
      && s.oldLen == |removed| && s.neu == added
      && (quoted != [] ==> s.from >= |before| && LinesMatch(file, s.from - |before|, quoted))
  {
    SectionSides(before, removed, added, after);
    SectionChanged(before, removed, added, after);
    ChangedParts(removed, added);
    if before + removed + after == [] {
      assert before == [] && after == [] && [] + added + [] == added;
    }
  }

  /** No line of the hunk looks like a header, and no section has a line that ends in a carriage return. */
  lemma SectionsSafe(before: seq<string>, removed: seq<string>, added: seq<string>, after: seq<string>)
    ensures AllSafe(Sections(before, removed, added, after)) <==>
      && HeaderAt(Sections(before, removed, added, after)) == |Sections(before, removed, added, after)|
      && NoReturns(before) && NoReturns(removed) && NoReturns(added) && NoReturns(after)
  {
    hide Sections;
    var lines := Sections(before, removed, added, after);
    var b, r, a := |before|, |before| + |removed|, |before| + |removed| + |added|;
    SectionCount(before, removed, added, after);
    forall k | 0 <= k < |lines|
      ensures lines[k].text == if k < b then before[k] else if k < r then removed[k - b] else if k < a then added[k - r] else after[k - a]
    {
      SectionKinds(before, removed, added, after, k);
    }
    if AllSafe(lines) {
      forall k | 0 <= k < |before| ensures !EndsInReturn(before[k]) {
        assert Safe(lines[k]);
      }
      forall k | 0 <= k < |removed| ensures !EndsInReturn(removed[k]) {
        assert Safe(lines[b + k]);
      }
      forall k | 0 <= k < |added| ensures !EndsInReturn(added[k]) {
        assert Safe(lines[r + k]);
      }
      forall k | 0 <= k < |after| ensures !EndsInReturn(after[k]) {
        assert Safe(lines[a + k]);
      }
    }
  }

  /** A hunk that is not read as it was printed does not come to its span. */
  lemma SpanNeedsSafety(file: seq<string>, s: Span, lo: nat, hi: nat, hunk: Hunk)
    requires lo <= s.from && End(s) <= hi <= |file| && !Idle(s)
    requires hunk == AsReread(Shape(file, s, lo, hi), hunk.number) && OnlyRemovedHeaders([Shape(file, s, lo, hi)])
    requires SpanFor(file, hunk) == Ok(s)
    ensures AllSafe(Shape(file, s, lo, hi).lines)
  {
    hide Sections, HeaderAt, SpanFor, Reread, AllSafe, OldSide, NewSide;
    var b, r, c := file[lo..s.from], file[s.from..End(s)], file[End(s)..hi];
    var lines := Sections(b, r, s.neu, c);
    assert [Shape(file, s, lo, hi)][0].lines == lines;
    if HeaderAt(lines) < |lines| {
      var j := CutReread(b, r, s.neu, c);
      if j == 0 {
        assert StripReturns(r[..j]) == [];
        ContextIsIdle(file, hunk, StripReturns(b));
      } else {
        ChangeComesTo(file, hunk, StripReturns(b), StripReturns(r[..j]), [], []);
      }
      assert false;
    } else {
      WholeReread(b, r, s.neu, c);
      ChangeComesTo(file, hunk, StripReturns(b), StripReturns(r), StripReturns(s.neu), StripReturns(c));
      QuotedKept(file, lo, s.from, End(s), hi);
      StripKeeps(s.neu);
      SectionsSafe(b, r, s.neu, c);
    }
  }

  /** Lines that match the file without their carriage returns have none. */
  lemma QuotedKept(file: seq<string>, lo: nat, from: nat, end: nat, hi: nat)
    requires lo <= from <= end <= hi <= |file|
    requires var quoted := StripReturns(file[lo..from]) + StripReturns(file[from..end]) + StripReturns(file[end..hi]);
      quoted != [] ==> LinesMatch(file, lo, quoted)
    ensures NoReturns(file[lo..from]) && NoReturns(file[from..end]) && NoReturns(file[end..hi])
  {
    var b, r, c := file[lo..from], file[from..end], file[end..hi];
    var quoted := StripReturns(b) + StripReturns(r) + StripReturns(c);
    if quoted != [] {
      ThreeSlices(file, lo, from, end, hi);
      assert file[lo..lo + |quoted|] == file[lo..hi];
      SameParts(StripReturns(b), StripReturns(r), StripReturns(c), b, r, c);
    }
    StripKeeps(b);
    StripKeeps(r);
    StripKeeps(c);
  }

  lemma SameParts(a: seq<string>, b: seq<string>, c: seq<string>, d: seq<string>, e: seq<string>, f: seq<string>)
    requires a + b + c == d + e + f && |a| == |d| && |b| == |e|
    ensures a == d && b == e && c == f
  {
    var s := a + b + c;
    assert a == s[..|a|] && d == s[..|d|];
    assert b == s[|a|..|a| + |b|] && e == s[|d|..|d| + |e|];
    assert c == s[|a| + |b|..] && f == s[|d| + |e|..];
  }

  /** Placed spans that are as many as the hunks are those of the hunks, one by one. */
  lemma {:induction false} PlacedEach(file: seq<string>, hunks: seq<Hunk>, done: seq<Span>, spans: seq<Span>)
    requires PlaceAll(file, hunks, done) == Ok(spans)
    ensures done <= spans && |spans| <= |done| + |hunks|
    ensures |spans| == |done| + |hunks| ==> forall k :: 0 <= k < |hunks| ==> SpanFor(file, hunks[k]) == Ok(spans[|done| + k])
    decreases |hunks|
  {
    hide SpanFor, Idle;
    if hunks != [] {
      var span, rest := SpanFor(file, hunks[0]).value, hunks[1..];
      if Idle(span) {
        PlacedEach(file, rest, done, spans);
      } else {
        PlacedEach(file, rest, done + [span], spans);
        assert spans[|done|] == (done + [span])[|done|];
        forall k | 0 < k < |hunks| && |spans| == |done| + |hunks| ensures SpanFor(file, hunks[k]) == Ok(spans[|done| + k]) {
          assert hunks[k] == rest[k - 1];
        }
      }
    }
  }

  /** Reading the patch and placing its hunks gives the spans, in order. */
  ghost predicate Reapplies(patch: string, path: string, file: seq<string>, spans: seq<Span>) {
    Parse(patch, path).Ok? && PlaceAll(file, Parse(patch, path).value.hunks, []) == Ok(spans)
  }

  /** The diff of an edit, read back as a patch, yields the printed hunks exactly when no printed
      line ends in a carriage return, none looks like a file header and the file headers carry the
      path; and only then are the spans its hunks come to in the old lines, in order, those of the
      edit. */
  lemma DiffReapplies(path: string, file: seq<string>, spans: seq<Span>, created: bool)
    requires NoNewline(path) && spans != [] && NoneIdle(spans) && AllOneLine(file) && AddsOneLiners(spans)
    requires Chained(spans, 0, |file|) && Apart(spans, |file|)
    ensures var hs, diff := HunksOf(file, spans), Unlines(DiffLines(path, file, spans, created));
      && (Parse(diff, path) == Ok(Patch(Numbered(hs, 0), created)) <==> HunksSafe(hs) && Carried(path))
      && PlaceAll(file, Numbered(hs, 0), []) == Ok(spans)
      && (Reapplies(diff, path, file, spans) <==> HunksSafe(hs) && Carried(path))
  {
    hide NoneIdle, AllOneLine, AddsOneLiners, HunksOf, DiffText, WellFormed, OneLiners, NoNewline, HunksSafe, Carried;
    var hs := HunksOf(file, spans);
    var hunks, diff := Numbered(hs, 0), DiffText(path, created, hs);
    assert Unlines(DiffLines(path, file, spans, created)) == diff by {
      DiffTextIs(path, file, spans, created);
    }
    PrintedWell(file, spans);
    DiffReadsBack(path, created, hs);
    assert PlaceAll(file, hunks, []) == Ok(spans) by {
      HunksStand(file, spans);
      PlacesAgain(file, hunks, spans, 0);
      assert hunks[0..] == hunks && spans[..0] == [];
    }
    if Reapplies(diff, path, file, spans) {
      DiffRereads(path, created, hs);
      AllNeedSafety(file, spans, hs);
    }
  }

  lemma DiffTextIs(path: string, file: seq<string>, spans: seq<Span>, created: bool)
    requires Chained(spans, 0, |file|)
    ensures Unlines(DiffLines(path, file, spans, created)) == DiffText(path, created, HunksOf(file, spans))
  {
  }

  lemma AllNeedSafety(file: seq<string>, spans: seq<Span>, hs: seq<DiffHunk>)
    requires Chained(spans, 0, |file|) && NoneIdle(spans) && hs == HunksOf(file, spans)
    requires PlaceAll(file, RereadAll(hs, 0), []) == Ok(spans) && OnlyRemovedHeaders(hs)
    ensures HunksSafe(hs)
  {
    hide OnlyRemovedHeaders, AllSafe, RereadAll, NoneIdle, SpanFor, PlaceAll, HunkOf, AsReread;
    forall k | 0 <= k < |hs| ensures AllSafe(hs[k].lines) {
      PlacedAt(file, RereadAll(hs, 0), spans, k);
      HunkNeedsSafety(file, spans, hs, k);
    }
  }

  lemma PlacedAt(file: seq<string>, hunks: seq<Hunk>, spans: seq<Span>, k: nat)
    requires PlaceAll(file, hunks, []) == Ok(spans) && k < |hunks| == |spans|
    ensures SpanFor(file, hunks[k]) == Ok(spans[k])
  {
    hide SpanFor, PlaceAll;
    var done: seq<Span> := [];
    PlacedEach(file, hunks, done, spans);
    assert spans[|done| + k] == spans[k];
  }

  lemma PrintedWell(file: seq<string>, spans: seq<Span>)
    requires NoneIdle(spans) && AllOneLine(file) && AddsOneLiners(spans) && Chained(spans, 0, |file|)
    ensures WellFormed(HunksOf(file, spans)) && OneLiners(HunksOf(file, spans))
  {
    HunksWellFormed(file, spans);
    HunksOneLine(file, spans);
  }

  lemma HunkNeedsSafety(file: seq<string>, spans: seq<Span>, hs: seq<DiffHunk>, k: nat)
    requires k < |spans| && Chained(spans, 0, |file|) && NoneIdle(spans) && hs == HunksOf(file, spans)
    requires SpanFor(file, RereadAll(hs, 0)[k]) == Ok(spans[k]) && OnlyRemovedHeaders(hs)
    ensures AllSafe(hs[k].lines)
  {
    hide SpanFor, AllSafe, HeaderAt, Reread;
    var s, lo, hi := spans[k], ContextLow(spans, k), ContextHigh(|file|, spans, k);
    assert lo <= s.from && End(s) <= hi <= |file| && hs[k] == Shape(file, s, lo, hi) by {
      RangesAgree(file, spans, k);
    }
    assert [hs[k]][0] == hs[k];
    SpanNeedsSafety(file, s, lo, hi, RereadAll(hs, 0)[k]);
  }

  // ---------------------------------------------------------------------------------------
  // A diff tells its spans
  // ---------------------------------------------------------------------------------------

  lemma HeaderTells(a: DiffHunk, b: DiffHunk)
    requires Header(a) == Header(b)
    ensures a.oldStart == b.oldStart && a.oldCount == b.oldCount
  {
    HeaderReads(a.oldStart, a.oldCount, a.newStart, a.newCount);
    HeaderReads(b.oldStart, b.oldCount, b.newStart, b.newCount);
  }

  /** No lines, or a first line no hunk line can be taken for. */
  predicate BehindBody(more: seq<string>) {
    more == [] || (more[0] != "" && more[0][0] == '@')
  }

  lemma TextBehind(hs: seq<DiffHunk>)
    ensures BehindBody(TextOf(hs))
  {
    if hs != [] {
      StripHeader(hs[0]);
      assert Header(hs[0])[0] == "@@"[0];
    }
  }

  lemma {:induction false} BodyTells(a: seq<PatchLine>, b: seq<PatchLine>, more: seq<string>, others: seq<string>)
    requires Marks(a) && Marks(b) && BehindBody(more) && BehindBody(others)
    requires BodyLines(a) + more == BodyLines(b) + others
    ensures a == b && more == others
    decreases |a|
  {
    var left, right := BodyLines(a) + more, BodyLines(b) + others;
    if a != [] {
      assert left[0] == [a[0].kind] + a[0].text;
    }
    if b != [] {
      assert right[0] == [b[0].kind] + b[0].text;
    }
    if a == [] || b == [] {
      assert a == [] ==> left == more;
      assert b == [] ==> right == others;
    } else {
      assert left[0][0] == a[0].kind && left[0][1..] == a[0].text && right[0][0] == b[0].kind && right[0][1..] == b[0].text;
      assert left[1..] == BodyLines(a[1..]) + more && right[1..] == BodyLines(b[1..]) + others;
      BodyTells(a[1..], b[1..], more, others);
      assert a == [a[0]] + a[1..] && b == [b[0]] + b[1..];
    }
  }

  /** Printed hunks tell what is read of them. */
  lemma {:induction false} TextTells(a: seq<DiffHunk>, b: seq<DiffHunk>)
    requires WellFormed(a) && WellFormed(b) && TextOf(a) == TextOf(b)
    ensures Numbered(a, 0) == Numbered(b, 0)
    decreases |a|
  {
    if a != [] && b != [] {
      var restA, restB := a[1..], b[1..];
      TextParts(a);
      TextParts(b);
      HeaderTells(a[0], b[0]);
      TextBehind(restA);
      TextBehind(restB);
      BodyTells(a[0].lines, b[0].lines, TextOf(restA), TextOf(restB));
      TextTells(restA, restB);
      SameNumbered(a, b);
    }
  }

  lemma TextParts(hs: seq<DiffHunk>)
    requires hs != []
    ensures TextOf(hs) != [] && TextOf(hs)[0] == Header(hs[0])
    ensures TextOf(hs)[1..] == BodyLines(hs[0].lines) + TextOf(hs[1..])
  {
    var tail := BodyLines(hs[0].lines) + TextOf(hs[1..]);
    assert TextOf(hs) == [Header(hs[0])] + tail;
  }

  lemma SameNumbered(a: seq<DiffHunk>, b: seq<DiffHunk>)
    requires a != [] && b != [] && AsHunk(a[0], 0) == AsHunk(b[0], 0) && Numbered(a[1..], 0) == Numbered(b[1..], 0)
    ensures Numbered(a, 0) == Numbered(b, 0)
  {
    assert |a[1..]| == |Numbered(a[1..], 0)| == |Numbered(b[1..], 0)| == |b[1..]|;
    forall k | 0 < k < |a| ensures AsHunk(a[k], k + 1) == AsHunk(b[k], k + 1) {
      assert Numbered(a[1..], 0)[k - 1] == AsHunk(a[k], k) && Numbered(b[1..], 0)[k - 1] == AsHunk(b[k], k);
    }
  }

  /** Two edits of a file with the same diff replace the same spans. */
  lemma DiffTells(path: string, file: seq<string>, a: seq<Span>, b: seq<Span>)
    requires NoNewline(path) && AllOneLine(file)
    requires Chained(a, 0, |file|) && NoneIdle(a) && AddsOneLiners(a) && Chained(b, 0, |file|) && NoneIdle(b) && AddsOneLiners(b)
    requires Unlines(DiffLines(path, file, a, false)) == Unlines(DiffLines(path, file, b, false))
    ensures a == b
  {
    hide NoneIdle, AddsOneLiners, WellFormed, OneLiners, HunkOf, NoNewline, LinesOf;
    var as_, bs := HunksOf(file, a), HunksOf(file, b);
    PrintedWell(file, a);
    PrintedWell(file, b);
    assert TextOf(as_) == TextOf(bs) by {
      LinesTold(path, as_);
      LinesTold(path, bs);
    }
    TextTells(as_, bs);
    HunksTellSpans(file, a, b);
  }

  lemma HunksTellSpans(file: seq<string>, a: seq<Span>, b: seq<Span>)
    requires Chained(a, 0, |file|) && NoneIdle(a) && Chained(b, 0, |file|) && NoneIdle(b)
    requires Numbered(HunksOf(file, a), 0) == Numbered(HunksOf(file, b), 0)
    ensures a == b
  {
    hide SpanFor, HunkOf, NoneIdle, AsHunk;
    var hunks := Numbered(HunksOf(file, a), 0);
    HunksStand(file, a);
    HunksStand(file, b);
    assert |a| == |hunks| == |b|;
    forall k | 0 <= k < |a| ensures a[k] == b[k] {
      assert SpanFor(file, hunks[k]) == Ok(a[k]);
      assert SpanFor(file, hunks[k]) == Ok(b[k]);
    }
  }

  lemma LinesTold(path: string, hs: seq<DiffHunk>)
    requires NoNewline(path) && WellFormed(hs) && OneLiners(hs)
    ensures LinesOf(DiffText(path, false, hs)) == FileHeader(path, false) + TextOf(hs)
    ensures (FileHeader(path, false) + TextOf(hs))[2..] == TextOf(hs)
  {
    TextOneLine(hs);
    LinesOfUnlines(FileHeader(path, false) + TextOf(hs));
  }

  // ---------------------------------------------------------------------------------------
  // Without carriage returns in the file
  // ---------------------------------------------------------------------------------------

  function TextSize(texts: seq<string>): nat {
    if texts == [] then 0 else |texts[0]| + TextSize(texts[1..])
  }

  lemma {:induction false} StripShrinks(texts: seq<string>)
    ensures TextSize(StripReturns(texts)) <= TextSize(texts)
    ensures TextSize(StripReturns(texts)) == TextSize(texts) <==> NoReturns(texts)
  {
    if texts != [] {
      var rest := texts[1..];
      assert StripReturns(texts)[0] == StripReturn(texts[0]) && StripReturns(texts)[1..] == StripReturns(rest);
      assert NoReturns(texts) <==> !EndsInReturn(texts[0]) && NoReturns(rest) by {
        assert forall k :: 0 < k < |texts| ==> texts[k] == rest[k - 1];
      }
      StripShrinks(rest);
    }
  }

  /** How much a span takes out and puts in. */
  function Weight(s: Span): nat {
    s.oldLen + TextSize(s.neu)
  }

  function TotalWeight(spans: seq<Span>): nat {
    if spans == [] then 0 else Weight(spans[0]) + TotalWeight(spans[1..])
  }

  lemma {:induction false} InsertUpWeight(span: Span, sorted: seq<Span>)
    ensures TotalWeight(InsertUp(span, sorted)) == Weight(span) + TotalWeight(sorted)
  {
    if sorted != [] && span.from > sorted[0].from {
      InsertUpWeight(span, sorted[1..]);
      assert InsertUp(span, sorted)[1..] == InsertUp(span, sorted[1..]);
    } else {
      assert ([span] + sorted)[1..] == sorted;
    }
  }

  lemma {:induction false} SortUpWeight(spans: seq<Span>)
    ensures TotalWeight(SortUp(spans)) == TotalWeight(spans) && |SortUp(spans)| == |spans|
  {
    if spans != [] {
      SortUpWeight(spans[1..]);
      InsertUpWeight(spans[0], SortUp(spans[1..]));
    }
    SortUpSorts(spans);
    assert |multiset(SortUp(spans))| == |multiset(spans)|;
  }

  lemma {:induction false} NoneLighter(light: seq<Span>, heavy: seq<Span>)
    requires |light| == |heavy| && TotalWeight(light) >= TotalWeight(heavy)
    requires forall k :: 0 <= k < |light| ==> Weight(light[k]) <= Weight(heavy[k])
    ensures forall k :: 0 <= k < |light| ==> Weight(light[k]) == Weight(heavy[k])
    decreases |light|
  {
    if light != [] {
      var l, h := light[1..], heavy[1..];
      NoHeavier(l, h);
      NoneLighter(l, h);
      assert forall k :: 0 < k < |light| ==> light[k] == l[k - 1] && heavy[k] == h[k - 1];
    }
  }

  lemma {:induction false} NoHeavier(light: seq<Span>, heavy: seq<Span>)
    requires |light| == |heavy| && forall k :: 0 <= k < |light| ==> Weight(light[k]) <= Weight(heavy[k])
    ensures TotalWeight(light) <= TotalWeight(heavy)
    decreases |light|
  {
    if light != [] {
      NoHeavier(light[1..], heavy[1..]);
    }
  }

  /** Wherever it comes to stand, a printed hunk that is not read as it was printed changes less. */
  lemma RereadLightens(file: seq<string>, s: Span, lo: nat, hi: nat, hunk: Hunk)
    requires lo <= s.from && End(s) <= hi <= |file| && !Idle(s) && NoReturns(file)
    requires hunk == AsReread(Shape(file, s, lo, hi), hunk.number) && OnlyRemovedHeaders([Shape(file, s, lo, hi)])
    requires SpanFor(file, hunk).Ok?
    ensures var t := SpanFor(file, hunk).value;
      Weight(t) <= Weight(s) && (Weight(t) == Weight(s) ==> AllSafe(Shape(file, s, lo, hi).lines))
  {
    hide Sections, HeaderAt, SpanFor, Reread, AllSafe, OldSide, NewSide;
    var b, r, c := file[lo..s.from], file[s.from..End(s)], file[End(s)..hi];
    var lines := Sections(b, r, s.neu, c);
    assert [Shape(file, s, lo, hi)][0].lines == lines;
    if HeaderAt(lines) < |lines| {
      var j := CutReread(b, r, s.neu, c);
      if j == 0 {
        assert StripReturns(r[..j]) == [];
        ContextIsIdle(file, hunk, StripReturns(b));
      } else {
        ChangeComesTo(file, hunk, StripReturns(b), StripReturns(r[..j]), [], []);
      }
    } else {
      WholeReread(b, r, s.neu, c);
      ChangeComesTo(file, hunk, StripReturns(b), StripReturns(r), StripReturns(s.neu), StripReturns(c));
      StripShrinks(s.neu);
      SectionsSafe(b, r, s.neu, c);
    }
  }

  /** In a file without carriage returns at line ends, the hunks that are read come to the spans, in
      any order, only if they are read as they were printed. */
  lemma SameSpansNeedSafety(file: seq<string>, spans: seq<Span>, hs: seq<DiffHunk>, placed: seq<Span>)
    requires NoReturns(file) && Chained(spans, 0, |file|) && NoneIdle(spans) && hs == HunksOf(file, spans) && OnlyRemovedHeaders(hs)
    requires PlaceAll(file, RereadAll(hs, 0), []) == Ok(placed) && SortUp(placed) == spans
    ensures HunksSafe(hs)
  {
    hide OnlyRemovedHeaders, AllSafe, RereadAll, NoneIdle, NoReturns, Weight, SpanFor, PlaceAll, HunkOf, AsReread;
    SortUpWeight(placed);
    forall k | 0 <= k < |hs| ensures Weight(placed[k]) <= Weight(spans[k]) && (Weight(placed[k]) == Weight(spans[k]) ==> AllSafe(hs[k].lines)) {
      PlacedAt(file, RereadAll(hs, 0), placed, k);
      HunkLightens(file, spans, hs, k);
    }
    NoneLighter(placed, spans);
  }

  lemma OneSorted(spans: seq<Span>)
    ensures |spans| == 1 ==> SortUp(spans) == spans
  {
  }

  /** The same in any file when there is only one span. */
  lemma PlacedSafe(file: seq<string>, spans: seq<Span>, planned: seq<Span>, placed: seq<Span>)
    requires Chained(spans, 0, |file|) && NoneIdle(spans) && OnlyRemovedHeaders(HunksOf(file, spans))
    requires PlaceAll(file, RereadAll(HunksOf(file, spans), 0), []) == Ok(placed)
    requires SortUp(planned) == spans && SortUp(placed) == spans && (|planned| == 1 || NoReturns(file))
    ensures HunksSafe(HunksOf(file, spans))
  {
    if NoReturns(file) {
      SameSpansNeedSafety(file, spans, HunksOf(file, spans), placed);
    } else {
      SortUpWeight(planned);
      SortUpWeight(placed);
      OneSorted(placed);
      AllNeedSafety(file, spans, HunksOf(file, spans));
    }
  }

  lemma HunkLightens(file: seq<string>, spans: seq<Span>, hs: seq<DiffHunk>, k: nat)
    requires k < |spans| && Chained(spans, 0, |file|) && NoneIdle(spans) && hs == HunksOf(file, spans) && NoReturns(file)
    requires SpanFor(file, RereadAll(hs, 0)[k]).Ok? && OnlyRemovedHeaders(hs)
    ensures var t := SpanFor(file, RereadAll(hs, 0)[k]).value;
      Weight(t) <= Weight(spans[k]) && (Weight(t) == Weight(spans[k]) ==> AllSafe(hs[k].lines))
  {
    hide SpanFor, AllSafe, HeaderAt, Reread;
    var s, lo, hi := spans[k], ContextLow(spans, k), ContextHigh(|file|, spans, k);
    assert lo <= s.from && End(s) <= hi <= |file| && hs[k] == Shape(file, s, lo, hi) by {
      RangesAgree(file, spans, k);
    }
    assert [hs[k]][0] == hs[k];
    RereadLightens(file, s, lo, hi, RereadAll(hs, 0)[k]);
  }
}
