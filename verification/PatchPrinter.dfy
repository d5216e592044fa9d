/** Printing the diff of an edit (`format_diff` in `src/common/tools/tool_edit_file.cpp`). */
module PatchPrinter {
  import opened Strings
  import opened TextLines
  import opened Splice
  import opened HunkPlacement

  const MAX_TOOL_OUTPUT_CHARS: nat := 8000

  function Max(a: int, b: int): int { if a > b then a else b }

  function Min(a: int, b: int): int { if a < b then a else b }

  /** One printed hunk: the two ranges of its header, and its lines. */
  datatype DiffHunk = DiffHunk(oldStart: nat, oldCount: nat, newStart: nat, newCount: nat, lines: seq<PatchLine>)

  /** Up to three lines before span `k`, but none another span has covered. */
  function ContextLow(spans: seq<Span>, k: nat): (lo: nat)
    requires k < |spans|
  {
    var prevEnd := if k == 0 then 0 else End(spans[k - 1]);
    if spans[k].from >= 3 && spans[k].from - 3 > prevEnd then spans[k].from - 3 else prevEnd
  }

  function ContextHigh(n: nat, spans: seq<Span>, k: nat): nat
    requires k < |spans|
  {
    var nextFrom := if k + 1 == |spans| then n else spans[k + 1].from;
    if End(spans[k]) + 3 < nextFrom then End(spans[k]) + 3 else nextFrom
  }

  function Marked(kind: char, texts: seq<string>): (r: seq<PatchLine>)
    ensures |r| == |texts|
  {
    seq(|texts|, i requires 0 <= i < |texts| => PatchLine(kind, texts[i]))
  }

  /** Context, removed lines, added lines, context. */
  function Sections(before: seq<string>, removed: seq<string>, added: seq<string>, after: seq<string>): seq<PatchLine> {
    Marked(' ', before) + Marked('-', removed) + Marked('+', added) + Marked(' ', after)
  }

  /** The hunk printed for span `s` with context from line `lo` up to line `hi`. */
  function Shape(file: seq<string>, s: Span, lo: nat, hi: nat): DiffHunk
    requires lo <= s.from && End(s) <= hi <= |file|
  {
    var oldCount, newCount := hi - lo, (s.from - lo) + |s.neu| + (hi - End(s));
    DiffHunk(if oldCount == 0 then s.from else lo + 1, oldCount,
             if newCount == 0 then s.from else lo + 1, newCount,
             Sections(file[lo..s.from], file[s.from..End(s)], s.neu, file[End(s)..hi]))
  }

  function HunkOf(file: seq<string>, spans: seq<Span>, k: nat): DiffHunk
    requires k < |spans| && Chained(spans, 0, |file|)
  {
    RangesAgree(file, spans, k);
    Shape(file, spans[k], ContextLow(spans, k), ContextHigh(|file|, spans, k))
  }

  /** The context bounds lie between the neighbouring spans. */
  lemma RangesAgree(file: seq<string>, spans: seq<Span>, k: nat)
    requires k < |spans| && Chained(spans, 0, |file|)
    ensures var prevEnd := if k == 0 then 0 else End(spans[k - 1]);
      var nextFrom := if k + 1 == |spans| then |file| else spans[k + 1].from;
      && prevEnd <= ContextLow(spans, k) <= spans[k].from <= End(spans[k]) <= ContextHigh(|file|, spans, k) <= nextFrom <= |file|
      && ContextLow(spans, k) == Max(prevEnd, spans[k].from - 3)
      && ContextHigh(|file|, spans, k) == Min(nextFrom, End(spans[k]) + 3)
  {
  }

  function HeaderText(oldStart: nat, oldCount: nat, newStart: nat, newCount: nat): string {
    "@@ -" + (Decimal(oldStart) + ("," + (Decimal(oldCount) + (" +" + (Decimal(newStart) + ("," + (Decimal(newCount) + " @@")))))))
  }

  function Header(h: DiffHunk): string {
    HeaderText(h.oldStart, h.oldCount, h.newStart, h.newCount)
  }

  function BodyLines(lines: seq<PatchLine>): (r: seq<string>)
    ensures |r| == |lines|
  {
    seq(|lines|, i requires 0 <= i < |lines| => [lines[i].kind] + lines[i].text)
  }

  function HunkText(h: DiffHunk): seq<string> {
    [Header(h)] + BodyLines(h.lines)
  }

  function FileHeader(path: string, created: bool): seq<string> {
    [if created then "--- /dev/null" else "--- " + path, "+++ " + path]
  }

  /** The printed hunks of all spans. */
  function HunksOf(file: seq<string>, spans: seq<Span>): (hs: seq<DiffHunk>)
    requires Chained(spans, 0, |file|)
    ensures |hs| == |spans|
  {
    seq(|spans|, k requires 0 <= k < |spans| => HunkOf(file, spans, k))
  }

  /** Printed hunks one after the other. */
  function TextOf(hs: seq<DiffHunk>): seq<string> {
    if hs == [] then [] else HunkText(hs[0]) + TextOf(hs[1..])
  }

  lemma TextOfCons(hs: seq<DiffHunk>, k: nat)
    requires k < |hs|
    ensures TextOf(hs[k..]) == HunkText(hs[k]) + TextOf(hs[k + 1..])
  {
    assert hs[k..][1..] == hs[k + 1..];
  }

  /** The lines of the whole diff. */
  function DiffLines(path: string, file: seq<string>, spans: seq<Span>, created: bool): seq<string>
    requires Chained(spans, 0, |file|)
  {
    FileHeader(path, created) + TextOf(HunksOf(file, spans))
  }

  function Truncated(out: string): string {
    if |out| > MAX_TOOL_OUTPUT_CHARS then out[..MAX_TOOL_OUTPUT_CHARS] + "\n... [diff truncated]" else out
  }

  method FormatDiff(path: string, file: seq<string>, spans: seq<Span>, created: bool) returns (out: string)
    requires Apart(spans, |file|)
    ensures Chained(SortUp(spans), 0, |file|)
    ensures out == Truncated(Unlines(DiffLines(path, file, SortUp(spans), created)))
  {
    var sorted := SortUp(spans);
    ApartChains(spans, |file|);
    out := (if created then "--- /dev/null" else "--- " + path) + "\n+++ " + path + "\n";
    HeaderUnlines(path, created);
    ghost var hs, done := HunksOf(file, sorted), FileHeader(path, created);
    assert hs[0..] == hs;
    for s := 0 to |sorted|
      invariant out == Unlines(done) && done + TextOf(hs[s..]) == DiffLines(path, file, sorted, created)
    {
      var hunk := FormatHunk(file, sorted, s);
      ghost var text := HunkText(hs[s]);
      assert hunk == Unlines(text);
      UnlinesAppend(done, text);
      TextOfCons(hs, s);
      Associate(done, text, TextOf(hs[s + 1..]));
      done := done + text;
      out := out + hunk;
    }
    assert done == DiffLines(path, file, sorted, created) by {
      assert hs[|sorted|..] == [] && done + [] == done;
    }
    if |out| > MAX_TOOL_OUTPUT_CHARS {
      out := out[..MAX_TOOL_OUTPUT_CHARS];
      out := out + "\n... [diff truncated]";
    }
  }

  lemma HeaderUnlines(path: string, created: bool)
    ensures Unlines(FileHeader(path, created)) == (if created then "--- /dev/null" else "--- " + path) + "\n+++ " + path + "\n"
  {
    var a, b := if created then "--- /dev/null" else "--- " + path, "+++ " + path;
    assert FileHeader(path, created)[1..] == [b] && [b][1..] == [];
    assert Unlines([b]) == b + "\n";
    assert a + "\n" + (b + "\n") == a + "\n+++ " + path + "\n";
  }

  /** One hunk of the output, line by line. */
  method FormatHunk(file: seq<string>, spans: seq<Span>, s: nat) returns (out: string)
    requires s < |spans| && Chained(spans, 0, |file|)
    ensures out == Unlines(HunkText(HunkOf(file, spans, s)))
  {
    var from := spans[s].from;
    var to := from + spans[s].oldLen;
    var prevEnd := if s == 0 then 0 else spans[s - 1].from + spans[s - 1].oldLen;
    var nextFrom := if s + 1 == |spans| then |file| else spans[s + 1].from;
    var lo := Max(prevEnd, from - 3);
    var hi := Min(nextFrom, to + 3);
    assert lo == ContextLow(spans, s) && hi == ContextHigh(|file|, spans, s) && lo <= from && to <= hi <= |file| by {
      RangesAgree(file, spans, s);
    }
    out := EmitHunk(file, spans[s], lo, hi);
  }

  method EmitHunk(file: seq<string>, s: Span, lo: nat, hi: nat) returns (out: string)
    requires lo <= s.from && End(s) <= hi <= |file|
    ensures out == Unlines(HunkText(Shape(file, s, lo, hi)))
  {
    var from, to := s.from, End(s);
    var oldCount := hi - lo;
    var newCount := (from - lo) + |s.neu| + (hi - to);
    var oldStart := if oldCount == 0 then from else lo + 1;
    var newStart := if newCount == 0 then from else lo + 1;
    var header := HeaderText(oldStart, oldCount, newStart, newCount);
    var before, removed, after := file[lo..from], file[from..to], file[to..hi];
    var body := EmitLines(before, removed, s.neu, after);
    out := header + "\n" + body;
    assert HunkText(Shape(file, s, lo, hi)) == [header] + BodyLines(Sections(before, removed, s.neu, after));
    HeadUnlines(header, BodyLines(Sections(before, removed, s.neu, after)));
  }

  method EmitLines(before: seq<string>, removed: seq<string>, added: seq<string>, after: seq<string>) returns (out: string)
    ensures out == Unlines(BodyLines(Sections(before, removed, added, after)))
  {
    var a := EmitAll(' ', before);
    var b := EmitAll('-', removed);
    var c := EmitAll('+', added);
    var d := EmitAll(' ', after);
    out := a + b + c + d;
    BodyUnlines(Marked(' ', before), Marked('-', removed), Marked('+', added), Marked(' ', after));
  }

  lemma HeadUnlines(line: string, rest: seq<string>)
    ensures Unlines([line] + rest) == line + "\n" + Unlines(rest)
  {
    assert ([line] + rest)[1..] == rest;
  }

  method EmitAll(mark: char, lines: seq<string>) returns (out: string)
    ensures out == Unlines(BodyLines(Marked(mark, lines)))
  {
    out := "";
    for i := 0 to |lines|
      invariant out == Unlines(BodyLines(Marked(mark, lines[..i])))
    {
      assert BodyLines(Marked(mark, lines[..i + 1])) == BodyLines(Marked(mark, lines[..i])) + [[mark] + lines[i]];
      UnlinesAppend(BodyLines(Marked(mark, lines[..i])), [[mark] + lines[i]]);
      UnlinesOne([mark] + lines[i]);
      out := out + ([mark] + lines[i] + "\n");
    }
    assert lines[..|lines|] == lines;
  }

  lemma UnlinesOne(line: string)
    ensures Unlines([line]) == line + "\n"
  {
    assert [line][1..] == [];
  }

  lemma BodyLinesAppend(a: seq<PatchLine>, b: seq<PatchLine>)
    ensures BodyLines(a + b) == BodyLines(a) + BodyLines(b)
  {
  }

  lemma BodyUnlines(a: seq<PatchLine>, b: seq<PatchLine>, c: seq<PatchLine>, d: seq<PatchLine>)
    ensures Unlines(BodyLines(a + b + c + d))
         == Unlines(BodyLines(a)) + Unlines(BodyLines(b)) + Unlines(BodyLines(c)) + Unlines(BodyLines(d))
  {
    BodyLinesAppend(a + b + c, d);
    BodyLinesAppend(a + b, c);
    BodyLinesAppend(a, b);
    UnlinesAppend(BodyLines(a + b + c), BodyLines(d));
    UnlinesAppend(BodyLines(a + b), BodyLines(c));
    UnlinesAppend(BodyLines(a), BodyLines(b));
  }
}
