/** Replacing spans of lines (`src/common/tools/tool_edit_file.cpp`, the splice loop of
    `edit_file`). The source erases and inserts in place, last span first; the meaning of a set
    of spans is the left-to-right merge. */
module Splice {
  import opened Strings

  /** Replace the `oldLen` lines from line `from` (counted from 0) by `neu`. */
  datatype Span = Span(from: nat, oldLen: nat, neu: seq<string>)

  function End(span: Span): nat {
    span.from + span.oldLen
  }

  predicate RangesOverlap(left: int, leftLen: nat, right: int, rightLen: nat) {
    if leftLen == 0 && rightLen == 0 then left == right
    else if leftLen == 0 then right <= left < right + rightLen
    else if rightLen == 0 then left <= right < left + leftLen
    else left < right + rightLen && right < left + leftLen
  }

  predicate Overlap(a: Span, b: Span) {
    RangesOverlap(a.from, a.oldLen, b.from, b.oldLen)
  }

  /** The spans fit a file of `n` lines and no two of them overlap. */
  predicate Apart(spans: seq<Span>, n: nat) {
    && (forall k :: 0 <= k < |spans| ==> End(spans[k]) <= n)
    && forall j, k :: 0 <= j < k < |spans| ==> !Overlap(spans[j], spans[k])
  }

  /** Each span starts where the one before it has ended, or later, and no two at the same line. */
  predicate Chained(spans: seq<Span>, at: nat, n: nat) {
    && (forall k :: 0 <= k < |spans| ==> at <= spans[k].from && End(spans[k]) <= n)
    && forall j, k :: 0 <= j < k < |spans| ==> spans[j].from < spans[k].from && End(spans[j]) <= spans[k].from
  }

  // ---------------------------------------------------------------------------------------
  // Sorting by line
  // ---------------------------------------------------------------------------------------

  function InsertUp(span: Span, sorted: seq<Span>): (r: seq<Span>)
    ensures r != []
  {
    if sorted == [] || span.from <= sorted[0].from then [span] + sorted
    else [sorted[0]] + InsertUp(span, sorted[1..])
  }

  function SortUp(spans: seq<Span>): seq<Span> {
    if spans == [] then [] else InsertUp(spans[0], SortUp(spans[1..]))
  }

  predicate Ascending(spans: seq<Span>) {
    forall j, k :: 0 <= j < k < |spans| ==> spans[j].from <= spans[k].from
  }

  predicate Descending(spans: seq<Span>) {
    forall j, k :: 0 <= j < k < |spans| ==> spans[j].from >= spans[k].from
  }

  lemma {:induction false} InsertUpElements(span: Span, sorted: seq<Span>)
    ensures multiset(InsertUp(span, sorted)) == multiset{span} + multiset(sorted)
  {
    if sorted != [] && span.from > sorted[0].from {
      InsertUpElements(span, sorted[1..]);
      assert sorted == [sorted[0]] + sorted[1..];
    }
  }

  lemma {:induction false} InsertUpSorts(span: Span, sorted: seq<Span>)
    requires Ascending(sorted)
    ensures Ascending(InsertUp(span, sorted))
    ensures InsertUp(span, sorted)[0] == span || (sorted != [] && InsertUp(span, sorted)[0] == sorted[0])
  {
    if sorted != [] && span.from > sorted[0].from {
      var rest := sorted[1..];
      InsertUpSorts(span, rest);
      var tail := InsertUp(span, rest);
      assert sorted[0].from <= tail[0].from;
      forall k | 0 <= k < |tail| ensures sorted[0].from <= tail[k].from {
        assert tail[0].from <= tail[k].from;
      }
    }
  }

  lemma {:induction false} SortUpSorts(spans: seq<Span>)
    ensures Ascending(SortUp(spans))
    ensures multiset(SortUp(spans)) == multiset(spans)
  {
    if spans != [] {
      SortUpSorts(spans[1..]);
      InsertUpSorts(spans[0], SortUp(spans[1..]));
      InsertUpElements(spans[0], SortUp(spans[1..]));
      assert spans == [spans[0]] + spans[1..];
    }
  }

  function Reverse(spans: seq<Span>): (r: seq<Span>)
    ensures |r| == |spans| && forall k :: 0 <= k < |r| ==> r[k] == spans[|spans| - 1 - k]
  {
    seq(|spans|, k requires 0 <= k < |spans| => spans[|spans| - 1 - k])
  }

  lemma {:induction false} ReverseElements(spans: seq<Span>)
    ensures multiset(Reverse(spans)) == multiset(spans)
  {
    if spans != [] {
      ReverseElements(spans[1..]);
      assert Reverse(spans) == Reverse(spans[1..]) + [spans[0]];
      assert spans == [spans[0]] + spans[1..];
    }
  }

  predicate DistinctLines(spans: seq<Span>) {
    forall j, k :: 0 <= j < k < |spans| ==> spans[j].from != spans[k].from
  }

  lemma SameHead(a: seq<Span>, b: seq<Span>)
    requires Ascending(a) && Ascending(b) && DistinctLines(b)
    requires multiset(a) == multiset(b) && a != [] && b != []
    ensures a[0] == b[0]
  {
    assert a[0] in multiset(b) && b[0] in multiset(a);
    var j :| 0 <= j < |b| && b[j] == a[0];
    var k :| 0 <= k < |a| && a[k] == b[0];
    assert a[0].from <= a[k].from && b[0].from <= b[j].from;
  }

  lemma TailElements(a: seq<Span>)
    requires a != []
    ensures multiset(a[1..]) == multiset(a) - multiset{a[0]}
  {
    assert a == [a[0]] + a[1..];
  }

  /** The order of spans at different lines is fixed by the lines. */
  lemma {:induction false} SameOrder(a: seq<Span>, b: seq<Span>)
    requires Ascending(a) && Ascending(b) && DistinctLines(b)
    requires multiset(a) == multiset(b)
    ensures a == b
  {
    assert |a| == |multiset(a)| == |multiset(b)| == |b|;
    if a != [] {
      assert a[0] == b[0] by { SameHead(a, b); }
      assert a[1..] == b[1..] by {
        TailElements(a);
        TailElements(b);
        SameOrder(a[1..], b[1..]);
      }
      SameSeq(a, b);
    }
  }

  lemma SameSeq(a: seq<Span>, b: seq<Span>)
    requires a != [] && b != [] && a[0] == b[0] && a[1..] == b[1..]
    ensures a == b
  {
    assert a == [a[0]] + a[1..] && b == [b[0]] + b[1..];
  }

  /** Sorting spans that do not overlap chains them. */
  lemma ApartChains(spans: seq<Span>, n: nat)
    requires Apart(spans, n)
    ensures Chained(SortUp(spans), 0, n) && Apart(SortUp(spans), n)
  {
    var sorted := SortUp(spans);
    SortUpSorts(spans);
    ApartPermuted(spans, sorted, n);
  }

  lemma ApartPermuted(spans: seq<Span>, other: seq<Span>, n: nat)
    requires Apart(spans, n) && multiset(other) == multiset(spans)
    ensures Apart(other, n)
  {
    forall k | 0 <= k < |other| ensures End(other[k]) <= n {
      assert other[k] in multiset(other);
      assert other[k] in multiset(spans);
    }
    forall j, k | 0 <= j < k < |other| ensures !Overlap(other[j], other[k]) {
      NotTwice(spans, other, j, k);
    }
  }

  lemma NotTwice(spans: seq<Span>, other: seq<Span>, j: nat, k: nat)
    requires multiset(other) == multiset(spans) && j < k < |other|
    ensures exists p, q :: 0 <= p < |spans| && 0 <= q < |spans| && p != q && spans[p] == other[j] && spans[q] == other[k]
  {
    var a, b := other[j], other[k];
    assert a in multiset(spans) && b in multiset(spans);
    if a != b {
      var p :| 0 <= p < |spans| && spans[p] == a;
      var q :| 0 <= q < |spans| && spans[q] == b;
    } else {
      Pair(other, j, k);
      Two(spans, a);
    }
  }

  lemma Pair(spans: seq<Span>, j: nat, k: nat)
    requires j < k < |spans| && spans[j] == spans[k]
    ensures multiset(spans)[spans[j]] >= 2
  {
    assert spans == (spans[..j] + [spans[j]]) + (spans[j + 1..k] + ([spans[k]] + spans[k + 1..]));
  }

  lemma Two(spans: seq<Span>, a: Span)
    requires multiset(spans)[a] >= 2
    ensures exists p, q :: 0 <= p < |spans| && 0 <= q < |spans| && p != q && spans[p] == a && spans[q] == a
  {
    var p :| 0 <= p < |spans| && spans[p] == a;
    var rest := spans[..p] + spans[p + 1..];
    assert spans == spans[..p] + ([a] + spans[p + 1..]);
    assert a in multiset(rest);
    var r :| 0 <= r < |rest| && rest[r] == a;
    var q := if r < p then r else r + 1;
    assert spans[q] == a;
  }

  // ---------------------------------------------------------------------------------------
  // Merging and splicing
  // ---------------------------------------------------------------------------------------

  /** The file from line `at` on with the chained spans put in, left to right. */
  function Merge(file: seq<string>, spans: seq<Span>, at: nat): seq<string>
    requires Chained(spans, at, |file|) && at <= |file|
    decreases |spans|
  {
    if spans == [] then file[at..]
    else
      var s := spans[0];
      file[at..s.from] + (s.neu + Merge(file, spans[1..], End(s)))
  }

  lemma MergeFrom(file: seq<string>, spans: seq<Span>, at: nat, next: nat)
    requires at <= next <= |file| && Chained(spans, next, |file|)
    ensures Chained(spans, at, |file|)
    ensures Merge(file, spans, at) == file[at..next] + Merge(file, spans, next)
  {
    if spans == [] {
      SliceSplit(file, at, next, |file|);
      assert file[at..|file|] == file[at..] && file[next..|file|] == file[next..];
    } else {
      var s := spans[0];
      SliceSplit(file, at, next, s.from);
      Associate(file[at..next], file[next..s.from], s.neu + Merge(file, spans[1..], End(s)));
    }
  }

  lemma SliceSplit(file: seq<string>, at: nat, next: nat, to: nat)
    requires at <= next <= to <= |file|
    ensures file[at..to] == file[at..next] + file[next..to]
  {
  }

  /** How many lines the spans add, less those they remove. */
  function Growth(spans: seq<Span>): int {
    if spans == [] then 0 else |spans[0].neu| - spans[0].oldLen + Growth(spans[1..])
  }

  lemma {:induction false} MergeLength(file: seq<string>, spans: seq<Span>, at: nat)
    requires at <= |file| && Chained(spans, at, |file|)
    ensures |Merge(file, spans, at)| == |file| - at + Growth(spans)
    decreases |spans|
  {
    if spans != [] {
      MergeLength(file, spans[1..], End(spans[0]));
    }
  }

  method SortDown(spans: seq<Span>) returns (ordered: seq<Span>)
    ensures Descending(ordered) && multiset(ordered) == multiset(spans)
  {
    ordered := Reverse(SortUp(spans));
    SortUpSorts(spans);
    ReverseElements(SortUp(spans));
  }

  /** One erase and insert behind which everything is already in place. */
  lemma SpliceOne(file: seq<string>, s: Span, done: seq<Span>, bound: nat, updated: seq<string>)
    requires End(s) <= bound <= |file| && Chained(done, bound, |file|)
    requires updated == file[..bound] + Merge(file, done, bound)
    requires Chained([s] + done, s.from, |file|)
    ensures End(s) <= |updated|
    ensures updated[..s.from] + (s.neu + updated[End(s)..]) == file[..s.from] + Merge(file, [s] + done, s.from)
  {
    var all, rest := [s] + done, Merge(file, done, bound);
    assert all[1..] == done;
    assert updated[..s.from] == file[..s.from];
    assert updated[End(s)..] == Merge(file, done, End(s)) by {
      MergeFrom(file, done, End(s), bound);
      assert updated[End(s)..] == file[End(s)..bound] + rest;
    }
    var neu := s.neu + Merge(file, done, End(s));
    assert file[s.from..s.from] + neu == neu;
  }

  /** The last `k` spans of `up` are in place, and the file before line `bound` is untouched. */
  ghost predicate Spliced(file: seq<string>, up: seq<Span>, k: nat, updated: seq<string>)
    requires k <= |up| && Chained(up, 0, |file|)
  {
    var bound := if k == 0 then |file| else up[|up| - k].from;
    updated == file[..bound] + Merge(file, up[|up| - k..], bound)
  }

  lemma SplicedNext(file: seq<string>, up: seq<Span>, k: nat, updated: seq<string>)
    requires k < |up| && Chained(up, 0, |file|) && Spliced(file, up, k, updated)
    ensures var s := up[|up| - k - 1];
      End(s) <= |updated| && Spliced(file, up, k + 1, updated[..s.from] + (s.neu + updated[End(s)..]))
  {
    var s, done := up[|up| - k - 1], up[|up| - k..];
    var bound := if k == 0 then |file| else up[|up| - k].from;
    assert up[|up| - (k + 1)..] == [s] + done;
    SpliceOne(file, s, done, bound, updated);
  }

  /** The splice loop: last span first, erase and insert in place. Whatever order the hunks came
      in, the result is the left-to-right merge. */
  method SpliceAll(file: seq<string>, spans: seq<Span>) returns (updated: seq<string>)
    requires Apart(spans, |file|)
    ensures Chained(SortUp(spans), 0, |file|)
    ensures updated == Merge(file, SortUp(spans), 0)
    ensures |updated| == |file| + Growth(SortUp(spans))
  {
    updated := file;
    var ordered := SortDown(spans);
    ghost var up := SortUp(spans);
    ApartChains(spans, |file|);
    OrderedIsReversed(spans, ordered, |file|);
    assert file[..|file|] == file && file + [] == file;
    for k := 0 to |ordered|
      invariant Spliced(file, up, k, updated)
    {
      var s := ordered[k];
      SplicedNext(file, up, k, updated);
      ghost var before := updated;
      updated := updated[..s.from] + updated[s.from + s.oldLen..];
      updated := updated[..s.from] + s.neu + updated[s.from..];
      assert updated == before[..s.from] + (s.neu + before[End(s)..]);
    }
    AllSpliced(file, up, updated);
    MergeLength(file, up, 0);
  }

  lemma OrderedIsReversed(spans: seq<Span>, ordered: seq<Span>, n: nat)
    requires Apart(spans, n) && Descending(ordered) && multiset(ordered) == multiset(spans)
    ensures ordered == Reverse(SortUp(spans))
  {
    var up := Reverse(ordered);
    ReverseElements(ordered);
    SortUpSorts(spans);
    ApartChains(spans, n);
    SameOrder(up, SortUp(spans));
    assert ordered == Reverse(up);
  }

  lemma AllSpliced(file: seq<string>, up: seq<Span>, updated: seq<string>)
    requires Chained(up, 0, |file|) && Spliced(file, up, |up|, updated)
    ensures updated == Merge(file, up, 0)
  {
    var bound := if up == [] then |file| else up[0].from;
    assert up[|up| - |up|..] == up && file[..bound] == file[0..bound];
    MergeFrom(file, up, 0, bound);
  }
}
