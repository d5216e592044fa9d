/** Finding where a hunk applies and what it replaces (`src/common/tools/tool_edit_file.cpp`). */
module HunkPlacement {
  import opened Strings
  import opened Splice

  /** One line of a hunk: kind ' ', '-' or '+', and the text behind it. */
  datatype PatchLine = PatchLine(kind: char, text: string)

  datatype Hunk = Hunk(number: nat, oldStart: nat, oldCount: nat, pureInsert: bool, lines: seq<PatchLine>)

  /** The lines a hunk expects: context and removed ones. */
  function OldSide(lines: seq<PatchLine>): seq<string> {
    if lines == [] then []
    else if lines[0].kind == ' ' || lines[0].kind == '-' then [lines[0].text] + OldSide(lines[1..])
    else OldSide(lines[1..])
  }

  /** The lines it leaves: context and added ones. */
  function NewSide(lines: seq<PatchLine>): seq<string> {
    if lines == [] then []
    else if lines[0].kind == ' ' || lines[0].kind == '+' then [lines[0].text] + NewSide(lines[1..])
    else NewSide(lines[1..])
  }

  // ---------------------------------------------------------------------------------------
  // Location
  // ---------------------------------------------------------------------------------------

  predicate LinesMatch(file: seq<string>, at: int, quoted: seq<string>) {
    0 <= at && at + |quoted| <= |file| && file[at..at + |quoted|] == quoted
  }

  function Distance(at: int, hint: int): nat {
    if at < hint then hint - at else at - hint
  }

  /** `at` matches, and every other match is farther from the hint. */
  ghost predicate UniqueNearest(file: seq<string>, quoted: seq<string>, hint: int, at: int) {
    LinesMatch(file, at, quoted)
    && forall other :: LinesMatch(file, other, quoted) && other != at ==> Distance(at, hint) < Distance(other, hint)
  }

  datatype Place = At(line: nat) | Ambiguous | Missing

  /** The unique nearest match, if there is one; otherwise whether anything matches at all. */
  ghost function Locate(file: seq<string>, quoted: seq<string>, hint: int): (place: Place)
    ensures place.At? ==> UniqueNearest(file, quoted, hint, place.line)
    ensures place.Missing? ==> forall at :: !LinesMatch(file, at, quoted)
  {
    if exists at :: UniqueNearest(file, quoted, hint, at) then
      var at :| UniqueNearest(file, quoted, hint, at);
      At(at)
    else if exists at :: LinesMatch(file, at, quoted) then Ambiguous
    else Missing
  }

  lemma LocateAt(file: seq<string>, quoted: seq<string>, hint: int, at: nat)
    requires UniqueNearest(file, quoted, hint, at)
    ensures Locate(file, quoted, hint) == At(at)
  {
  }

  /** A match on the hint itself is always the unique nearest one. */
  lemma LocateHint(file: seq<string>, quoted: seq<string>, hint: nat)
    requires LinesMatch(file, hint, quoted)
    ensures Locate(file, quoted, hint) == At(hint)
  {
    LocateAt(file, quoted, hint, hint);
  }

  method LocateHunk(file: seq<string>, quoted: seq<string>, hint: int) returns (best: int, ambiguous: bool)
    ensures Locate(file, quoted, hint) == if ambiguous then Ambiguous else if best < 0 then Missing else At(best)
    ensures ambiguous ==> best == -1
  {
    best, ambiguous := -1, false;
    var bestDistance: nat := 0;
    var ties := 0;
    var last := |file| - |quoted|;
    var at := 0;
    while at <= last
      invariant 0 <= at && (at <= last + 1 || at == 0)
      invariant best < 0 ==> ties == 0 && forall other :: 0 <= other < at ==> !LinesMatch(file, other, quoted)
      invariant best >= 0 ==> best < at && LinesMatch(file, best, quoted) && bestDistance == Distance(best, hint) && ties >= 1
      invariant best >= 0 ==>
        forall other :: 0 <= other < at && LinesMatch(file, other, quoted) ==> bestDistance <= Distance(other, hint)
      invariant ties == 1 ==>
        forall other :: 0 <= other < at && other != best && LinesMatch(file, other, quoted) ==> bestDistance < Distance(other, hint)
      invariant ties > 1 ==>
        exists other :: 0 <= other < at && other != best && LinesMatch(file, other, quoted) && bestDistance == Distance(other, hint)
    {
      if LinesMatch(file, at, quoted) {
        var distance := Distance(at, hint);
        if best < 0 || distance < bestDistance {
          best, bestDistance, ties := at, distance, 1;
        } else if distance == bestDistance {
          ties := ties + 1;
        }
      }
      at := at + 1;
    }
    if ties > 1 {
      NoUniqueNearest(file, quoted, hint, best);
      return -1, true;
    }
    if best >= 0 {
      LocateAt(file, quoted, hint, best);
    }
  }

  lemma NoUniqueNearest(file: seq<string>, quoted: seq<string>, hint: int, best: int)
    requires LinesMatch(file, best, quoted)
    requires forall other :: LinesMatch(file, other, quoted) ==> Distance(best, hint) <= Distance(other, hint)
    requires exists other :: other != best && LinesMatch(file, other, quoted) && Distance(best, hint) == Distance(other, hint)
    ensures Locate(file, quoted, hint) == Ambiguous
  {
    var other :| other != best && LinesMatch(file, other, quoted) && Distance(best, hint) == Distance(other, hint);
    forall at ensures !UniqueNearest(file, quoted, hint, at) {
      if at == best {
        assert !(Distance(at, hint) < Distance(other, hint));
      } else if LinesMatch(file, at, quoted) {
        assert Distance(best, hint) <= Distance(at, hint);
      }
    }
  }

  // ---------------------------------------------------------------------------------------
  // What a hunk replaces
  // ---------------------------------------------------------------------------------------

  /** Number of context lines the hunk opens with. */
  function Lead(lines: seq<PatchLine>): (n: nat)
    ensures n <= |lines| && (forall k :: 0 <= k < n ==> lines[k].kind == ' ')
    ensures n < |lines| ==> lines[n].kind != ' '
  {
    if lines == [] || lines[0].kind != ' ' then 0 else 1 + Lead(lines[1..])
  }

  /** Where the context lines it closes with begin, not before `lead`. */
  function Tail(lines: seq<PatchLine>, lead: nat): (n: nat)
    requires lead <= |lines|
    ensures lead <= n <= |lines| && forall k :: n <= k < |lines| ==> lines[k].kind == ' '
    ensures n > lead ==> lines[n - 1].kind != ' '
    decreases |lines|
  {
    if |lines| > lead && lines[|lines| - 1].kind == ' ' then Tail(lines[..|lines| - 1], lead) else |lines|
  }

  /** The part between the opening and the closing context. */
  function Changed(lines: seq<PatchLine>): seq<PatchLine> {
    lines[Lead(lines)..Tail(lines, Lead(lines))]
  }

  lemma {:induction false} LeadIs(lines: seq<PatchLine>, n: nat)
    requires n <= |lines| && (forall k :: 0 <= k < n ==> lines[k].kind == ' ')
    requires n < |lines| ==> lines[n].kind != ' '
    ensures Lead(lines) == n
  {
    if n > 0 {
      LeadIs(lines[1..], n - 1);
    }
  }

  lemma {:induction false} TailIs(lines: seq<PatchLine>, lead: nat, n: nat)
    requires lead <= n <= |lines| && forall k :: n <= k < |lines| ==> lines[k].kind == ' '
    requires n > lead ==> lines[n - 1].kind != ' '
    ensures Tail(lines, lead) == n
    decreases |lines|
  {
    if n < |lines| {
      TailIs(lines[..|lines| - 1], lead, n);
    }
  }

  datatype EditError =
    | NoContext(hunk: nat)
    | PastTheEnd(hunk: nat, line: nat)
    | MoreThanOnePlace(hunk: nat)
    | NoMatch(hunk: nat)
    | OverlapsEarlier(hunk: nat)

  /** The span of lines one hunk replaces in `file`. */
  ghost function SpanFor(file: seq<string>, hunk: Hunk): (r: Result<Span, EditError>)
  {
    var quoted := OldSide(hunk.lines);
    if quoted == [] then
      if !hunk.pureInsert then Err(NoContext(hunk.number))
      else if hunk.oldStart > |file| then Err(PastTheEnd(hunk.number, hunk.oldStart))
      else Ok(Span(hunk.oldStart, 0, NewSide(hunk.lines)))
    else
      match Locate(file, quoted, hunk.oldStart - 1)
      case Ambiguous => Err(MoreThanOnePlace(hunk.number))
      case Missing => Err(NoMatch(hunk.number))
      case At(at) =>
        var changed := Changed(hunk.lines);
        Ok(Span(at + Lead(hunk.lines), |OldSide(changed)|, NewSide(changed)))
  }

  predicate Idle(span: Span) {
    span.oldLen == 0 && span.neu == []
  }

  predicate OverlapsAny(spans: seq<Span>, span: Span) {
    exists k :: 0 <= k < |spans| && Overlap(spans[k], span)
  }

  /** The spans of all hunks, in hunk order, behind the ones already found. */
  ghost function PlaceAll(file: seq<string>, hunks: seq<Hunk>, spans: seq<Span>): Result<seq<Span>, EditError>
    decreases |hunks|
  {
    if hunks == [] then Ok(spans)
    else match SpanFor(file, hunks[0])
      case Err(e) => Err(e)
      case Ok(span) =>
        if Idle(span) then PlaceAll(file, hunks[1..], spans)
        else if OverlapsAny(spans, span) then Err(OverlapsEarlier(hunks[0].number))
        else PlaceAll(file, hunks[1..], spans + [span])
  }

  lemma {:induction false} OldSideAppend(a: seq<PatchLine>, b: seq<PatchLine>)
    ensures OldSide(a + b) == OldSide(a) + OldSide(b)
  {
    if a == [] {
      assert a + b == b;
    } else {
      var rest := a[1..];
      assert (a + b)[1..] == rest + b;
      OldSideAppend(rest, b);
      Associate([a[0].text], OldSide(rest), OldSide(b));
    }
  }

  lemma {:induction false} NewSideAppend(a: seq<PatchLine>, b: seq<PatchLine>)
    ensures NewSide(a + b) == NewSide(a) + NewSide(b)
  {
    if a == [] {
      assert a + b == b;
    } else {
      var rest := a[1..];
      assert (a + b)[1..] == rest + b;
      NewSideAppend(rest, b);
      Associate([a[0].text], NewSide(rest), NewSide(b));
    }
  }

  lemma {:induction false} ContextSides(lines: seq<PatchLine>)
    requires forall k :: 0 <= k < |lines| ==> lines[k].kind == ' '
    ensures OldSide(lines) == NewSide(lines) && |OldSide(lines)| == |lines|
  {
    if lines != [] {
      ContextSides(lines[1..]);
    }
  }

  /** A hunk's lines are its opening context, its changed part and its closing context. */
  lemma SidesSplit(lines: seq<PatchLine>)
    ensures var lead, tail := Lead(lines), Tail(lines, Lead(lines));
      && OldSide(lines) == OldSide(lines[..lead]) + OldSide(Changed(lines)) + OldSide(lines[tail..])
      && NewSide(lines) == OldSide(lines[..lead]) + NewSide(Changed(lines)) + OldSide(lines[tail..])
      && |OldSide(lines[..lead])| == lead
  {
    var lead, tail := Lead(lines), Tail(lines, Lead(lines));
    assert lines == lines[..lead] + Changed(lines) + lines[tail..];
    OldSideAppend(lines[..lead] + Changed(lines), lines[tail..]);
    OldSideAppend(lines[..lead], Changed(lines));
    NewSideAppend(lines[..lead] + Changed(lines), lines[tail..]);
    NewSideAppend(lines[..lead], Changed(lines));
    ContextSides(lines[..lead]);
    ContextSides(lines[tail..]);
  }

  /** Replacing the middle of a match does what replacing the whole match would. */
  lemma ReplaceMiddle(file: seq<string>, at: nat, a: seq<string>, b: seq<string>, c: seq<string>, neu: seq<string>)
    requires at + |a| + |b| + |c| <= |file| && file[at..at + |a| + |b| + |c|] == a + b + c
    ensures file[at + |a|..at + |a| + |b|] == b
    ensures file[..at + |a|] + neu + file[at + |a| + |b|..] == file[..at] + (a + neu + c) + file[at + |a| + |b| + |c|..]
  {
    SplitMatch(file, at, a, b, c);
    Regroup(file[..at], a, neu, c, file[at + |a| + |b| + |c|..]);
  }

  /** The span drops `quoted[lead..lead + oldLen]` where `quoted` matches, and put in alone it
      turns that match into `left`. */
  ghost predicate Replaces(file: seq<string>, span: Span, at: nat, quoted: seq<string>, left: seq<string>) {
    && LinesMatch(file, at, quoted)
    && at <= span.from && End(span) <= at + |quoted|
    && file[span.from..End(span)] == quoted[span.from - at..End(span) - at]
    && file[..span.from] + span.neu + file[End(span)..] == file[..at] + left + file[at + |quoted|..]
  }

  lemma PiecesReplace(file: seq<string>, at: nat, a: seq<string>, b: seq<string>, c: seq<string>, neu: seq<string>)
    requires LinesMatch(file, at, a + b + c)
    ensures Replaces(file, Span(at + |a|, |b|, neu), at, a + b + c, a + neu + c)
  {
    ReplaceMiddle(file, at, a, b, c, neu);
    assert (a + b + c)[|a|..|a| + |b|] == b;
  }

  /** Every line a span removes is one its hunk quoted, and replacing the span alone turns the
      place where the hunk's old side was found into its new side. */
  lemma SpanMeansHunk(file: seq<string>, hunk: Hunk)
    requires SpanFor(file, hunk).Ok? && OldSide(hunk.lines) != []
    ensures Replaces(file, SpanFor(file, hunk).value, Locate(file, OldSide(hunk.lines), hunk.oldStart - 1).line,
                     OldSide(hunk.lines), NewSide(hunk.lines))
  {
    var lines, span := hunk.lines, SpanFor(file, hunk).value;
    var quoted, left := OldSide(lines), NewSide(lines);
    var at := Locate(file, quoted, hunk.oldStart - 1).line;
    var a, b, c := OldSide(lines[..Lead(lines)]), OldSide(Changed(lines)), OldSide(lines[Tail(lines, Lead(lines))..]);
    assert quoted == a + b + c && left == a + span.neu + c && |a| == Lead(lines) by {
      SidesSplit(lines);
    }
    assert span == Span(at + |a|, |b|, span.neu);
    assert Replaces(file, span, at, quoted, left) by {
      PiecesReplace(file, at, a, b, c, span.neu);
    }
  }

  lemma SliceOfSlice(file: seq<string>, at: nat, n: nat, i: nat, j: nat)
    requires at + n <= |file| && i <= j <= n
    ensures file[at..at + n][i..j] == file[at + i..at + j]
  {
    var t := file[at..at + n];
    assert forall k :: i <= k < j ==> t[k] == file[at + k];
  }

  lemma SplitMatch(file: seq<string>, at: nat, a: seq<string>, b: seq<string>, c: seq<string>)
    requires at + |a| + |b| + |c| <= |file| && file[at..at + |a| + |b| + |c|] == a + b + c
    ensures file[at + |a|..at + |a| + |b|] == b
    ensures file[..at + |a|] == file[..at] + a
    ensures file[at + |a| + |b|..] == c + file[at + |a| + |b| + |c|..]
  {
    var whole, n := a + b + c, |a| + |b| + |c|;
    assert whole[0..|a|] == a && whole[|a|..|a| + |b|] == b && whole[|a| + |b|..n] == c;
    SliceOfSlice(file, at, n, 0, |a|);
    SliceOfSlice(file, at, n, |a|, |a| + |b|);
    SliceOfSlice(file, at, n, |a| + |b|, n);
  }

  lemma Regroup(a: seq<string>, b: seq<string>, c: seq<string>, d: seq<string>, e: seq<string>)
    ensures (a + b) + c + (d + e) == a + (b + c + d) + e
  {
  }

  /** Placed spans fit the file and do not overlap. */
  lemma {:induction false} PlacedApart(file: seq<string>, hunks: seq<Hunk>, spans: seq<Span>)
    requires Apart(spans, |file|) && PlaceAll(file, hunks, spans).Ok?
    ensures Apart(PlaceAll(file, hunks, spans).value, |file|)
    decreases |hunks|
  {
    if hunks != [] {
      var span := SpanFor(file, hunks[0]).value;
      if Idle(span) {
        PlacedApart(file, hunks[1..], spans);
      } else {
        SpanFits(file, hunks[0]);
        PlacedApart(file, hunks[1..], spans + [span]);
      }
    }
  }

  lemma SpanFits(file: seq<string>, hunk: Hunk)
    requires SpanFor(file, hunk).Ok?
    ensures End(SpanFor(file, hunk).value) <= |file|
  {
    SidesSplit(hunk.lines);
  }

  /** Each placed span comes from a hunk of the patch. */
  lemma {:induction false} PlacedFromHunks(file: seq<string>, hunks: seq<Hunk>, spans: seq<Span>)
    requires PlaceAll(file, hunks, spans).Ok?
    ensures forall s :: s in PlaceAll(file, hunks, spans).value && s !in spans ==> exists h :: h in hunks && SpanFor(file, h) == Ok(s)
    decreases |hunks|
  {
    if hunks != [] {
      var span := SpanFor(file, hunks[0]).value;
      PlacedFromHunks(file, hunks[1..], if Idle(span) then spans else spans + [span]);
    }
  }

  /** The span-building loop of `edit_file`. */
  method PlaceHunks(file: seq<string>, hunks: seq<Hunk>) returns (r: Result<seq<Span>, EditError>)
    ensures r == PlaceAll(file, hunks, [])
    ensures r.Ok? ==> Apart(r.value, |file|)
  {
    var spans: seq<Span> := [];
    assert hunks[0..] == hunks;
    for i := 0 to |hunks|
      invariant PlaceAll(file, hunks[i..], spans) == PlaceAll(file, hunks, [])
    {
      assert hunks[i..][1..] == hunks[i + 1..];
      var placed := PlaceHunk(file, hunks[i]);
      if placed.Err? {
        return Err(placed.error);
      }
      var span := placed.value;
      if span.oldLen == 0 && span.neu == [] {
        continue;
      }
      for k := 0 to |spans|
        invariant forall j :: 0 <= j < k ==> !Overlap(spans[j], span)
      {
        if RangesOverlap(spans[k].from, spans[k].oldLen, span.from, span.oldLen) {
          assert Overlap(spans[k], span);
          return Err(OverlapsEarlier(hunks[i].number));
        }
      }
      spans := spans + [span];
    }
    r := Ok(spans);
    PlacedApart(file, hunks, []);
  }

  method MeasureContext(lines: seq<PatchLine>) returns (lead: nat, tail: nat)
    ensures lead == Lead(lines) && tail == Tail(lines, lead)
  {
    lead := 0;
    while lead < |lines| && lines[lead].kind == ' '
      invariant lead <= |lines| && forall k :: 0 <= k < lead ==> lines[k].kind == ' '
    {
      lead := lead + 1;
    }
    LeadIs(lines, lead);
    tail := |lines|;
    while tail > lead && lines[tail - 1].kind == ' '
      invariant lead <= tail <= |lines| && forall k :: tail <= k < |lines| ==> lines[k].kind == ' '
    {
      tail := tail - 1;
    }
    TailIs(lines, lead, tail);
  }

  method ChangedSides(changed: seq<PatchLine>) returns (oldLen: nat, neu: seq<string>)
    ensures oldLen == |OldSide(changed)| && neu == NewSide(changed)
  {
    oldLen, neu := 0, [];
    for i := 0 to |changed|
      invariant oldLen == |OldSide(changed[..i])| && neu == NewSide(changed[..i])
    {
      var line := changed[i];
      assert changed[..i + 1] == changed[..i] + [line];
      OldSideAppend(changed[..i], [line]);
      NewSideAppend(changed[..i], [line]);
      if line.kind == ' ' || line.kind == '-' {
        oldLen := oldLen + 1;
      }
      if line.kind == ' ' || line.kind == '+' {
        neu := neu + [line.text];
      }
    }
    assert changed[..|changed|] == changed;
  }

  method PlaceHunk(file: seq<string>, hunk: Hunk) returns (r: Result<Span, EditError>)
    ensures r == SpanFor(file, hunk)
  {
    var quoted := OldSide(hunk.lines);
    var lead, tail := MeasureContext(hunk.lines);
    ghost var changed := Changed(hunk.lines);
    assert changed == hunk.lines[lead..tail];
    var oldLen, neu := ChangedSides(hunk.lines[lead..tail]);
    if quoted == [] {
      if !hunk.pureInsert {
        return Err(NoContext(hunk.number));
      }
      if hunk.oldStart > |file| {
        return Err(PastTheEnd(hunk.number, hunk.oldStart));
      }
      return Ok(Span(hunk.oldStart, 0, NewSide(hunk.lines)));
    }
    var at, ambiguous := LocateHunk(file, quoted, hunk.oldStart - 1);
    if ambiguous {
      return Err(MoreThanOnePlace(hunk.number));
    }
    if at < 0 {
      return Err(NoMatch(hunk.number));
    }
    r := Ok(Span(at + lead, oldLen, neu));
  }
}
