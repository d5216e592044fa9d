/** The live-delta filter of the Responses stream (`src/server/responses/responses.cpp`):
    it hides tool-call markup, routes `<think>` blocks to the reasoning channel and holds
    back a suffix that might still grow into a marker. */
module DeltaFilter {
  import opened Strings

  datatype Marker = Marker(start: string, end: string, reasoning: bool)

  const THINK_END := "</think>"

  const MARKER_COUNT: nat := 6

  /** The marker table. U+FF5C is the three bytes EF BD 9C and U+2581 is E2 96 81. */
  function MarkerNo(k: nat): Marker
    requires k < MARKER_COUNT
  {
    match k
    case 0 => Marker("<think>", THINK_END, true)
    case 1 => Marker("<tool_calls>", "</tool_calls>", false)
    case 2 => Marker("<tool_call>", "</tool_call>", false)
    case 3 => Marker("<\U{EF}\U{BD}\U{9C}tool\U{E2}\U{96}\U{81}calls\U{E2}\U{96}\U{81}begin\U{EF}\U{BD}\U{9C}>",
                     "<\U{EF}\U{BD}\U{9C}tool\U{E2}\U{96}\U{81}calls\U{E2}\U{96}\U{81}end\U{EF}\U{BD}\U{9C}>", false)
    case 4 => Marker("<\U{EF}\U{BD}\U{9C}tool\U{E2}\U{96}\U{81}call\U{E2}\U{96}\U{81}begin\U{EF}\U{BD}\U{9C}>",
                     "<\U{EF}\U{BD}\U{9C}tool\U{E2}\U{96}\U{81}call\U{E2}\U{96}\U{81}end\U{EF}\U{BD}\U{9C}>", false)
    case _ => Marker("[TOOL_CALLS]", "", false)
  }

  /** The start markers, in table order. */
  function Starts(): (r: seq<string>)
    ensures |r| == MARKER_COUNT && forall k :: 0 <= k < MARKER_COUNT ==> r[k] == MarkerNo(k).start
  {
    seq(MARKER_COUNT, k requires 0 <= k < MARKER_COUNT => MarkerNo(k).start)
  }

  datatype Mode = Text | Reasoning | Tool

  // ---------------------------------------------------------------------------------------
  // Reference reading of a whole stream, one byte or one marker at a time
  // ---------------------------------------------------------------------------------------

  /** Where a byte of the stream ends up. */
  datatype Kind = Answer | Thought | Markup

  datatype Tag = Tag(kind: Kind, byte: char)

  function Paint(s: string, kind: Kind): (r: seq<Tag>) {
    seq(|s|, i requires 0 <= i < |s| => Tag(kind, s[i]))
  }

  /** The bytes of one kind, in stream order. */
  function Select(tags: seq<Tag>, kind: Kind): string {
    if tags == [] then ""
    else (if tags[0].kind == kind then [tags[0].byte] else "") + Select(tags[1..], kind)
  }

  /** The stream the tags were put on. */
  function Untag(tags: seq<Tag>): string {
    seq(|tags|, i requires 0 <= i < |tags| => tags[i].byte)
  }

  /** Index of the first marker in the table, from `k` on, that `s` begins with. */
  function StartOf(s: string, k: nat): (r: Option<nat>)
    requires k <= MARKER_COUNT
    ensures r.Some? ==> k <= r.value < MARKER_COUNT && MarkerNo(r.value).start <= s
    ensures r.None? ==> forall j :: k <= j < MARKER_COUNT ==> !(MarkerNo(j).start <= s)
    decreases MARKER_COUNT - k
  {
    if k == MARKER_COUNT then None
    else if MarkerNo(k).start <= s then Some(k)
    else StartOf(s, k + 1)
  }

  /** What a reader in `mode` (inside a tool block that closes with `end`) makes of `s`.
      An empty `end` never closes: the rest of the stream is markup. */
  function Read(mode: Mode, end: string, s: string): (r: seq<Tag>)
    decreases |s|
  {
    if s == "" then []
    else match mode
      case Text => (
        match StartOf(s, 0)
        case Some(k) =>
          var m := MarkerNo(k);
          assert m.start != "";
          Paint(m.start, Markup)
          + (if m.reasoning then Read(Reasoning, "", s[|m.start|..]) else Read(Tool, m.end, s[|m.start|..]))
        case None => [Tag(Answer, s[0])] + Read(Text, "", s[1..]))
      case Reasoning =>
        if THINK_END <= s then Paint(THINK_END, Markup) + Read(Text, "", s[|THINK_END|..])
        else [Tag(Thought, s[0])] + Read(Reasoning, "", s[1..])
      case Tool =>
        if end != "" && end <= s then Paint(end, Markup) + Read(Text, "", s[|end|..])
        else [Tag(Markup, s[0])] + Read(Tool, end, s[1..])
  }

  lemma UntagSplit(word: string, kind: Kind, tags: seq<Tag>)
    ensures Untag(Paint(word, kind) + tags) == word + Untag(tags)
  {
  }

  /** Every byte of the stream gets exactly one tag, in order. */
  lemma {:induction false} ReadLosesNothing(mode: Mode, end: string, s: string)
    ensures Untag(Read(mode, end, s)) == s
    decreases |s|
  {
    if s != "" {
      var word, kind, next, nextEnd := FirstTag(mode, end, s);
      ReadLosesNothing(next, nextEnd, s[|word|..]);
      UntagSplit(word, kind, Read(next, nextEnd, s[|word|..]));
    }
  }

  /** The first step of `Read`: `word` gets `kind`, and reading goes on in `next`. */
  lemma FirstTag(mode: Mode, end: string, s: string) returns (word: string, kind: Kind, next: Mode, nextEnd: string)
    requires s != ""
    ensures word != "" && word <= s
    ensures Read(mode, end, s) == Paint(word, kind) + Read(next, nextEnd, s[|word|..])
  {
    word, kind, next, nextEnd := s[..1], Plain(mode), mode, if mode.Tool? then end else "";
    assert Paint(word, kind) == [Tag(kind, s[0])];
    match mode
    case Text =>
      if StartOf(s, 0).Some? {
        var m := MarkerNo(StartOf(s, 0).value);
        word, kind, next, nextEnd := m.start, Markup, if m.reasoning then Reasoning else Tool, if m.reasoning then "" else m.end;
      }
    case Reasoning =>
      if THINK_END <= s { word, kind, next, nextEnd := THINK_END, Markup, Text, ""; }
    case Tool =>
      if end != "" && end <= s { word, kind, next, nextEnd := end, Markup, Text, ""; }
  }

  lemma {:induction false} SelectAppend(a: seq<Tag>, b: seq<Tag>, kind: Kind)
    ensures Select(a + b, kind) == Select(a, kind) + Select(b, kind)
  {
    if a == [] {
      assert a + b == b;
    } else {
      var rest := a[1..];
      assert (a + b)[1..] == rest + b;
      SelectAppend(rest, b, kind);
      var head := if a[0].kind == kind then [a[0].byte] else "";
      assert head + (Select(rest, kind) + Select(b, kind)) == (head + Select(rest, kind)) + Select(b, kind);
    }
  }

  lemma {:induction false} SelectPaint(s: string, painted: Kind, kind: Kind)
    ensures Select(Paint(s, painted), kind) == if painted == kind then s else ""
  {
    if s != "" {
      SelectPaint(s[1..], painted, kind);
      assert Paint(s, painted)[1..] == Paint(s[1..], painted);
    }
  }

  // ---------------------------------------------------------------------------------------
  // Words the current mode waits for
  // ---------------------------------------------------------------------------------------

  function Awaited(mode: Mode, end: string): seq<string> {
    match mode
    case Text => Starts()
    case Reasoning => [THINK_END]
    case Tool => if end == "" then [] else [end]
  }

  function Plain(mode: Mode): Kind {
    match mode
    case Text => Answer
    case Reasoning => Thought
    case Tool => Markup
  }

  /** No word of `words` starts in `s` before index `n`. */
  predicate Clear(words: seq<string>, s: string, n: nat) {
    forall i, k :: 0 <= i < n && 0 <= k < |words| ==> !OccursAt(s, words[k], i)
  }

  /** Different words neither start one another nor contain one another's first byte further in. */
  predicate Rigid(words: seq<string>) {
    && (forall j :: 0 <= j < |words| ==> words[j] != "")
    && (forall j, k :: 0 <= j < |words| && 0 <= k < |words| && j != k ==> !(words[j] <= words[k]))
    && (forall j, k, i :: 0 <= j < |words| && 0 <= k < |words| && j != k && 1 <= i < |words[j]| ==> words[j][i] != words[k][0])
  }

  /** A marker opens with `<` or `[` and has neither further in. */
  predicate OpensOnce(word: string) {
    && |word| >= 2 && (word[0] == '<' || word[0] == '[')
    && forall i :: 1 <= i < |word| ==> word[i] != '<' && word[i] != '['
  }

  lemma CallsBeginOpensOnce()
    ensures OpensOnce(MarkerNo(3).start)
  {
  }

  lemma CallBeginOpensOnce()
    ensures OpensOnce(MarkerNo(4).start)
  {
  }

  lemma StartsOpenOnce(k: nat)
    requires k < MARKER_COUNT
    ensures OpensOnce(MarkerNo(k).start)
  {
    if k == 3 {
      CallsBeginOpensOnce();
    } else if k == 4 {
      CallBeginOpensOnce();
    }
  }

  lemma StartsDiffer(j: nat, k: nat)
    requires j < k < MARKER_COUNT
    ensures exists d :: 0 <= d < |MarkerNo(j).start| && d < |MarkerNo(k).start| && MarkerNo(j).start[d] != MarkerNo(k).start[d]
  {
    var a, b := MarkerNo(j).start, MarkerNo(k).start;
    if k == 5 {
      assert a[0] != b[0];
    } else if j == 3 {
      assert a[15] != b[15];
    } else if k >= 3 {
      assert a[1] != b[1];
    } else if j == 0 {
      assert a[2] != b[2];
    } else {
      assert a[10] != b[10];
    }
  }

  lemma StartsAreRigid()
    ensures Rigid(Starts())
  {
    var words := Starts();
    forall j | 0 <= j < |words| ensures OpensOnce(words[j]) { StartsOpenOnce(j); }
    forall j, k | 0 <= j < k < |words| ensures !(words[j] <= words[k]) && !(words[k] <= words[j]) {
      StartsDiffer(j, k);
    }
  }

  // ---------------------------------------------------------------------------------------
  // How the reading of `p + q` is fixed by `p`
  // ---------------------------------------------------------------------------------------

  lemma ReadPlainByte(mode: Mode, end: string, s: string)
    requires s != "" && (mode != Tool ==> end == "")
    requires forall k :: 0 <= k < |Awaited(mode, end)| ==> !(Awaited(mode, end)[k] <= s)
    ensures Read(mode, end, s) == [Tag(Plain(mode), s[0])] + Read(mode, end, s[1..])
  {
    match mode
    case Text =>
    case Reasoning => assert Awaited(mode, end)[0] == THINK_END;
    case Tool =>
      if end != "" { assert Awaited(mode, end)[0] == end; }
  }

  lemma ClearTail(words: seq<string>, s: string, n: nat)
    requires 0 < n <= |s| && Clear(words, s, n)
    ensures Clear(words, s[1..], n - 1)
    ensures forall k :: 0 <= k < |words| ==> !(words[k] <= s)
  {
    forall i, k | 0 <= i < n - 1 && 0 <= k < |words| ensures !OccursAt(s[1..], words[k], i) {
      var w := words[k];
      assert !OccursAt(s, w, i + 1);
      assert i + |w| <= |s| - 1 ==> s[1..][i..i + |w|] == s[i + 1..i + 1 + |w|];
    }
    forall k | 0 <= k < |words| ensures !(words[k] <= s) {
      assert !OccursAt(s, words[k], 0);
    }
  }

  /** Bytes before any awaited word keep the mode's own kind. */
  lemma {:induction false} ReadPlain(mode: Mode, end: string, s: string, n: nat)
    requires n <= |s| && Clear(Awaited(mode, end), s, n)
    requires mode != Tool ==> end == ""
    ensures Read(mode, end, s) == Paint(s[..n], Plain(mode)) + Read(mode, end, s[n..])
  {
    if n == 0 {
      assert s[0..] == s;
    } else {
      ClearTail(Awaited(mode, end), s, n);
      ReadPlainByte(mode, end, s);
      ReadPlain(mode, end, s[1..], n - 1);
      assert s[1..][n - 1..] == s[n..];
      PaintFirst(s, n, Plain(mode), Read(mode, end, s[n..]));
    }
  }

  lemma PaintFirst(s: string, n: nat, kind: Kind, rest: seq<Tag>)
    requires 0 < n <= |s|
    ensures [Tag(kind, s[0])] + (Paint(s[1..][..n - 1], kind) + rest) == Paint(s[..n], kind) + rest
  {
  }

  lemma OccursWithin(p: string, q: string, w: string, i: nat)
    requires i + |w| <= |p|
    ensures OccursAt(p + q, w, i) <==> OccursAt(p, w, i)
  {
    assert (p + q)[i..i + |w|] == p[i..i + |w|];
  }

  lemma Overlap(s: string, w: string, f: string, i: nat, at: nat)
    requires OccursAt(s, w, i) && OccursAt(s, f, at) && i <= at < i + |w|
    ensures forall d :: 0 <= d < |f| && at - i + d < |w| ==> w[at - i + d] == f[d]
    ensures f != "" ==> w[at - i] == f[0]
  {
    forall d | 0 <= d < |f| && at - i + d < |w| ensures w[at - i + d] == f[d] {
      assert s[i..i + |w|][at - i + d] == s[at + d] == s[at..at + |f|][d];
    }
  }

  /** A hit inside `p` stays the first one whatever follows `p`. */
  lemma HitIsStable(words: seq<string>, p: string, q: string, k: nat, at: nat)
    requires Rigid(words) && k < |words|
    requires OccursAt(p, words[k], at) && Clear(words, p, at)
    ensures OccursAt(p + q, words[k], at) && Clear(words, p + q, at)
    ensures forall j :: 0 <= j < |words| && OccursAt(p + q, words[j], at) ==> j == k
  {
    var s, f := p + q, words[k];
    OccursWithin(p, q, f, at);
    forall i, j | 0 <= i < at && 0 <= j < |words| ensures !OccursAt(s, words[j], i) {
      var w := words[j];
      if i + |w| <= |p| {
        OccursWithin(p, q, w, i);
      } else if OccursAt(s, w, i) {
        Overlap(s, w, f, i, at);
      }
    }
    forall j | 0 <= j < |words| && OccursAt(s, words[j], at) ensures j == k {
      var w := words[j];
      Overlap(s, w, f, at, at);
      assert |w| <= |f| ==> w <= f;
      assert |f| <= |w| ==> f <= w;
    }
  }

  /** `hold` bytes at the end of `text` start one of `words`, without completing it. */
  predicate Begins(words: seq<string>, text: string, hold: nat) {
    hold <= |text| && exists k :: 0 <= k < |words| && hold < |words[k]| && text[|text| - hold..] == words[k][..hold]
  }

  /** `hold` is the longest such suffix; 0 when there is none. */
  predicate IsHold(words: seq<string>, text: string, hold: nat) {
    && hold <= |text|
    && (hold > 0 ==> Begins(words, text, hold))
    && forall length :: hold < length <= |text| ==> !Begins(words, text, length)
  }

  lemma StraddleBegins(words: seq<string>, p: string, q: string, k: nat, i: nat)
    requires k < |words| && i < |p| < i + |words[k]|
    requires OccursAt(p + q, words[k], i)
    ensures Begins(words, p, |p| - i)
  {
    var w, s := words[k], p + q;
    assert p[i..] == s[i..|p|];
    assert w[..|p| - i] == s[i..|p|];
  }

  /** Without a hit in `p`, no word of `p + q` starts before the held suffix. */
  lemma HoldIsEnough(words: seq<string>, p: string, q: string, hold: nat)
    requires Clear(words, p, |p|) && IsHold(words, p, hold)
    ensures Clear(words, p + q, |p| - hold)
  {
    forall i, k | 0 <= i < |p| - hold && 0 <= k < |words| ensures !OccursAt(p + q, words[k], i) {
      if i + |words[k]| <= |p| {
        OccursWithin(p, q, words[k], i);
      } else if OccursAt(p + q, words[k], i) {
        StraddleBegins(words, p, q, k, i);
      }
    }
  }

  lemma AwaitedIsRigid(mode: Mode, end: string)
    ensures Rigid(Awaited(mode, end))
  {
    StartsAreRigid();
  }

  // ---------------------------------------------------------------------------------------
  // The filter
  // ---------------------------------------------------------------------------------------

  /** The mode after the awaited word `k` was read. */
  function After(mode: Mode, k: nat): (Mode, string)
    requires mode == Text ==> k < MARKER_COUNT
  {
    if mode != Text then (Text, "")
    else if MarkerNo(k).reasoning then (Reasoning, "")
    else (Tool, MarkerNo(k).end)
  }

  lemma ReadHit(mode: Mode, end: string, s: string, k: nat, at: nat)
    requires mode != Tool ==> end == ""
    requires k < |Awaited(mode, end)| && OccursAt(s, Awaited(mode, end)[k], at)
    requires Clear(Awaited(mode, end), s, at)
    requires forall j :: 0 <= j < |Awaited(mode, end)| && OccursAt(s, Awaited(mode, end)[j], at) ==> j == k
    ensures var word := Awaited(mode, end)[k];
      Read(mode, end, s) == (Paint(s[..at], Plain(mode)) + Paint(word, Markup))
                            + Read(After(mode, k).0, After(mode, k).1, s[at + |word|..])
  {
    var words := Awaited(mode, end);
    var word, tail := words[k], s[at..];
    ReadPlain(mode, end, s, at);
    AwaitedIsRigid(mode, end);
    assert word <= tail;
    forall j | 0 <= j < |words| && words[j] <= tail ensures j == k {
      assert OccursAt(s, words[j], at);
    }
    assert tail[|word|..] == s[at + |word|..];
    ReadWord(mode, end, tail, k);
  }

  lemma ReadWord(mode: Mode, end: string, s: string, k: nat)
    requires k < |Awaited(mode, end)| && Awaited(mode, end)[k] != "" && Awaited(mode, end)[k] <= s
    requires forall j :: 0 <= j < |Awaited(mode, end)| && Awaited(mode, end)[j] <= s ==> j == k
    ensures var word := Awaited(mode, end)[k];
      Read(mode, end, s) == Paint(word, Markup) + Read(After(mode, k).0, After(mode, k).1, s[|word|..])
  {
    if mode == Text {
      var found := StartOf(s, 0);
      if found.Some? {
        assert Awaited(mode, end)[found.value] <= s;
      }
    }
  }

  /** Followed by `rest`, a reader of `p` in (`mode`, `end`) puts down `tags` and goes on with `p2` in (`mode2`, `end2`). */
  ghost predicate ContinuesWith(rest: string, mode: Mode, end: string, p: string, tags: seq<Tag>, mode2: Mode, end2: string, p2: string) {
    Read(mode, end, p + rest) == tags + Read(mode2, end2, p2 + rest)
  }

  /** The same whatever follows. */
  ghost predicate Continues(mode: Mode, end: string, p: string, tags: seq<Tag>, mode2: Mode, end2: string, p2: string) {
    forall rest: string :: ContinuesWith(rest, mode, end, p, tags, mode2, end2, p2)
  }

  lemma Compose(mode: Mode, end: string, p: string, tags: seq<Tag>, mode2: Mode, end2: string, p2: string,
                more: seq<Tag>, mode3: Mode, end3: string, p3: string)
    requires Continues(mode, end, p, tags, mode2, end2, p2)
    requires Continues(mode2, end2, p2, more, mode3, end3, p3)
    ensures Continues(mode, end, p, tags + more, mode3, end3, p3)
  {
    forall rest: string ensures ContinuesWith(rest, mode, end, p, tags + more, mode3, end3, p3) {
      assert ContinuesWith(rest, mode, end, p, tags, mode2, end2, p2);
      assert ContinuesWith(rest, mode2, end2, p2, more, mode3, end3, p3);
    }
  }

  /** One round of the drain loop that finds word `k` at `at`. */
  lemma DrainHit(mode: Mode, end: string, p: string, k: nat, at: nat)
    requires mode != Tool ==> end == ""
    requires k < |Awaited(mode, end)| && OccursAt(p, Awaited(mode, end)[k], at) && Clear(Awaited(mode, end), p, at)
    ensures var word := Awaited(mode, end)[k];
      Continues(mode, end, p, Paint(p[..at], Plain(mode)) + Paint(word, Markup),
                After(mode, k).0, After(mode, k).1, p[at + |word|..])
  {
    var words := Awaited(mode, end);
    var word, next := words[k], After(mode, k);
    var tags, left := Paint(p[..at], Plain(mode)) + Paint(word, Markup), p[at + |word|..];
    AwaitedIsRigid(mode, end);
    forall rest: string ensures ContinuesWith(rest, mode, end, p, tags, next.0, next.1, left) {
      HitIsStable(words, p, rest, k, at);
      ReadHit(mode, end, p + rest, k, at);
      assert (p + rest)[..at] == p[..at];
      assert (p + rest)[at + |word|..] == p[at + |word|..] + rest;
    }
  }

  /** The last round, which keeps `hold` bytes. */
  lemma DrainHold(mode: Mode, end: string, p: string, hold: nat)
    requires mode != Tool ==> end == ""
    requires Clear(Awaited(mode, end), p, |p|) && IsHold(Awaited(mode, end), p, hold)
    ensures Continues(mode, end, p, Paint(p[..|p| - hold], Plain(mode)), mode, end, p[|p| - hold..])
  {
    var n := |p| - hold;
    forall rest: string ensures ContinuesWith(rest, mode, end, p, Paint(p[..n], Plain(mode)), mode, end, p[n..]) {
      HoldIsEnough(Awaited(mode, end), p, rest, hold);
      assert (p + rest)[..n] == p[..n];
      assert (p + rest)[n..] == p[n..] + rest;
      ReadPlain(mode, end, p + rest, n);
    }
  }

  /** The last round of a flush. */
  lemma DrainAll(mode: Mode, end: string, p: string)
    requires mode != Tool ==> end == ""
    requires Clear(Awaited(mode, end), p, |p|)
    ensures Read(mode, end, p) == Paint(p, Plain(mode))
  {
    ReadPlain(mode, end, p, |p|);
    assert p[..|p|] == p && p[|p|..] == "";
  }

  lemma SelectRound(s: string, kind: Kind, word: string)
    ensures Select(Paint(s, kind) + Paint(word, Markup), Answer) == if kind == Answer then s else ""
    ensures Select(Paint(s, kind) + Paint(word, Markup), Thought) == if kind == Thought then s else ""
  {
    forall k | k == Answer || k == Thought
      ensures Select(Paint(s, kind) + Paint(word, Markup), k) == if kind == k then s else ""
    {
      SelectAppend(Paint(s, kind), Paint(word, Markup), k);
      SelectPaint(s, kind, k);
      SelectPaint(word, Markup, k);
    }
  }

  /** A hit: the leftmost marker start, and the longest marker that starts there. */
  datatype Hit = Hit(pos: nat, marker: nat)

  /** `hit` is the leftmost start of a word among the first `n`, and the longest of these there. */
  predicate IsEarliest(words: seq<string>, n: nat, text: string, hit: Hit)
    requires n <= |words|
  {
    && hit.marker < n
    && OccursAt(text, words[hit.marker], hit.pos)
    && (forall i, k :: 0 <= i < hit.pos && 0 <= k < n ==> !OccursAt(text, words[k], i))
    && forall k :: 0 <= k < n && OccursAt(text, words[k], hit.pos) ==> |words[k]| <= |words[hit.marker]|
  }

  method EarliestMarker(text: string, starts: seq<string>) returns (best: Option<Hit>)
    ensures best.Some? ==> IsEarliest(starts, |starts|, text, best.value)
    ensures best.None? ==> forall i, k :: 0 <= i && 0 <= k < |starts| ==> !OccursAt(text, starts[k], i)
  {
    best := None;
    for k := 0 to |starts|
      invariant best.None? ==> forall i, j :: 0 <= i && 0 <= j < k ==> !OccursAt(text, starts[j], i)
      invariant best.Some? ==> IsEarliest(starts, k, text, best.value)
    {
      var found := Find(text, starts[k], 0);
      if found.Some? {
        if best.None? || found.value < best.value.pos
           || (found.value == best.value.pos && |starts[k]| > |starts[best.value.marker]|) {
          best := Some(Hit(found.value, k));
        }
      }
    }
  }

  method HoldSuffix(text: string, markers: seq<string>) returns (hold: nat)
    ensures IsHold(markers, text, hold)
  {
    hold := 0;
    for k := 0 to |markers|
      invariant IsHold(markers[..k], text, hold)
    {
      var marker := markers[k];
      ghost var before := hold;
      assert markers[..k + 1] == markers[..k] + [marker];
      if |marker| >= 2 {
        var length := if |text| < |marker| - 1 then |text| else |marker| - 1;
        while length > hold
          invariant hold == before
          invariant 0 <= length <= |text| && length < |marker|
          invariant forall l :: length < l <= |text| && l < |marker| ==> text[|text| - l..] != marker[..l]
        {
          if text[|text| - length..] == marker[..length] {
            hold := length;
            break;
          }
          length := length - 1;
        }
      }
      HoldStep(markers[..k], marker, text, before, hold);
    }
    assert markers[..|markers|] == markers;
  }

  lemma HoldStep(words: seq<string>, word: string, text: string, before: nat, hold: nat)
    requires IsHold(words, text, before) && before <= hold <= |text|
    requires hold > before ==> hold < |word| && text[|text| - hold..] == word[..hold]
    requires forall l :: hold < l <= |text| && l < |word| ==> text[|text| - l..] != word[..l]
    ensures IsHold(words + [word], text, hold)
  {
    var all := words + [word];
    if hold > before {
      assert all[|words|] == word;
    } else if hold > 0 {
      var k :| 0 <= k < |words| && hold < |words[k]| && text[|text| - hold..] == words[k][..hold];
      assert all[k] == words[k];
    }
    forall l | hold < l <= |text| ensures !Begins(all, text, l) {
      assert !Begins(words, text, l);
    }
  }

  datatype Delta = Delta(reasoning: string, text: string)

  /** Nothing is kept but the unfinished beginning of an awaited word. */
  ghost predicate HeldBack(mode: Mode, end: string, pending: string) {
    pending == "" || Begins(Awaited(mode, end), pending, |pending|)
  }

  /** What draining `p` in (`mode`, `end`) has to achieve: the output is that of `tags`, and
      (`mode2`, `end2`, `p2`) is the state left behind. `again` asks for another round. */
  ghost predicate Drained(mode: Mode, end: string, p: string, flush: bool, again: bool,
                          part: Delta, tags: seq<Tag>, mode2: Mode, end2: string, p2: string) {
    && part == Delta(Select(tags, Thought), Select(tags, Answer))
    && (again || !flush ==> Continues(mode, end, p, tags, mode2, end2, p2))
    && (again ==> |p2| < |p|)
    && (!again && !flush ==> HeldBack(mode2, end2, p2))
    && (!again && flush ==> p2 == "" && tags == Read(mode, end, p))
  }

  /** A round that finds word `k` at `at`. */
  lemma TakeHit(mode: Mode, end: string, p: string, flush: bool, k: nat, at: nat)
    returns (part: Delta, tags: seq<Tag>, next: (Mode, string), left: string)
    requires mode != Tool ==> end == ""
    requires k < |Awaited(mode, end)| && OccursAt(p, Awaited(mode, end)[k], at) && Clear(Awaited(mode, end), p, at)
    ensures next == After(mode, k) && left == p[at + |Awaited(mode, end)[k]|..]
    ensures part == Delta(if mode == Reasoning then p[..at] else "", if mode == Text then p[..at] else "")
    ensures Drained(mode, end, p, flush, true, part, tags, next.0, next.1, left)
  {
    var word := Awaited(mode, end)[k];
    part := Delta(if mode == Reasoning then p[..at] else "", if mode == Text then p[..at] else "");
    tags, next, left := Paint(p[..at], Plain(mode)) + Paint(word, Markup), After(mode, k), p[at + |word|..];
    AwaitedIsRigid(mode, end);
    DrainHit(mode, end, p, k, at);
    SelectRound(p[..at], Plain(mode), word);
  }

  /** The last round, which keeps `hold` bytes. */
  lemma TakeRest(mode: Mode, end: string, p: string, flush: bool, hold: nat)
    returns (part: Delta, tags: seq<Tag>, left: string)
    requires mode != Tool ==> end == ""
    requires Clear(Awaited(mode, end), p, |p|)
    requires if flush then hold == 0 else IsHold(Awaited(mode, end), p, hold)
    ensures left == p[|p| - hold..]
    ensures part == Delta(if mode == Reasoning then p[..|p| - hold] else "", if mode == Text then p[..|p| - hold] else "")
    ensures Drained(mode, end, p, flush, false, part, tags, if flush then Text else mode, if flush then "" else end, left)
  {
    var front := p[..|p| - hold];
    part := Delta(if mode == Reasoning then front else "", if mode == Text then front else "");
    tags, left := Paint(front, Plain(mode)), p[|p| - hold..];
    SelectPaint(front, Plain(mode), Answer);
    SelectPaint(front, Plain(mode), Thought);
    if flush {
      assert front == p;
      DrainAll(mode, end, p);
    } else {
      if hold > 0 { HeldBegins(Awaited(mode, end), p, hold); }
      DrainHold(mode, end, p, hold);
    }
  }

  lemma HeldBegins(words: seq<string>, p: string, hold: nat)
    requires Begins(words, p, hold)
    ensures Begins(words, p[|p| - hold..], hold)
  {
    var held := p[|p| - hold..];
    assert held[|held| - hold..] == held;
  }

  /** A flush reads what is left to its end. */
  lemma ReadToEnd(mode: Mode, end: string, p: string, tags: seq<Tag>, mode2: Mode, end2: string, p2: string)
    requires Continues(mode, end, p, tags, mode2, end2, p2)
    ensures tags + Read(mode2, end2, p2) == Read(mode, end, p)
  {
    assert p + "" == p && p2 + "" == p2;
    assert ContinuesWith("", mode, end, p, tags, mode2, end2, p2);
  }

  /** Rounds add up. */
  lemma NextRound(mode: Mode, end: string, p: string, flush: bool, part: Delta, tags: seq<Tag>, mode2: Mode, end2: string, p2: string,
                  again: bool, more: Delta, moreTags: seq<Tag>, mode3: Mode, end3: string, p3: string)
    returns (all: Delta, allTags: seq<Tag>)
    requires Continues(mode, end, p, tags, mode2, end2, p2) && |p2| <= |p|
    requires part == Delta(Select(tags, Thought), Select(tags, Answer))
    requires Drained(mode2, end2, p2, flush, again, more, moreTags, mode3, end3, p3)
    ensures allTags == tags + moreTags
    ensures all == Delta(part.reasoning + more.reasoning, part.text + more.text)
    ensures Drained(mode, end, p, flush, again, all, allTags, mode3, end3, p3)
  {
    all := Delta(part.reasoning + more.reasoning, part.text + more.text);
    allTags := tags + moreTags;
    SelectAppend(tags, moreTags, Answer);
    SelectAppend(tags, moreTags, Thought);
    if again || !flush {
      Compose(mode, end, p, tags, mode2, end2, p2, moreTags, mode3, end3, p3);
    } else {
      ReadToEnd(mode, end, p, tags, mode2, end2, p2);
    }
  }

  class ResponsesDeltaFilter {
    var pending: string
    var toolEnd: string
    var mode: Mode

    ghost predicate Valid()
      reads this
    {
      mode != Tool ==> toolEnd == ""
    }

    ghost predicate Initial()
      reads this
    {
      mode == Text && toolEnd == "" && pending == ""
    }

    constructor ()
      ensures Initial()
    {
      pending, toolEnd, mode := "", "", Text;
    }

    method Feed(piece: string) returns (out: Delta, ghost tags: seq<Tag>)
      requires Valid()
      modifies this
      ensures Valid() && HeldBack(mode, toolEnd, pending)
      ensures out == Delta(Select(tags, Thought), Select(tags, Answer))
      ensures Continues(old(mode), old(toolEnd), old(pending) + piece, tags, mode, toolEnd, pending)
    {
      pending := pending + piece;
      out, tags := Drain(false);
    }

    method Finish() returns (out: Delta, ghost tags: seq<Tag>)
      requires Valid()
      modifies this
      ensures Initial()
      ensures out == Delta(Select(tags, Thought), Select(tags, Answer))
      ensures tags == Read(old(mode), old(toolEnd), old(pending))
    {
      out, tags := Drain(true);
    }

    method Drain(flush: bool) returns (out: Delta, ghost tags: seq<Tag>)
      requires Valid()
      modifies this
      ensures Valid() && (flush ==> Initial())
      ensures Drained(old(mode), old(toolEnd), old(pending), flush, false, out, tags, mode, toolEnd, pending)
    {
      var again;
      out, again, tags := DrainRound(flush);
      while again
        invariant Valid() && (!again && flush ==> Initial())
        invariant Drained(old(mode), old(toolEnd), old(pending), flush, again, out, tags, mode, toolEnd, pending)
        decreases again, |pending|
      {
        var part;
        ghost var more;
        ghost var mode1, end1, pending1, out1, tags1 := mode, toolEnd, pending, out, tags;
        part, again, more := DrainRound(flush);
        ghost var all;
        all, tags := NextRound(old(mode), old(toolEnd), old(pending), flush, out1, tags1, mode1, end1, pending1,
                               again, part, more, mode, toolEnd, pending);
        out := Delta(out.reasoning + part.reasoning, out.text + part.text);
      }
    }

    /** One pass through the body of the drain loop. */
    method DrainRound(flush: bool) returns (part: Delta, again: bool, ghost tags: seq<Tag>)
      requires Valid()
      modifies this
      ensures Valid() && (!again && flush ==> Initial())
      ensures Drained(old(mode), old(toolEnd), old(pending), flush, again, part, tags, mode, toolEnd, pending)
    {
      match mode {
        case Text => part, again, tags := TextRound(flush);
        case Reasoning => part, again, tags := ReasoningRound(flush);
        case Tool => part, again, tags := ToolRound(flush);
      }
    }

    method TextRound(flush: bool) returns (part: Delta, again: bool, ghost tags: seq<Tag>)
      requires Valid() && mode == Text
      modifies this
      ensures Valid() && (!again && flush ==> Initial())
      ensures Drained(old(mode), old(toolEnd), old(pending), flush, again, part, tags, mode, toolEnd, pending)
    {
      var hit := EarliestMarker(pending, Starts());
      again := hit.Some?;
      if hit.Some? {
        var marker := MarkerNo(hit.value.marker);
        ghost var said, next, left;
        said, tags, next, left := TakeHit(mode, toolEnd, pending, flush, hit.value.marker, hit.value.pos);
        part := Delta("", pending[..hit.value.pos]);
        pending := pending[hit.value.pos + |marker.start|..];
        if marker.reasoning {
          mode := Reasoning;
        } else {
          mode, toolEnd := Tool, marker.end;
        }
        assert part == said && (mode, toolEnd) == next && pending == left;
      } else {
        var hold := 0;
        if !flush {
          hold := HoldSuffix(pending, Starts());
        }
        ghost var said, left;
        said, tags, left := TakeRest(mode, toolEnd, pending, flush, hold);
        part := Delta("", pending[..|pending| - hold]);
        pending := pending[|pending| - hold..];
        assert part == said && pending == left;
      }
    }

    method ReasoningRound(flush: bool) returns (part: Delta, again: bool, ghost tags: seq<Tag>)
      requires Valid() && mode == Reasoning
      modifies this
      ensures Valid() && (!again && flush ==> Initial())
      ensures Drained(old(mode), old(toolEnd), old(pending), flush, again, part, tags, mode, toolEnd, pending)
    {
      var end := Find(pending, THINK_END, 0);
      again := end.Some?;
      if end.Some? {
        ghost var said, next, left;
        said, tags, next, left := TakeHit(mode, toolEnd, pending, flush, 0, end.value);
        part := Delta(pending[..end.value], "");
        pending := pending[end.value + |THINK_END|..];
        mode := Text;
        assert part == said && (mode, toolEnd) == next && pending == left;
      } else {
        var hold := 0;
        if !flush {
          hold := HoldSuffix(pending, [THINK_END]);
        }
        ghost var said, left;
        said, tags, left := TakeRest(mode, toolEnd, pending, flush, hold);
        part := Delta(pending[..|pending| - hold], "");
        pending := pending[|pending| - hold..];
        if flush {
          mode := Text;
        }
        assert part == said && pending == left;
      }
    }

    method ToolRound(flush: bool) returns (part: Delta, again: bool, ghost tags: seq<Tag>)
      requires Valid() && mode == Tool
      modifies this
      ensures Valid() && (!again && flush ==> Initial())
      ensures Drained(old(mode), old(toolEnd), old(pending), flush, again, part, tags, mode, toolEnd, pending)
    {
      part, again := Delta("", ""), false;
      ghost var said, left;
      if toolEnd == "" {
        said, tags, left := TakeRest(mode, toolEnd, pending, flush, 0);
        pending := "";
        if flush {
          mode := Text;
        }
        assert part == said && pending == left;
        return;
      }
      var end := Find(pending, toolEnd, 0);
      if end.Some? {
        ghost var next;
        said, tags, next, left := TakeHit(mode, toolEnd, pending, flush, 0, end.value);
        pending := pending[end.value + |toolEnd|..];
        toolEnd := "";
        mode, again := Text, true;
        assert part == said && (mode, toolEnd) == next && pending == left;
        return;
      }
      var hold := 0;
      if !flush {
        hold := HoldSuffix(pending, [toolEnd]);
      }
      said, tags, left := TakeRest(mode, toolEnd, pending, flush, hold);
      pending := pending[|pending| - hold..];
      if flush {
        assert pending == left == "";
        pending, toolEnd, mode := "", "", Text;
      }
      assert part == said && pending == left;
    }
  }

  // ---------------------------------------------------------------------------------------
  // Whole streams
  // ---------------------------------------------------------------------------------------

  lemma ContinuesLonger(mode: Mode, end: string, p: string, tags: seq<Tag>, mode2: Mode, end2: string, p2: string, piece: string)
    requires Continues(mode, end, p, tags, mode2, end2, p2)
    ensures Continues(mode, end, p + piece, tags, mode2, end2, p2 + piece)
  {
    forall rest: string ensures ContinuesWith(rest, mode, end, p + piece, tags, mode2, end2, p2 + piece) {
      var longer := piece + rest;
      Associate(p, piece, rest);
      Associate(p2, piece, rest);
      assert ContinuesWith(longer, mode, end, p, tags, mode2, end2, p2);
    }
  }

  /** Feed the pieces in order, then finish. However the stream is cut, the two channels are
      those of the reference reading of the uncut stream. */
  method FilterStream(pieces: seq<string>) returns (reasoning: string, text: string)
    ensures text == Select(Read(Text, "", Concat(pieces)), Answer)
    ensures reasoning == Select(Read(Text, "", Concat(pieces)), Thought)
  {
    var filter := new ResponsesDeltaFilter();
    ghost var tags: seq<Tag> := [];
    reasoning, text := "", "";
    for i := 0 to |pieces|
      invariant filter.Valid()
      invariant reasoning == Select(tags, Thought) && text == Select(tags, Answer)
      invariant Continues(Text, "", Concat(pieces[..i]), tags, filter.mode, filter.toolEnd, filter.pending)
    {
      ghost var mode, end, pending := filter.mode, filter.toolEnd, filter.pending;
      var part;
      ghost var more;
      part, more := filter.Feed(pieces[i]);
      ContinuesLonger(Text, "", Concat(pieces[..i]), tags, mode, end, pending, pieces[i]);
      Compose(Text, "", Concat(pieces[..i]) + pieces[i], tags, mode, end, pending + pieces[i],
              more, filter.mode, filter.toolEnd, filter.pending);
      SelectAppend(tags, more, Thought);
      SelectAppend(tags, more, Answer);
      ConcatLast(pieces, i);
      tags := tags + more;
      reasoning, text := reasoning + part.reasoning, text + part.text;
    }
    assert pieces[..|pieces|] == pieces;
    ghost var mode, end, pending := filter.mode, filter.toolEnd, filter.pending;
    var part;
    ghost var more;
    part, more := filter.Finish();
    ReadToEnd(Text, "", Concat(pieces), tags, mode, end, pending);
    SelectAppend(tags, more, Thought);
    SelectAppend(tags, more, Answer);
    reasoning, text := reasoning + part.reasoning, text + part.text;
  }

  lemma ConcatLast(pieces: seq<string>, i: nat)
    requires i < |pieces|
    ensures Concat(pieces[..i + 1]) == Concat(pieces[..i]) + pieces[i]
  {
    assert pieces[..i + 1] == pieces[..i] + [pieces[i]];
    ConcatAppend(pieces[..i], [pieces[i]]);
    assert Concat([pieces[i]]) == pieces[i];
  }

  /** The answer text of a finished turn. */
  method ResponsesVisibleText(raw: string) returns (text: string)
    ensures text == Select(Read(Text, "", raw), Answer)
  {
    var filter := new ResponsesDeltaFilter();
    ghost var tags;
    var head;
    head, tags := filter.Feed(raw);
    ghost var mode, end, pending := filter.mode, filter.toolEnd, filter.pending;
    var tail;
    ghost var more;
    tail, more := filter.Finish();
    assert "" + raw == raw;
    ReadToEnd(Text, "", raw, tags, mode, end, pending);
    SelectAppend(tags, more, Answer);
    text := head.text + tail.text;
  }
}
