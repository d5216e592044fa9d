/** What the filter shows of a stream, told with the markers themselves
    (`src/server/responses/responses.cpp`). */
module FilterLaw {
  import opened Strings
  import D = DeltaFilter
  import opened TextSearch

  // ---------------------------------------------------------------------------------------
  // Streams in pieces
  // ---------------------------------------------------------------------------------------

  /** The blocks a stream may hold. */
  datatype Block = Think(body: string) | Calls(body: string) | Call(body: string) | BarCalls(body: string) | BarCall(body: string)

  function Opener(b: Block): string {
    match b
    case Think(_) => "<think>"
    case Calls(_) => "<tool_calls>"
    case Call(_) => "<tool_call>"
    case BarCalls(_) => "<\U{EF}\U{BD}\U{9C}tool\U{E2}\U{96}\U{81}calls\U{E2}\U{96}\U{81}begin\U{EF}\U{BD}\U{9C}>"
    case BarCall(_) => "<\U{EF}\U{BD}\U{9C}tool\U{E2}\U{96}\U{81}call\U{E2}\U{96}\U{81}begin\U{EF}\U{BD}\U{9C}>"
  }

  function Closer(b: Block): string {
    match b
    case Think(_) => "</think>"
    case Calls(_) => "</tool_calls>"
    case Call(_) => "</tool_call>"
    case BarCalls(_) => "<\U{EF}\U{BD}\U{9C}tool\U{E2}\U{96}\U{81}calls\U{E2}\U{96}\U{81}end\U{EF}\U{BD}\U{9C}>"
    case BarCall(_) => "<\U{EF}\U{BD}\U{9C}tool\U{E2}\U{96}\U{81}call\U{E2}\U{96}\U{81}end\U{EF}\U{BD}\U{9C}>"
  }

  /** A stretch of text and the closed block behind it. */
  datatype Piece = Piece(plain: string, block: Block)

  /** How a stream ends: with text, in a block that is not closed, or in a list of calls, which never is. */
  datatype Last = Plain(plain: string) | Open(plain: string, block: Block) | CallList(plain: string, rest: string)

  function Written(pieces: seq<Piece>, last: Last): string {
    if pieces == [] then
      match last
      case Plain(plain) => plain
      case Open(plain, b) => plain + (Opener(b) + b.body)
      case CallList(plain, rest) => plain + ("[TOOL_CALLS]" + rest)
    else
      var p := pieces[0];
      p.plain + (Opener(p.block) + (p.block.body + (Closer(p.block) + Written(pieces[1..], last))))
  }

  /** No block opens in the text. */
  predicate NoOpener(plain: string) {
    && Without(plain, "<think>") && Without(plain, "<tool_calls>") && Without(plain, "<tool_call>")
    && Without(plain, Opener(BarCalls(""))) && Without(plain, Opener(BarCall(""))) && Without(plain, "[TOOL_CALLS]")
  }

  predicate FairLast(last: Last) {
    NoOpener(last.plain) && (last.Open? ==> Without(last.block.body, Closer(last.block)))
  }

  /** Text opens no block, and blocks end at their first closing mark. */
  predicate Fair(pieces: seq<Piece>, last: Last) {
    && (forall k :: 0 <= k < |pieces| ==> NoOpener(pieces[k].plain) && Without(pieces[k].block.body, Closer(pieces[k].block)))
    && FairLast(last)
  }

  /** `rest` with the word in front of it, or without. */
  function Led(with_: bool, word: string, rest: string): string {
    if with_ then word + rest else rest
  }

  /** All the text between the blocks. */
  function Texts(pieces: seq<Piece>, last: Last): string {
    if pieces == [] then last.plain else pieces[0].plain + Texts(pieces[1..], last)
  }

  /** All that was thought, in an open block too. */
  function Thoughts(pieces: seq<Piece>, last: Last): string {
    if pieces == [] then if last.Open? && last.block.Think? then last.block.body else ""
    else Led(pieces[0].block.Think?, pieces[0].block.body, Thoughts(pieces[1..], last))
  }

  // ---------------------------------------------------------------------------------------
  // The markers
  // ---------------------------------------------------------------------------------------

  function MarkOf(b: Block): nat {
    match b case Think(_) => 0 case Calls(_) => 1 case Call(_) => 2 case BarCalls(_) => 3 case BarCall(_) => 4
  }

  lemma MarkIs(b: Block)
    ensures D.MarkerNo(MarkOf(b)) == D.Marker(Opener(b), Closer(b), b.Think?)
    ensures b.Think? ==> Closer(b) == D.THINK_END
  {
  }

  lemma CloserOpensOnce(b: Block)
    ensures D.OpensOnce(Closer(b))
  {
    match b
    case Think(_) =>
    case Calls(_) =>
    case Call(_) =>
    case BarCalls(_) => BarCallsCloser();
    case BarCall(_) => BarCallCloser();
  }

  lemma BarCallsCloser()
    ensures D.OpensOnce(Closer(BarCalls("")))
  {
  }

  lemma BarCallCloser()
    ensures D.OpensOnce(Closer(BarCall("")))
  {
  }

  lemma NoOpenerIs(plain: string)
    ensures NoOpener(plain) <==> forall k :: 0 <= k < 6 ==> Without(plain, D.MarkerNo(k).start)
  {
    hide Without;
    MarkIs(Think(""));
    MarkIs(Calls(""));
    MarkIs(Call(""));
    MarkIs(BarCalls(""));
    MarkIs(BarCall(""));
    assert D.MarkerNo(5).start == "[TOOL_CALLS]";
    if NoOpener(plain) {
      forall k | 0 <= k < 6 ensures Without(plain, D.MarkerNo(k).start) {
        if k == 0 {} else if k == 1 {} else if k == 2 {} else if k == 3 {} else if k == 4 {}
      }
    }
  }

  /** A mark that opens once does not straddle into what begins with an opening character. */
  lemma NoStraddle(front: string, rest: string, mark: string, i: nat)
    requires Without(front, mark) && D.OpensOnce(mark) && i < |front|
    requires rest == "" || rest[0] == '<' || rest[0] == '['
    ensures !OccursAt(front + rest, mark, i)
  {
    var s := front + rest;
    if OccursAt(s, mark, i) {
      if i + |mark| <= |front| {
        assert front[i..i + |mark|] == s[i..i + |mark|];
        assert OccursAt(front, mark, i);
      } else {
        OccursChar(s, mark, i, |front| - i);
      }
    }
  }

  /** The marker text begins with is the one the reader finds. */
  lemma StartIs(s: string, k: nat)
    requires k < D.MARKER_COUNT && D.MarkerNo(k).start <= s
    ensures D.StartOf(s, 0) == Some(k)
  {
    var r := D.StartOf(s, 0).value;
    if r < k {
      D.StartsDiffer(r, k);
    } else if k < r {
      D.StartsDiffer(k, r);
    }
  }

  // ---------------------------------------------------------------------------------------
  // What is read of the pieces
  // ---------------------------------------------------------------------------------------

  /** What a reader in this mode shows and thinks of `s`. */
  function Shown(mode: D.Mode, end: string, s: string): (string, string) {
    var tags := D.Read(mode, end, s);
    (D.Select(tags, D.Answer), D.Select(tags, D.Thought))
  }

  lemma ShownAppend(word: string, kind: D.Kind, tags: seq<D.Tag>, rest: seq<D.Tag>)
    requires tags == D.Paint(word, kind) + rest
    ensures D.Select(tags, D.Answer) == Led(kind == D.Answer, word, D.Select(rest, D.Answer))
    ensures D.Select(tags, D.Thought) == Led(kind == D.Thought, word, D.Select(rest, D.Thought))
  {
    assert "" + D.Select(rest, D.Answer) == D.Select(rest, D.Answer);
    assert "" + D.Select(rest, D.Thought) == D.Select(rest, D.Thought);
    D.SelectAppend(D.Paint(word, kind), rest, D.Answer);
    D.SelectAppend(D.Paint(word, kind), rest, D.Thought);
    D.SelectPaint(word, kind, D.Answer);
    D.SelectPaint(word, kind, D.Thought);
  }

  /** Bytes in front of any word the mode awaits. */
  lemma FrontShown(mode: D.Mode, end: string, front: string, rest: string)
    requires mode != D.Tool ==> end == ""
    requires forall i, k :: 0 <= i < |front| && 0 <= k < |D.Awaited(mode, end)| ==>
      !OccursAt(front + rest, D.Awaited(mode, end)[k], i)
    ensures var kind, r := D.Plain(mode), Shown(mode, end, rest);
      Shown(mode, end, front + rest) == (Led(kind == D.Answer, front, r.0), Led(kind == D.Thought, front, r.1))
  {
    var s := front + rest;
    D.ReadPlain(mode, end, s, |front|);
    assert s[..|front|] == front && s[|front|..] == rest;
    ShownAppend(front, D.Plain(mode), D.Read(mode, end, s), D.Read(mode, end, rest));
  }

  lemma TextShown(plain: string, rest: string)
    requires NoOpener(plain) && (rest == "" || rest[0] == '<' || rest[0] == '[')
    ensures var r := Shown(D.Text, "", rest); Shown(D.Text, "", plain + rest) == (plain + r.0, r.1)
  {
    NoOpenerIs(plain);
    forall i, k | 0 <= i < |plain| && 0 <= k < 6 ensures !OccursAt(plain + rest, D.MarkerNo(k).start, i) {
      D.StartsOpenOnce(k);
      NoStraddle(plain, rest, D.MarkerNo(k).start, i);
    }
    FrontShown(D.Text, "", plain, rest);
  }

  /** Where the reader is inside a block. */
  function Inside(b: Block): (D.Mode, string) {
    if b.Think? then (D.Reasoning, "") else (D.Tool, Closer(b))
  }

  lemma OpenerShown(b: Block, rest: string)
    ensures Shown(D.Text, "", Opener(b) + rest) == Shown(Inside(b).0, Inside(b).1, rest)
  {
    var s, k := Opener(b) + rest, MarkOf(b);
    MarkIs(b);
    StartIs(s, k);
    assert s != "" && s[|Opener(b)|..] == rest;
    assert D.Read(D.Text, "", s) == D.Paint(Opener(b), D.Markup) + D.Read(Inside(b).0, Inside(b).1, rest);
    ShownAppend(Opener(b), D.Markup, D.Read(D.Text, "", s), D.Read(Inside(b).0, Inside(b).1, rest));
  }

  lemma CloserShown(b: Block, rest: string)
    ensures Shown(Inside(b).0, Inside(b).1, Closer(b) + rest) == Shown(D.Text, "", rest)
  {
    var s := Closer(b) + rest;
    MarkIs(b);
    CloserOpensOnce(b);
    assert s != "" && s[|Closer(b)|..] == rest;
    assert D.Read(Inside(b).0, Inside(b).1, s) == D.Paint(Closer(b), D.Markup) + D.Read(D.Text, "", rest);
    ShownAppend(Closer(b), D.Markup, D.Read(Inside(b).0, Inside(b).1, s), D.Read(D.Text, "", rest));
  }

  lemma BodyShown(b: Block, rest: string)
    requires Without(b.body, Closer(b)) && (rest == "" || rest[0] == '<')
    ensures var r := Shown(Inside(b).0, Inside(b).1, rest);
      Shown(Inside(b).0, Inside(b).1, b.body + rest) == (r.0, Led(b.Think?, b.body, r.1))
  {
    MarkIs(b);
    CloserOpensOnce(b);
    forall i, k | 0 <= i < |b.body| && 0 <= k < |D.Awaited(Inside(b).0, Inside(b).1)|
      ensures !OccursAt(b.body + rest, D.Awaited(Inside(b).0, Inside(b).1)[k], i)
    {
      NoStraddle(b.body, rest, Closer(b), i);
    }
    FrontShown(Inside(b).0, Inside(b).1, b.body, rest);
  }

  /** A closed block is hidden, or thought. */
  lemma BlockShown(b: Block, rest: string)
    requires Without(b.body, Closer(b))
    ensures var r := Shown(D.Text, "", rest);
      Shown(D.Text, "", Opener(b) + (b.body + (Closer(b) + rest))) == (r.0, Led(b.Think?, b.body, r.1))
  {
    CloserOpensOnce(b);
    CloserStarts(b);
    OpenerShown(b, b.body + (Closer(b) + rest));
    BodyShown(b, Closer(b) + rest);
    CloserShown(b, rest);
  }

  lemma CloserStarts(b: Block)
    ensures Closer(b) != "" && Closer(b)[0] == '<' && Opener(b) != "" && Opener(b)[0] == '<'
  {
  }

  lemma CallListShown(rest: string)
    ensures Shown(D.Text, "", "[TOOL_CALLS]" + rest) == ("", "")
  {
    var s := "[TOOL_CALLS]" + rest;
    assert D.MarkerNo(5) == D.Marker("[TOOL_CALLS]", "", false);
    StartIs(s, 5);
    assert s[12..] == rest && |"[TOOL_CALLS]"| == 12;
    D.ReadPlain(D.Tool, "", rest, |rest|);
    assert rest[..|rest|] == rest && rest[|rest|..] == "";
    ShownAppend(rest, D.Markup, D.Read(D.Tool, "", rest), D.Read(D.Tool, "", ""));
    ShownAppend("[TOOL_CALLS]", D.Markup, D.Read(D.Text, "", s), D.Read(D.Tool, "", rest));
  }

  lemma LastShown(last: Last)
    requires FairLast(last)
    ensures Shown(D.Text, "", Written([], last)) == (Texts([], last), Thoughts([], last))
  {
    match last
    case Plain(plain) =>
      assert plain + "" == plain;
      TextShown(plain, "");
    case Open(plain, b) =>
      CloserStarts(b);
      TextShown(plain, Opener(b) + b.body);
      OpenerShown(b, b.body);
      assert b.body + "" == b.body;
      BodyShown(b, "");
      assert plain + "" == plain;
    case CallList(plain, rest) =>
      TextShown(plain, "[TOOL_CALLS]" + rest);
      CallListShown(rest);
      assert plain + "" == plain;
  }

  /** The answer is the text between the blocks, and the reasoning is what the think blocks hold. */
  lemma {:induction false} PiecesShown(pieces: seq<Piece>, last: Last)
    requires Fair(pieces, last)
    ensures Shown(D.Text, "", Written(pieces, last)) == (Texts(pieces, last), Thoughts(pieces, last))
    decreases |pieces|
  {
    if pieces == [] {
      LastShown(last);
    } else {
      var p, more := pieces[0], Written(pieces[1..], last);
      assert Fair(pieces[1..], last);
      PiecesShown(pieces[1..], last);
      CloserStarts(p.block);
      TextShown(p.plain, Opener(p.block) + (p.block.body + (Closer(p.block) + more)));
      BlockShown(p.block, more);
    }
  }

  // ---------------------------------------------------------------------------------------
  // Every stream is such
  // ---------------------------------------------------------------------------------------

  /** Index of the first byte at which a marker begins, or the length. */
  function FirstMark(s: string, from: nat): (n: nat)
    requires from <= |s|
    ensures from <= n <= |s|
    ensures forall i, k :: from <= i < n && 0 <= k < 6 ==> !(D.MarkerNo(k).start <= s[i..])
    ensures n < |s| ==> D.StartOf(s[n..], 0).Some?
    decreases |s| - from
  {
    if from == |s| || D.StartOf(s[from..], 0).Some? then from else FirstMark(s, from + 1)
  }

  lemma PlainFront(s: string, n: nat)
    requires n == FirstMark(s, 0)
    ensures NoOpener(s[..n])
  {
    forall k | 0 <= k < 6 ensures Without(s[..n], D.MarkerNo(k).start) {
      var mark := D.MarkerNo(k).start;
      assert s[0..n] == s[..n];
      forall i | 0 <= i < n ensures !OccursAt(s[..n], mark, i) {
        OccursAhead(s, mark, i);
        if OccursAt(s[0..n], mark, i) {
          OccursIn(s, 0, n, mark, i);
        }
      }
    }
    NoOpenerIs(s[..n]);
  }

  lemma OccursAhead(s: string, mark: string, i: nat)
    requires i <= |s|
    ensures OccursAt(s, mark, i) <==> mark <= s[i..]
  {
    assert i + |mark| <= |s| ==> s[i..][..|mark|] == s[i..i + |mark|];
  }

  /** The block that marker number `k` opens. */
  function BlockNo(k: nat, body: string): Block
    requires k < 5
  {
    if k == 0 then Think(body) else if k == 1 then Calls(body) else if k == 2 then Call(body)
    else if k == 3 then BarCalls(body) else BarCall(body)
  }

  lemma Front(s: string, word: string)
    requires word <= s
    ensures s == word + s[|word|..]
  {
  }

  /** The rest of a block up to its first closing mark. */
  lemma FirstClose(rest: string, close: string, at: nat)
    requires Find(rest, close, 0) == Some(at)
    ensures at + |close| <= |rest| && Without(rest[..at], close) && rest == rest[..at] + (close + rest[at + |close|..])
  {
    assert rest[0..at] == rest[..at] && rest[at..at + |close|] == close;
    forall i | 0 <= i < at ensures !OccursAt(rest[..at], close, i) {
      if OccursAt(rest[0..at], close, i) {
        OccursIn(rest, 0, at, close, i);
      }
    }
    Between(rest, at, at + |close|);
  }

  lemma Between(s: string, i: nat, j: nat)
    requires i <= j <= |s|
    ensures s == s[..i] + (s[i..j] + s[j..])
  {
  }

  lemma OnePiece(piece: Piece, more: seq<Piece>, last: Last)
    requires NoOpener(piece.plain) && Without(piece.block.body, Closer(piece.block)) && Fair(more, last)
    ensures Fair([piece] + more, last)
    ensures Written([piece] + more, last)
         == piece.plain + (Opener(piece.block) + (piece.block.body + (Closer(piece.block) + Written(more, last))))
  {
    hide NoOpener, Without, Opener, Closer;
    var all := [piece] + more;
    assert all[0] == piece && all[1..] == more && forall k :: 0 < k < |all| ==> all[k] == more[k - 1];
  }

  lemma BlockNoIs(k: nat, body: string)
    requires k < 5
    ensures var b := BlockNo(k, body);
      b.body == body && D.MarkerNo(k).start == Opener(b) && Opener(b) != "" && Closer(b) != "" && Closer(b) == Closer(BlockNo(k, ""))
  {
    MarkIs(BlockNo(k, body));
    CloserStarts(BlockNo(k, body));
  }

  /** Any stream is made of such pieces. */
  lemma {:induction false} EveryStream(s: string) returns (pieces: seq<Piece>, last: Last)
    ensures Fair(pieces, last) && Written(pieces, last) == s
    decreases |s|
  {
    hide NoOpener, Without, D.StartOf, FirstMark, D.MarkerNo, BlockNo, Opener, Closer, Fair, Written, Find;
    var n := FirstMark(s, 0);
    var plain, behind := s[..n], s[n..];
    PlainFront(s, n);
    assert s == plain + behind;
    if n == |s| {
      assert plain == s;
      pieces, last := [], Plain(s);
      LastWritten(last);
      return;
    }
    var k := D.StartOf(behind, 0).value;
    Front(behind, D.MarkerNo(k).start);
    if k == 5 {
      pieces, last := [], CallList(plain, behind[|D.MarkerNo(5).start|..]);
      LastWritten(last);
      return;
    }
    BlockNoIs(k, "");
    var close := Closer(BlockNo(k, ""));
    var rest := behind[|D.MarkerNo(k).start|..];
    match Find(rest, close, 0)
    case None =>
      pieces, last := [], Open(plain, BlockNo(k, rest));
      BlockNoIs(k, rest);
      NoClose(rest, close);
      LastWritten(last);
    case Some(at) =>
      BlockNoIs(k, rest[..at]);
      FirstClose(rest, close, at);
      var more;
      more, last := EveryStream(rest[at + |close|..]);
      var piece := Piece(plain, BlockNo(k, rest[..at]));
      OnePiece(piece, more, last);
      pieces := [piece] + more;
  }

  lemma LastWritten(last: Last)
    requires FairLast(last)
    ensures Fair([], last)
    ensures Written([], last) == match last
      case Plain(plain) => plain
      case Open(plain, b) => plain + (Opener(b) + b.body)
      case CallList(plain, rest) => plain + (D.MarkerNo(5).start + rest)
  {
  }

  lemma NoClose(rest: string, close: string)
    requires Find(rest, close, 0).None?
    ensures Without(rest, close)
  {
  }

  /** So for every stream: the answer the filter gives is the text outside of blocks, and the reasoning
      is what think blocks hold, each block reaching from its mark to the first closing mark. */
  lemma StreamShown(s: string) returns (pieces: seq<Piece>, last: Last)
    ensures Fair(pieces, last) && Written(pieces, last) == s
    ensures D.Select(D.Read(D.Text, "", s), D.Answer) == Texts(pieces, last)
    ensures D.Select(D.Read(D.Text, "", s), D.Thought) == Thoughts(pieces, last)
  {
    pieces, last := EveryStream(s);
    PiecesShown(pieces, last);
  }

  /** The beginning of a word, not all of it. */
  predicate Beginning(held: string, word: string) {
    |held| < |word| && held <= word
  }

  /** Between two pieces of a stream nothing is kept back but what may become a marker: in text the
      beginning of an opening one, in a block the beginning of the one that closes it. */
  lemma HeldIsShort(b: Block, held: string)
    ensures D.HeldBack(D.Text, "", held) ==>
      held == "" || Beginning(held, "<think>") || Beginning(held, "<tool_calls>") || Beginning(held, "<tool_call>")
      || Beginning(held, Opener(BarCalls(""))) || Beginning(held, Opener(BarCall(""))) || Beginning(held, "[TOOL_CALLS]")
    ensures D.HeldBack(D.Reasoning, "", held) ==> held == "" || Beginning(held, "</think>")
    ensures D.HeldBack(D.Tool, Closer(b), held) ==> held == "" || Beginning(held, Closer(b))
    ensures D.HeldBack(D.Tool, "", held) ==> held == ""
  {
    hide Opener, Closer;
    HeldFront(D.Text, "", held);
    HeldFront(D.Reasoning, "", held);
    HeldFront(D.Tool, Closer(b), held);
    HeldFront(D.Tool, "", held);
    StartsAre();
  }

  lemma HeldFront(mode: D.Mode, end: string, held: string)
    ensures var words := D.Awaited(mode, end);
      D.HeldBack(mode, end, held) ==> held == "" || exists k :: 0 <= k < |words| && Beginning(held, words[k])
  {
    hide D.Awaited;
    var words := D.Awaited(mode, end);
    if D.HeldBack(mode, end, held) && held != "" {
      assert held[|held| - |held|..] == held;
      var k :| 0 <= k < |words| && |held| < |words[k]| && held[|held| - |held|..] == words[k][..|held|];
      assert Beginning(held, words[k]);
    }
  }

  lemma StartsAre()
    ensures D.Awaited(D.Text, "")
         == ["<think>", "<tool_calls>", "<tool_call>", Opener(BarCalls("")), Opener(BarCall("")), "[TOOL_CALLS]"]
  {
    MarkIs(Think(""));
    MarkIs(Calls(""));
    MarkIs(Call(""));
    MarkIs(BarCalls(""));
    MarkIs(BarCall(""));
  }
}
