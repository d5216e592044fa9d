/** Reading `[TOOL_CALLS]name[ARGS]{...}` calls out of a reply (`src/common/devstral_call.hpp`,
    `append_devstral_calls` in `src/server/agent/model_adapter.cpp`). What the JSON library makes
    of a payload is not part of this model: a call is its name and the text of its payload. */
module DevstralCalls {
  import opened Strings
  import opened JsonText
  import opened JsonScan
  import opened TextSearch
  import opened Trimming

  /** The markers in front of a call, of its payload and of its id. */
  datatype Marks = Marks(call: string, args: string, id: string)

  const DEVSTRAL := Marks("[TOOL_CALLS]", "[ARGS]", "[CALL_ID]")

  /** Where the payload is looked for from `cursor` on: right there, or behind the next marker. */
  function PayloadFrom(m: Marks, text: string, cursor: nat): (r: Option<nat>)
    ensures r.Some? ==> cursor <= r.value
  {
    if cursor >= |text| then None
    else if text[cursor] == '{' || text[cursor] == '[' then Some(cursor)
    else match Find(text, m.args, cursor)
      case None => None
      case Some(args) => Some(args + |m.args|)
  }

  /** Blanks behind the marker of the call are skipped. */
  function PayloadAt(m: Marks, text: string, from: nat): (r: Option<nat>)
    ensures r.Some? ==> from <= r.value
  {
    PayloadFrom(m, text, SkipSpaces(text, from))
  }

  /** Where the call whose marker is at `from` ends. */
  function CallEnd(m: Marks, text: string, from: nat): (r: Option<nat>)
    ensures r.Some? ==> from + |m.call| < r.value <= |text|
  {
    if !OccursAt(text, m.call, from) then None
    else match PayloadAt(m, text, from + |m.call|)
      case None => None
      case Some(payload) => ValueEnd(text, payload)
  }

  /** A call with a name, or a payload that names its calls itself. */
  datatype Found = Named(name: string, payload: string) | Bare(payload: string)

  /** The name in front of the payload; an id behind its own marker is not part of it. */
  function NameOf(m: Marks, head: string): string {
    match Find(Trim(head), m.id, 0)
    case None => Trim(head)
    case Some(at) => Trim(Trim(head)[..at])
  }

  /** What is between the marker and the end of one call. */
  function CallIn(m: Marks, call: string): seq<Found> {
    var cursor := SkipSpaces(call, 0);
    if cursor < |call| && (call[cursor] == '{' || call[cursor] == '[') then [Bare(call[cursor..])]
    else match Find(call, m.args, 0)
      case None => []
      case Some(args) =>
        if NameOf(m, call[..args]) == "" then [] else [Named(NameOf(m, call[..args]), call[args + |m.args|..])]
  }

  /** The texts of all calls from `pos` on, without their markers. */
  function Raws(m: Marks, text: string, pos: nat): seq<string>
    decreases |text| - pos
  {
    if pos >= |text| then []
    else match Find(text, m.call, pos)
      case None => []
      case Some(start) =>
        match CallEnd(m, text, start)
        case None => []
        case Some(end) => [text[start + |m.call|..end]] + Raws(m, text, end)
  }

  function ReadAll(m: Marks, raws: seq<string>): seq<Found> {
    if raws == [] then [] else CallIn(m, raws[0]) + ReadAll(m, raws[1..])
  }

  /** All calls of a reply. */
  function Calls(m: Marks, text: string): seq<Found> {
    ReadAll(m, Raws(m, text, 0))
  }

  method DevstralCallEnd(text: string, from: nat) returns (r: Option<nat>)
    ensures r == CallEnd(DEVSTRAL, text, from)
  {
    if !OccursAt(text, DEVSTRAL.call, from) {
      return None;
    }
    var cursor := from + |DEVSTRAL.call|;
    while cursor < |text| && IsSpace(text[cursor])
      invariant cursor <= |text| && SkipSpaces(text, cursor) == SkipSpaces(text, from + |DEVSTRAL.call|)
    {
      cursor := cursor + 1;
    }
    if cursor >= |text| {
      return None;
    }
    if text[cursor] == '{' || text[cursor] == '[' {
      r := JsonValueEnd(text, cursor);
      return;
    }
    var args := Find(text, DEVSTRAL.args, cursor);
    if args.None? {
      return None;
    }
    r := JsonValueEnd(text, args.value + |DEVSTRAL.args|);
  }

  method AppendDevstralCalls(text: string) returns (out: seq<Found>)
    ensures out == Calls(DEVSTRAL, text)
  {
    out := [];
    var pos := 0;
    while pos < |text|
      invariant out + ReadAll(DEVSTRAL, Raws(DEVSTRAL, text, pos)) == Calls(DEVSTRAL, text)
      decreases |text| - pos
    {
      var start := Find(text, DEVSTRAL.call, pos);
      if start.None? {
        break;
      }
      var end := DevstralCallEnd(text, start.value);
      if end.None? {
        break;
      }
      var call := text[start.value + |DEVSTRAL.call|..end.value];
      ghost var more := Raws(DEVSTRAL, text, end.value);
      assert Raws(DEVSTRAL, text, pos) == [call] + more;
      pos := end.value;
      var found := ReadCall(call);
      ReadCons(DEVSTRAL, call, more);
      assert out + (found + ReadAll(DEVSTRAL, more)) == out + found + ReadAll(DEVSTRAL, more);
      out := out + found;
    }
  }

  lemma ReadCons(m: Marks, call: string, more: seq<string>)
    ensures ReadAll(m, [call] + more) == CallIn(m, call) + ReadAll(m, more)
  {
    assert ([call] + more)[1..] == more;
  }

  method ReadCall(call: string) returns (found: seq<Found>)
    ensures found == CallIn(DEVSTRAL, call)
  {
    var cursor := 0;
    while cursor < |call| && IsSpace(call[cursor])
      invariant cursor <= |call| && SkipSpaces(call, cursor) == SkipSpaces(call, 0)
    {
      cursor := cursor + 1;
    }
    if cursor < |call| && (call[cursor] == '{' || call[cursor] == '[') {
      return [Bare(call[cursor..])];
    }
    var args := Find(call, DEVSTRAL.args, 0);
    if args.None? {
      return [];
    }
    var head := Trim(call[..args.value]);
    var idAt := Find(head, DEVSTRAL.id, 0);
    if idAt.Some? {
      head := Trim(head[..idAt.value]);
    }
    if head == "" {
      return [];
    }
    found := [Named(head, call[args.value + |DEVSTRAL.args|..])];
  }

  // ---------------------------------------------------------------------------------------
  // Marks
  // ---------------------------------------------------------------------------------------

  /** What the proofs below use of the three markers. */
  predicate GoodMarks(m: Marks) {
    && Rigid(m.call) && Rigid(m.args) && Rigid(m.id)
    && m.args[0] == '[' && m.id[0] == '[' && |m.args| >= 2 && |m.id| >= 2 && m.args[1] != m.id[1]
    && !IsBlank(m.id[|m.id| - 1])
  }

  lemma DevstralMarksGood()
    ensures GoodMarks(DEVSTRAL)
  {
  }

  // ---------------------------------------------------------------------------------------
  // Round trip
  // ---------------------------------------------------------------------------------------

  /** A call as the model writes it. */
  datatype Call = Call(name: string, id: Option<string>, blanks: string, arguments: Json)

  predicate NoBracket(s: string) {
    forall k :: 0 <= k < |s| ==> s[k] != '['
  }

  /** A name that starts and ends with no blank and cannot be taken for a marker or a payload. */
  predicate PlainName(name: string) {
    && name != "" && NoBracket(name)
    && name[0] != '{' && !IsSpace(name[0]) && !IsBlank(name[|name| - 1])
  }

  ghost predicate Plain(c: Call) {
    && PlainName(c.name) && (c.id.Some? ==> NoBracket(c.id.value))
    && Blank(c.blanks) && c.arguments.Obj? && WellFormed(c.arguments)
  }

  function Head(m: Marks, c: Call): string {
    if c.id.None? then c.name else c.name + (m.id + c.id.value)
  }

  function Payload(c: Call): string {
    c.blanks + Text(c.arguments)
  }

  function Written(m: Marks, c: Call): string {
    Head(m, c) + (m.args + Payload(c))
  }

  /** A call and the text behind it, up to the next call. */
  datatype Said = Said(call: Call, gap: string)

  function SaidText(m: Marks, said: seq<Said>): string {
    if said == [] then "" else m.call + (Written(m, said[0].call) + (said[0].gap + SaidText(m, said[1..])))
  }

  ghost predicate AllPlain(m: Marks, said: seq<Said>) {
    forall k :: 0 <= k < |said| ==> Plain(said[k].call) && Without(said[k].gap, m.call)
  }

  function Expected(said: seq<Said>): (r: seq<Found>)
    ensures |r| == |said|
  {
    seq(|said|, k requires 0 <= k < |said| => Named(said[k].call.name, Payload(said[k].call)))
  }

  lemma BracketInHead(m: Marks, c: Call, i: nat)
    requires GoodMarks(m) && Plain(c) && i < |Head(m, c)|
    ensures Head(m, c)[i] == '[' ==> i + 1 < |Head(m, c)| && Head(m, c)[i + 1] == m.id[1]
  {
    if c.id.Some? && i >= |c.name| {
      var n := i - |c.name|;
      assert Head(m, c)[i] == (m.id + c.id.value)[n];
      assert n == 0 ==> Head(m, c)[i + 1] == m.id[1];
      assert n < |m.id| ==> Head(m, c)[i] == m.id[n];
    }
  }

  lemma HeadWithoutArgs(m: Marks, c: Call)
    requires GoodMarks(m) && Plain(c)
    ensures Without(Head(m, c), m.args)
  {
    var head := Head(m, c);
    forall i | 0 <= i < |head| ensures !OccursAt(head, m.args, i) {
      if OccursAt(head, m.args, i) {
        OccursChar(head, m.args, i, 0);
        OccursChar(head, m.args, i, 1);
        BracketInHead(m, c, i);
      }
    }
  }

  lemma NoBracketWithout(s: string, mark: string)
    requires NoBracket(s) && mark != "" && mark[0] == '['
    ensures Without(s, mark)
  {
    forall i | 0 <= i < |s| ensures !OccursAt(s, mark, i) {
      if OccursAt(s, mark, i) {
        OccursChar(s, mark, i, 0);
      }
    }
  }

  lemma NameReads(m: Marks, c: Call)
    requires GoodMarks(m) && Plain(c)
    ensures NameOf(m, Head(m, c)) == c.name
  {
    var name := c.name;
    NoBracketWithout(name, m.id);
    assert Trim(name) == name by {
      var kept := TrimKeeps(name, "");
      assert name + "" == name;
    }
    match c.id
    case None =>
      assert Find(name, m.id, 0) == None;
    case Some(id) =>
      var front := name + m.id;
      assert Head(m, c) == front + id;
      var kept := TrimKeeps(front, id);
      assert front + kept == name + (m.id + kept);
      MarkFound(name, m.id, kept);
  }

  /** One written call is read back. */
  lemma CallReads(m: Marks, c: Call)
    requires GoodMarks(m) && Plain(c)
    ensures CallIn(m, Written(m, c)) == [Named(c.name, Payload(c))]
  {
    hide NameOf;
    var call, head := Written(m, c), Head(m, c);
    assert call[0] == c.name[0];
    assert SkipSpaces(call, 0) == 0;
    assert Find(call, m.args, 0) == Some(|head|) by {
      HeadWithoutArgs(m, c);
      MarkFound(head, m.args, Payload(c));
    }
    assert call[..|head|] == head && call[|head| + |m.args|..] == Payload(c);
    NameReads(m, c);
  }

  /** Where the payload ahead ends. */
  lemma PayloadEnds(text: string, pos: nat, c: Call, after: string)
    requires Plain(c) && Ahead(text, pos, Payload(c) + after)
    ensures ValueEnd(text, pos) == Some(pos + |Payload(c)|)
  {
    var blanks, value, i := c.blanks, Text(c.arguments), pos + |c.blanks|;
    assert i + |value| <= |text| && text[pos..i] == blanks && text[i..i + |value|] == value by {
      Associate(blanks, value, after);
      AheadSplit(text, pos, blanks, value + after);
      AheadSplit(text, i, value, after);
    }
    forall k | pos <= k < i ensures IsSpace(text[k]) {
      assert text[k] == text[pos..i][k - pos];
    }
    ValueEndAt(text, pos, i, c.arguments);
  }

  lemma NothingToSkip(text: string, from: nat)
    requires from < |text| && !IsSpace(text[from])
    ensures SkipSpaces(text, from) == from
  {
  }

  lemma PayloadFromIs(m: Marks, text: string, cursor: nat, args: nat, payload: nat)
    requires cursor < |text| && text[cursor] != '{' && text[cursor] != '['
    requires Find(text, m.args, cursor) == Some(args) && payload == args + |m.args|
    ensures PayloadFrom(m, text, cursor) == Some(payload)
  {
  }

  /** Behind a head that holds no marker the payload is looked for in the right place. */
  lemma PayloadFound(m: Marks, text: string, from: nat, head: string, more: string)
    requires Rigid(m.args) && Without(head, m.args) && Ahead(text, from, head + (m.args + more))
    requires head != "" && !IsSpace(head[0]) && head[0] != '{' && head[0] != '['
    ensures var payload := from + |head| + |m.args|; PayloadAt(m, text, from) == Some(payload) && Ahead(text, payload, more)
  {
    assert Find(text, m.args, from) == Some(from + |head|) && Ahead(text, from + |head| + |m.args|, more) by {
      MarkAhead(text, from, head, m.args, more);
    }
    assert from < |text| && text[from] == head[0] by {
      FirstAhead(text, from, head + (m.args + more));
    }
    var payload := from + |head| + |m.args|;
    assert PayloadFrom(m, text, from) == Some(payload) by {
      PayloadFromIs(m, text, from, from + |head|, payload);
    }
    NothingToSkip(text, from);
  }

  lemma CallEndIs(m: Marks, text: string, start: nat, payload: nat, end: nat)
    requires OccursAt(text, m.call, start) && PayloadAt(m, text, start + |m.call|) == Some(payload)
    requires ValueEnd(text, payload) == Some(end)
    ensures CallEnd(m, text, start) == Some(end)
  {
    hide PayloadAt, ValueEnd;
  }

  /** A written call ends right behind its payload. */
  lemma WrittenEnds(m: Marks, text: string, start: nat, c: Call, written: string, after: string, end: nat)
    requires GoodMarks(m) && Plain(c) && OccursAt(text, m.call, start) && written == Written(m, c)
    requires Ahead(text, start + |m.call|, written + after) && end == start + |m.call| + |written|
    ensures CallEnd(m, text, start) == Some(end)
  {
    hide PayloadAt, ValueEnd;
    var head, more, from := Head(m, c), Payload(c) + after, start + |m.call|;
    var payload := from + |head| + |m.args|;
    assert PayloadAt(m, text, from) == Some(payload) && Ahead(text, payload, more) by {
      assert written + after == head + (m.args + more);
      HeadWithoutArgs(m, c);
      PayloadFound(m, text, from, head, more);
    }
    assert end == payload + |Payload(c)|;
    assert ValueEnd(text, payload) == Some(end) by {
      PayloadEnds(text, payload, c, after);
    }
    CallEndIs(m, text, start, payload, end);
  }

  /** The first call from `pos` on is `written`, and the others are those from `done` on. */
  predicate FirstIs(m: Marks, text: string, pos: nat, written: string, done: nat) {
    Raws(m, text, pos) == [written] + Raws(m, text, done)
  }

  lemma RawsIs(m: Marks, text: string, pos: nat, start: nat, end: nat, written: string)
    requires pos < |text| && Find(text, m.call, pos) == Some(start) && CallEnd(m, text, start) == Some(end)
    requires text[start + |m.call|..end] == written
    ensures FirstIs(m, text, pos, written, end)
  {
    hide CallEnd;
  }

  /** The first written call is read, and what is behind it is ahead. */
  lemma FirstCall(m: Marks, text: string, pos: nat, gap: string, c: Call, written: string, after: string, done: nat)
    requires GoodMarks(m) && Plain(c) && Without(gap, m.call) && written == Written(m, c)
    requires Ahead(text, pos, gap + (m.call + (written + after)))
    requires done == pos + |gap| + |m.call| + |written|
    ensures FirstIs(m, text, pos, written, done) && Ahead(text, done, after)
  {
    hide CallEnd, Raws;
    var start, cursor := pos + |gap|, pos + |gap| + |m.call|;
    assert Find(text, m.call, pos) == Some(start) && OccursAt(text, m.call, start) && Ahead(text, cursor, written + after) by {
      MarkAhead(text, pos, gap, m.call, written + after);
    }
    assert CallEnd(m, text, start) == Some(done) by {
      WrittenEnds(m, text, start, c, written, after, done);
    }
    assert text[cursor..done] == written && Ahead(text, done, after) by {
      AheadSplit(text, cursor, written, after);
    }
    assert FirstIs(m, text, pos, written, done) by {
      RawsIs(m, text, pos, start, done, written);
    }
  }

  function AllWritten(m: Marks, said: seq<Said>): seq<string> {
    if said == [] then [] else [Written(m, said[0].call)] + AllWritten(m, said[1..])
  }

  lemma {:induction false} RawsRead(m: Marks, text: string, pos: nat, gap: string, said: seq<Said>)
    requires GoodMarks(m) && Without(gap, m.call) && AllPlain(m, said) && Ahead(text, pos, gap + SaidText(m, said))
    ensures Raws(m, text, pos) == AllWritten(m, said)
    decreases |said|
  {
    if said == [] {
      assert gap + "" == gap && Find(gap, m.call, 0) == None;
      FindAhead(text, pos, gap, m.call, 0);
    } else {
      var c, next, rest := said[0].call, said[0].gap, said[1..];
      var written, after := Written(m, c), next + SaidText(m, rest);
      var done := pos + |gap| + |m.call| + |written|;
      assert Plain(c) && Without(next, m.call);
      assert FirstIs(m, text, pos, written, done) && Ahead(text, done, after) by {
        FirstCall(m, text, pos, gap, c, written, after, done);
      }
      assert Raws(m, text, done) == AllWritten(m, rest) by {
        assert AllPlain(m, rest);
        RawsRead(m, text, done, next, rest);
      }
    }
  }

  lemma ExpectedCons(said: seq<Said>)
    requires said != []
    ensures Expected(said) == [Named(said[0].call.name, Payload(said[0].call))] + Expected(said[1..])
  {
  }

  lemma {:induction false} WrittenRead(m: Marks, said: seq<Said>)
    requires GoodMarks(m) && AllPlain(m, said)
    ensures ReadAll(m, AllWritten(m, said)) == Expected(said)
    decreases |said|
  {
    if said != [] {
      var c, rest := said[0].call, said[1..];
      var written, more, found := Written(m, c), AllWritten(m, rest), Named(c.name, Payload(c));
      assert CallIn(m, written) == [found] by {
        assert Plain(c);
        CallReads(m, c);
      }
      assert ReadAll(m, more) == Expected(rest) by {
        assert AllPlain(m, rest);
        WrittenRead(m, rest);
      }
      assert ReadAll(m, [written] + more) == [found] + Expected(rest) by {
        ReadCons(m, written, more);
      }
      ExpectedCons(said);
    }
  }

  /** Calls with plain names, among text without the marker, are all read back in order, even
      when their arguments hold the markers themselves. */
  lemma ReplyReads(gap: string, said: seq<Said>)
    requires Without(gap, DEVSTRAL.call) && AllPlain(DEVSTRAL, said)
    ensures Calls(DEVSTRAL, gap + SaidText(DEVSTRAL, said)) == Expected(said)
  {
    var m := DEVSTRAL;
    DevstralMarksGood();
    RawsRead(m, gap + SaidText(m, said), 0, gap, said);
    WrittenRead(m, said);
  }
}
