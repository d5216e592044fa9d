/** The two layouts of tool calls, written out (`src/server/agent/model_adapter.cpp`,
    `src/common/devstral_call.hpp`). */
module CallLaws {
  import opened Strings
  import opened TextSearch
  import opened Trimming
  import opened JsonText
  import JsonScan
  import Qwen = QwenCalls
  import Devstral = DevstralCalls

  // ---------------------------------------------------------------------------------------
  // Functions with parameters
  // ---------------------------------------------------------------------------------------

  function ParameterText(pairs: seq<Qwen.Pair>): string {
    if pairs == [] then "\n"
    else "\n" + ("<parameter=" + (pairs[0].key + (">" + (("\n" + (pairs[0].value + "\n")) + ("</parameter>" + ParameterText(pairs[1..]))))))
  }

  lemma {:induction false} ParameterTextIs(pairs: seq<Qwen.Pair>)
    ensures Qwen.BodyText(Qwen.QWEN, pairs) == ParameterText(pairs)
    decreases |pairs|
  {
    if pairs != [] {
      ParameterTextIs(pairs[1..]);
    }
  }

  /** The map the pairs make: each key with the value it was given last. */
  ghost predicate Makes(args: map<string, string>, pairs: seq<Qwen.Pair>) {
    && (forall key :: key in args <==> exists k :: 0 <= k < |pairs| && pairs[k].key == key)
    && forall k :: 0 <= k < |pairs| && (forall j :: k < j < |pairs| ==> pairs[j].key != pairs[k].key) ==>
         pairs[k].key in args && args[pairs[k].key] == pairs[k].value
  }

  lemma {:induction false} CollectedMakes(pairs: seq<Qwen.Pair>, args: map<string, string>, k: nat)
    requires k < |pairs| && forall j :: k < j < |pairs| ==> pairs[j].key != pairs[k].key
    ensures pairs[k].key in Qwen.Collected(pairs, args) && Qwen.Collected(pairs, args)[pairs[k].key] == pairs[k].value
    decreases |pairs|
  {
    var rest, grown := pairs[1..], args[pairs[0].key := pairs[0].value];
    if k > 0 {
      CollectedMakes(rest, grown, k - 1);
    } else {
      Qwen.CollectedOther(rest, grown, pairs[0].key);
    }
  }

  /** A call in the layout the prompt shows gives its name and, for each key, the last value. */
  lemma FunctionReads(before: string, name: string, pairs: seq<Qwen.Pair>, after: string)
    requires Without(before, "<function=") && Without(after, "<function=") && pairs != []
    requires Qwen.PlainName(name) && Qwen.AllPlain(Qwen.QWEN, pairs)
    ensures Qwen.Proper(Qwen.QWEN)
    ensures var text := before + ("<function=" + (name + ((">" + ParameterText(pairs)) + ("</function>" + after))));
      var calls := Qwen.Calls(Qwen.QWEN, text, 0);
      |calls| == 1 && calls[0].name == name && calls[0].fallback.None? && Makes(calls[0].arguments, pairs)
  {
    var said := [Qwen.Said(name, pairs, after)];
    assert said[1..] == [] && after + "" == after;
    ParameterTextIs(pairs);
    Qwen.ReplyReads(before, said);
    forall key ensures key in Qwen.Collected(pairs, map[]) <==> exists k :: 0 <= k < |pairs| && pairs[k].key == key {
      Qwen.CollectedKeys(pairs, map[], key);
    }
    forall k | 0 <= k < |pairs| && (forall j :: k < j < |pairs| ==> pairs[j].key != pairs[k].key)
      ensures pairs[k].key in Qwen.Collected(pairs, map[]) && Qwen.Collected(pairs, map[])[pairs[k].key] == pairs[k].value
    {
      CollectedMakes(pairs, map[], k);
    }
  }

  /** One line break of either kind, or none. */
  predicate BreakOrNone(s: string) {
    s == "" || s == "\n" || s == "\r\n"
  }

  /** A value loses one line break at each end, of either kind, and nothing else. */
  lemma BreaksTaken(front: string, value: string, back: string)
    requires BreakOrNone(front) && BreakOrNone(back)
    requires value != "" && value[0] != '\r' && value[0] != '\n' && value[|value| - 1] != '\r' && value[|value| - 1] != '\n'
    ensures Qwen.Unwrap(front + (value + back)) == value
  {
    var inner := value + back;
    var raw := front + inner;
    assert inner[0] == value[0];
    assert raw[|front|..] == inner;
    assert raw[..|front|] == front;
    assert front == "" ==> raw == inner;
    assert "\r\n"[0] == '\r' && "\r\n"[1] == '\n' && "\n"[0] == '\n';
    BackTaken(value, back);
  }

  lemma BackTaken(value: string, back: string)
    requires BreakOrNone(back) && value != "" && value[|value| - 1] != '\r' && value[|value| - 1] != '\n'
    ensures Qwen.DropBreak(value + back) == value
  {
    var s := value + back;
    assert s[..|value|] == value && s[|value|..] == back;
    assert "\r\n"[0] == '\r' && "\r\n"[1] == '\n' && "\n"[0] == '\n';
    if back == "" {
      assert s[|s| - 1] == value[|value| - 1];
    } else if back == "\n" {
      assert s[|s| - 2] == value[|value| - 1] && s[|s| - 1..] == "\n";
      assert |s| >= 2 ==> s[|s| - 2..][0] == s[|s| - 2];
    } else {
      assert s[|s| - 2..] == "\r\n";
    }
  }

  /** A body without parameters goes to the JSON library as it is, without the blanks around it. */
  lemma FallbackReads(before: string, name: string, body: string, after: string)
    requires Without(before, "<function=") && Without(after, "<function=") && NoAngle(name) && Trim(name) != ""
    requires Without(">" + body, "</function>") && Without(body, "<parameter=")
    ensures Qwen.Proper(Qwen.QWEN)
    ensures Qwen.Calls(Qwen.QWEN, before + ("<function=" + (name + ((">" + body) + ("</function>" + after)))), 0)
         == [Qwen.Call(Trim(name), map[], Some(Trim(body)))]
  {
    hide Qwen.NextElement, Trim, Without, NoAngle;
    var t, text := Qwen.QWEN, before + ("<function=" + (name + ((">" + body) + ("</function>" + after))));
    Qwen.QwenTagsGood();
    var next := |before| + |t.function_| + |name| + 1 + |body| + |t.functionEnd|;
    Qwen.ElementRead(t.function_, t.functionEnd, text, 0, before, name, body, after);
    Qwen.CallsCons(t, text, 0, Trim(name), body, next);
    Qwen.NoElementAhead(t.parameter, t.parameterEnd, body, 0, body);
    Qwen.NoElementAhead(t.function_, t.functionEnd, text, next, after);
    assert Qwen.Parameters(t, body, 0, map[]) == map[];
  }

  // ---------------------------------------------------------------------------------------
  // Names with arguments
  // ---------------------------------------------------------------------------------------

  /** One call, written out: a name, maybe an id, and a JSON object. */
  lemma NamedReads(before: string, name: string, id: Option<string>, blanks: string, arguments: Json, after: string)
    requires Without(before, "[TOOL_CALLS]") && Without(after, "[TOOL_CALLS]")
    requires Devstral.Plain(Devstral.Call(name, id, blanks, arguments))
    ensures var head := if id.None? then name else name + ("[CALL_ID]" + id.value);
      Devstral.Calls(Devstral.DEVSTRAL, before + ("[TOOL_CALLS]" + ((head + ("[ARGS]" + (blanks + Text(arguments)))) + after)))
      == [Devstral.Named(name, blanks + Text(arguments))]
  {
    var said := [Devstral.Said(Devstral.Call(name, id, blanks, arguments), after)];
    assert said[1..] == [] && after + "" == after;
    Devstral.ReplyReads(before, said);
  }

  /** A list or an object right behind the marker is a call too, or several: its text is read whole, and
      reading goes on behind it. */
  lemma BareReads(text: string, pos: nat, gap: string, blanks: string, v: Json, rest: string)
    requires Without(gap, "[TOOL_CALLS]") && Blank(blanks) && WellFormed(v) && (v.Arr? || v.Obj?)
    requires Ahead(text, pos, gap + ("[TOOL_CALLS]" + ((blanks + Text(v)) + rest)))
    ensures var m, end := Devstral.DEVSTRAL, pos + |gap| + 12 + |blanks| + |Text(v)|;
      && Devstral.ReadAll(m, Devstral.Raws(m, text, pos)) == [Devstral.Bare(Text(v))] + Devstral.ReadAll(m, Devstral.Raws(m, text, end))
      && Ahead(text, end, rest)
  {
    hide Devstral.Raws, Devstral.ReadAll, Devstral.CallEnd, Devstral.CallIn, JsonScan.ValueEnd, JsonScan.SkipSpaces,
         Ahead, Without, WellFormed, Blank, Find;
    var m := Devstral.DEVSTRAL;
    var start, cursor, call := pos + |gap|, pos + |gap| + 12, blanks + Text(v);
    var end := cursor + |call|;
    assert |"[TOOL_CALLS]"| == 12;
    Devstral.DevstralMarksGood();
    MarkAhead(text, pos, gap, m.call, call + rest);
    AheadSplit(text, cursor, call, rest);
    BareEnds(text, cursor, blanks, v);
    assert Devstral.CallEnd(m, text, start) == Some(end) by {
      BareCallEnd(text, start, end, blanks, v);
    }
    RawsCons(text, pos, start, end, call);
    BareIn(call, blanks, v);
    Devstral.ReadCons(m, call, Devstral.Raws(m, text, end));
  }

  lemma RawsCons(text: string, pos: nat, start: nat, end: nat, call: string)
    requires Find(text, "[TOOL_CALLS]", pos) == Some(start) && Devstral.CallEnd(Devstral.DEVSTRAL, text, start) == Some(end)
    requires start + 12 <= end <= |text| && text[start + 12..end] == call
    ensures Devstral.Raws(Devstral.DEVSTRAL, text, pos) == [call] + Devstral.Raws(Devstral.DEVSTRAL, text, end)
  {
    hide Devstral.CallEnd;
    assert |"[TOOL_CALLS]"| == 12;
  }

  /** Where the value behind the blanks starts and ends. */
  lemma BareEnds(text: string, cursor: nat, blanks: string, v: Json)
    requires Blank(blanks) && WellFormed(v) && (v.Arr? || v.Obj?)
    requires cursor + |blanks| + |Text(v)| <= |text| && text[cursor..cursor + |blanks + Text(v)|] == blanks + Text(v)
    ensures var i := cursor + |blanks|;
      && JsonScan.SkipSpaces(text, cursor) == i < |text| && (text[i] == '{' || text[i] == '[')
      && JsonScan.ValueEnd(text, i) == Some(i + |Text(v)|)
  {
    hide JsonScan.ValueEnd, JsonScan.Scan;
    var i, both := cursor + |blanks|, blanks + Text(v);
    var t := text[cursor..cursor + |both|];
    assert text[i..i + |Text(v)|] == t[|blanks|..] == Text(v);
    forall k | cursor <= k < i ensures IsSpace(text[k]) {
      assert text[k] == t[k - cursor] == blanks[k - cursor];
    }
    JsonScan.ScanExact(text, i, v);
    JsonScan.SkipSpacesIs(text, cursor, i);
    JsonScan.ValueEndAt(text, i, i, v);
  }

  lemma BareCallEnd(text: string, start: nat, end: nat, blanks: string, v: Json)
    requires OccursAt(text, "[TOOL_CALLS]", start)
    requires var i := JsonScan.SkipSpaces(text, start + 12);
      i < |text| && (text[i] == '{' || text[i] == '[') && JsonScan.ValueEnd(text, i) == Some(end)
    ensures Devstral.CallEnd(Devstral.DEVSTRAL, text, start) == Some(end)
  {
    hide JsonScan.ValueEnd, JsonScan.SkipSpaces;
    assert |"[TOOL_CALLS]"| == 12;
  }

  lemma BareIn(call: string, blanks: string, v: Json)
    requires call == blanks + Text(v) && Blank(blanks) && WellFormed(v) && (v.Arr? || v.Obj?)
    ensures Devstral.CallIn(Devstral.DEVSTRAL, call) == [Devstral.Bare(Text(v))]
  {
    hide JsonScan.ValueEnd, JsonScan.Scan;
    assert call[0..|call|] == call;
    BareEnds(call, 0, blanks, v);
    assert call[|blanks|..] == Text(v);
  }

  lemma NoEnd(text: string, start: nat, payload: nat)
    requires OccursAt(text, "[TOOL_CALLS]", start) && Devstral.PayloadAt(Devstral.DEVSTRAL, text, start + 12) == Some(payload)
    requires JsonScan.ValueEnd(text, payload) == None
    ensures Devstral.CallEnd(Devstral.DEVSTRAL, text, start) == None
  {
    hide JsonScan.ValueEnd, Devstral.PayloadAt;
    assert |"[TOOL_CALLS]"| == 12;
  }

  lemma NoRaws(text: string, pos: nat, start: nat)
    requires Find(text, "[TOOL_CALLS]", pos) == Some(start) && Devstral.CallEnd(Devstral.DEVSTRAL, text, start) == None
    ensures Devstral.Raws(Devstral.DEVSTRAL, text, pos) == []
  {
    hide Devstral.CallEnd;
  }

  lemma AheadOfStart(text: string)
    ensures Ahead(text, 0, text)
  {
  }

  lemma UnfinishedEnd(before: string, part: string, text: string, payload: nat, arguments: Json, n: nat)
    requires WellFormed(arguments) && arguments.Obj? && n < |Text(arguments)| && part == Text(arguments)[..n]
    requires text == before + part && payload == |before|
    ensures JsonScan.ValueEnd(text, payload) == None
  {
    JsonScan.UnfinishedValue(before, arguments, n);
  }

  /** A call whose arguments are not finished is not read, nor anything behind it. */
  lemma UnfinishedIsDropped(before: string, name: string, arguments: Json, n: nat)
    requires Without(before, "[TOOL_CALLS]") && Devstral.PlainName(name)
    requires WellFormed(arguments) && arguments.Obj? && n < |Text(arguments)|
    ensures Devstral.Calls(Devstral.DEVSTRAL, before + ("[TOOL_CALLS]" + (name + ("[ARGS]" + Text(arguments)[..n])))) == []
  {
    hide JsonScan.ValueEnd, Devstral.PayloadAt, Devstral.CallEnd, Devstral.Raws, Ahead, Without, Find, WellFormed;
    var m, part := Devstral.DEVSTRAL, Text(arguments)[..n];
    var tail := name + ("[ARGS]" + part);
    var text := before + ("[TOOL_CALLS]" + tail);
    var start, from := |before|, |before| + 12;
    assert |"[TOOL_CALLS]"| == 12;
    Devstral.DevstralMarksGood();
    Devstral.NoBracketWithout(name, m.args);
    AheadOfStart(text);
    MarkAhead(text, 0, before, m.call, tail);
    Devstral.PayloadFound(m, text, from, name, part);
    var payload := from + |name| + |m.args|;
    var front := before + ("[TOOL_CALLS]" + (name + "[ARGS]"));
    assert text == front + part;
    UnfinishedEnd(front, part, text, payload, arguments, n);
    NoEnd(text, start, payload);
    NoRaws(text, 0, start);
  }
}
