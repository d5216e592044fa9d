/** Reading `<function=name><parameter=key>value</parameter></function>` calls out of a reply
    (`append_function_parameter_calls` in `src/server/agent/model_adapter.cpp`). A body without
    parameters goes to the JSON library, which is not part of this model. */
module QwenCalls {
  import opened Strings
  import opened TextSearch
  import opened Trimming

  datatype Tags = Tags(function_: string, functionEnd: string, parameter: string, parameterEnd: string)

  const QWEN := Tags("<function=", "</function>", "<parameter=", "</parameter>")

  /** Without the line break at its end, if there is one. */
  function DropBreak(front: string): string {
    if EndsWith(front, "\r\n") then front[..|front| - 2]
    else if EndsWith(front, "\n") then
      if |front| > 1 && front[|front| - 2] == '\r' then front[..|front| - 2] else front[..|front| - 1]
    else front
  }

  /** One line break is taken off at each end. */
  function Unwrap(value: string): string {
    DropBreak(if "\r\n" <= value then value[2..] else if "\n" <= value then value[1..] else value)
  }

  /** What the template wraps is unwrapped exactly when it does not end in a carriage return. */
  lemma UnwrapExact(value: string)
    ensures Unwrap("\n" + (value + "\n")) == value <==> !EndsInReturn(value)
  {
    var raw, front := "\n" + (value + "\n"), value + "\n";
    assert raw[0] == '\n' && raw[1..] == front && raw[..1] == "\n";
    assert front[..|front| - 1] == value && front[|front| - 1..] == "\n";
    assert "\r\n"[0] == '\r' && "\r\n"[1] == '\n';
    if value != "" {
      assert front[|front| - 2..] == [value[|value| - 1], '\n'];
    }
  }

  /** What the parser needs of its tags: none is empty, and no closing tag begins with `>`. */
  predicate Proper(t: Tags) {
    && t.function_ != "" && t.parameter != ""
    && t.functionEnd != "" && t.functionEnd[0] != '>' && t.parameterEnd != "" && t.parameterEnd[0] != '>'
  }

  // ---------------------------------------------------------------------------------------
  // The parser
  // ---------------------------------------------------------------------------------------

  /** A stretch of text between an opening tag, its `>` and its closing tag. */
  datatype Element = Element(name: string, content: string, next: nat)

  /** The next element from `pos` on. */
  function NextElement(open: string, close: string, text: string, pos: nat): (r: Option<Element>)
    requires open != "" && close != "" && close[0] != '>'
    ensures r.Some? ==> pos < r.value.next <= |text|
  {
    match Find(text, open, pos)
    case None => None
    case Some(start) =>
      match FindChar(text, '>', start + |open|)
      case None => None
      case Some(nameEnd) =>
        match Find(text, close, nameEnd)
        case None => None
        case Some(end) =>
          OccursChar(text, close, end, 0);
          Some(Element(Trim(text[start + |open|..nameEnd]), text[nameEnd + 1..end], end + |close|))
  }

  /** The parameters of a body, later ones over earlier ones of the same name. */
  function Parameters(t: Tags, body: string, pos: nat, args: map<string, string>): map<string, string>
    requires Proper(t)
    decreases |body| - pos
  {
    match NextElement(t.parameter, t.parameterEnd, body, pos)
    case None => args
    case Some(e) => Parameters(t, body, e.next, if e.name == "" then args else args[e.name := Unwrap(e.content)])
  }

  /** A call. Without parameters `fallback` is what the JSON library gets to see. */
  datatype Call = Call(name: string, arguments: map<string, string>, fallback: Option<string>)

  function CallOf(t: Tags, name: string, body: string): Call
    requires Proper(t)
  {
    var args := Parameters(t, body, 0, map[]);
    Call(name, args, if args == map[] then Some(Trim(body)) else None)
  }

  function Calls(t: Tags, text: string, pos: nat): seq<Call>
    requires Proper(t)
    decreases |text| - pos
  {
    match NextElement(t.function_, t.functionEnd, text, pos)
    case None => []
    case Some(e) =>
      if e.name == "" then Calls(t, text, e.next) else [CallOf(t, e.name, e.content)] + Calls(t, text, e.next)
  }

  method ReadElement(open: string, close: string, text: string, pos: nat) returns (r: Option<Element>)
    requires open != "" && close != "" && close[0] != '>'
    ensures r == NextElement(open, close, text, pos)
  {
    var start := Find(text, open, pos);
    if start.None? {
      return None;
    }
    var nameBegin := start.value + |open|;
    var nameEnd := FindChar(text, '>', nameBegin);
    if nameEnd.None? {
      return None;
    }
    var end := Find(text, close, nameEnd.value);
    if end.None? {
      return None;
    }
    OccursChar(text, close, end.value, 0);
    r := Some(Element(Trim(text[nameBegin..nameEnd.value]), text[nameEnd.value + 1..end.value], end.value + |close|));
  }

  method ReadParameters(t: Tags, body: string) returns (args: map<string, string>)
    requires Proper(t)
    ensures args == Parameters(t, body, 0, map[])
  {
    hide NextElement;
    args := map[];
    var param := 0;
    while param < |body|
      invariant Parameters(t, body, param, args) == Parameters(t, body, 0, map[])
      decreases |body| - param
    {
      var e := ReadElement(t.parameter, t.parameterEnd, body, param);
      if e.None? {
        return;
      }
      if e.value.name != "" {
        args := args[e.value.name := Unwrap(e.value.content)];
      }
      param := e.value.next;
    }
    NothingBehind(t.parameter, t.parameterEnd, body, param);
  }

  lemma NothingBehind(open: string, close: string, text: string, pos: nat)
    requires open != "" && close != "" && close[0] != '>' && pos >= |text|
    ensures NextElement(open, close, text, pos) == None
  {
  }

  method AppendFunctionParameterCalls(text: string) returns (out: seq<Call>)
    ensures Proper(QWEN) && out == Calls(QWEN, text, 0)
  {
    out := ReadCalls(QWEN, text);
  }

  method ReadCalls(t: Tags, text: string) returns (out: seq<Call>)
    requires Proper(t)
    ensures out == Calls(t, text, 0)
  {
    hide NextElement, Parameters;
    out := [];
    var pos := 0;
    ghost var ahead := Calls(t, text, 0);
    while pos < |text|
      invariant ahead == Calls(t, text, pos) && out + ahead == Calls(t, text, 0)
      decreases |text| - pos
    {
      var e := ReadElement(t.function_, t.functionEnd, text, pos);
      if e.None? {
        return;
      }
      ghost var more := Calls(t, text, e.value.next);
      if e.value.name != "" {
        var args := ReadParameters(t, e.value.content);
        var call := Call(e.value.name, args, if args == map[] then Some(Trim(e.value.content)) else None);
        assert ahead == [call] + more && out + ([call] + more) == out + [call] + more;
        out := out + [call];
      }
      pos, ahead := e.value.next, more;
    }
    NothingBehind(t.function_, t.functionEnd, text, pos);
  }

  // ---------------------------------------------------------------------------------------
  // Round trip
  // ---------------------------------------------------------------------------------------

  /** What the proofs below use of the tags. */
  predicate GoodTags(t: Tags) {
    && Proper(t) && Rigid(t.function_) && Rigid(t.functionEnd) && Rigid(t.parameter) && Rigid(t.parameterEnd)
    && t.parameterEnd[0] != '\n' && t.parameter[0] != '\n'
    && Without(t.parameter, t.functionEnd) && Without(t.parameterEnd, t.functionEnd)
    && Lineless(t.parameterEnd) && Lineless(t.functionEnd) && Lineless(t.parameter)
    && (forall k :: 0 <= k < |t.functionEnd| - 1 ==> t.functionEnd[k] != '>')
    && t.functionEnd[|t.functionEnd| - 1] == '>'
    && t.parameter[|t.parameter| - 1] == '=' && (forall k :: 0 <= k < |t.functionEnd| ==> t.functionEnd[k] != '=')
    && NoAngle(t.parameter)
  }

  predicate Lineless(s: string) {
    forall k :: 0 <= k < |s| ==> s[k] != '\n'
  }

  lemma OpenerHoldsNoEnd()
    ensures Without("<parameter=", "</function>")
  {
    forall i | 0 <= i < 11 ensures !OccursAt("<parameter=", "</function>", i) {
      if OccursAt("<parameter=", "</function>", i) {
        OccursChar("<parameter=", "</function>", i, 1);
      }
    }
  }

  lemma CloserHoldsNoEnd()
    ensures Without("</parameter>", "</function>")
  {
    forall i | 0 <= i < 12 ensures !OccursAt("</parameter>", "</function>", i) {
      if OccursAt("</parameter>", "</function>", i) {
        OccursChar("</parameter>", "</function>", i, 0);
        OccursChar("</parameter>", "</function>", i, 2);
      }
    }
  }

  lemma QwenTagsGood()
    ensures GoodTags(QWEN)
  {
    hide Without;
    OpenerHoldsNoEnd();
    CloserHoldsNoEnd();
  }

  /** A name or key as a tag can carry it. */
  predicate PlainName(name: string) {
    name != "" && !IsBlank(name[0]) && !IsBlank(name[|name| - 1]) && NoAngle(name)
  }

  datatype Pair = Pair(key: string, value: string)

  /** A key that fits into a tag, and a value that holds no closing tag. */
  predicate Carried(t: Tags, p: Pair) {
    PlainName(p.key) && Without(p.value, t.functionEnd) && Without(p.value, t.parameterEnd)
  }

  /** The key makes no closing tag together with the `>` behind it. */
  predicate KeySafe(t: Tags, p: Pair) {
    Without(p.key + ">", t.functionEnd)
  }

  predicate PlainPair(t: Tags, p: Pair) {
    Carried(t, p) && KeySafe(t, p) && !EndsInReturn(p.value)
  }

  predicate AllCarried(t: Tags, pairs: seq<Pair>) {
    forall k :: 0 <= k < |pairs| ==> Carried(t, pairs[k])
  }

  predicate AllSafe(t: Tags, pairs: seq<Pair>) {
    forall k :: 0 <= k < |pairs| ==> KeySafe(t, pairs[k])
  }

  predicate AllPlain(t: Tags, pairs: seq<Pair>) {
    forall k :: 0 <= k < |pairs| ==> PlainPair(t, pairs[k])
  }

  predicate DistinctKeys(pairs: seq<Pair>) {
    forall j, k :: 0 <= j < k < |pairs| ==> pairs[j].key != pairs[k].key
  }

  /** The wrapped value of a parameter. */
  function Wrapped(value: string): string {
    "\n" + (value + "\n")
  }

  /** The lines between the name of a function and its closing tag. */
  function BodyText(t: Tags, pairs: seq<Pair>): string {
    if pairs == [] then "\n"
    else "\n" + (t.parameter + (pairs[0].key + (">" + (Wrapped(pairs[0].value) + (t.parameterEnd + BodyText(t, pairs[1..]))))))
  }

  /** One parameter, from the line break in front of it. */
  function Item(t: Tags, p: Pair): string {
    "\n" + t.parameter + p.key + ">" + Wrapped(p.value) + t.parameterEnd
  }

  /** A call the way the prompt shows one. */
  method WriteCall(t: Tags, name: string, pairs: seq<Pair>) returns (out: string)
    ensures out == t.function_ + (name + ((">" + BodyText(t, pairs)) + t.functionEnd))
  {
    ghost var front := t.function_ + name + ">";
    ghost var whole := front + BodyText(t, pairs);
    out := t.function_ + name + ">" + "\n";
    assert pairs[0..] == pairs;
    for i := 0 to |pairs|
      invariant out == front + "\n" && front + BodyText(t, pairs[i..]) == whole
    {
      var p := pairs[i];
      ghost var rest := pairs[i + 1..];
      assert pairs[i..] == [p] + rest;
      BodyCons(t, p, rest, front);
      ItemAdded(t, p, front, out);
      out := out + t.parameter + p.key + ">" + "\n" + p.value + "\n" + t.parameterEnd + "\n";
      front := front + Item(t, p);
    }
    CallWhole(t, name, BodyText(t, pairs));
    out := out + t.functionEnd;
  }

  lemma BodyCons(t: Tags, p: Pair, rest: seq<Pair>, front: string)
    ensures front + BodyText(t, [p] + rest) == front + Item(t, p) + BodyText(t, rest)
  {
    assert ([p] + rest)[1..] == rest;
  }

  lemma ItemAdded(t: Tags, p: Pair, front: string, out: string)
    requires out == front + "\n"
    ensures out + t.parameter + p.key + ">" + "\n" + p.value + "\n" + t.parameterEnd + "\n" == front + Item(t, p) + "\n"
  {
  }

  lemma CallWhole(t: Tags, name: string, body: string)
    ensures t.function_ + name + ">" + body + t.functionEnd == t.function_ + (name + ((">" + body) + t.functionEnd))
  {
  }

  function Collected(pairs: seq<Pair>, args: map<string, string>): map<string, string> {
    if pairs == [] then args else Collected(pairs[1..], args[pairs[0].key := pairs[0].value])
  }

  /** The pairs as they are read: a carriage return that ends a value is taken for part of the line break. */
  function Shown(pairs: seq<Pair>): (r: seq<Pair>)
    ensures |r| == |pairs|
  {
    seq(|pairs|, k requires 0 <= k < |pairs| => Pair(pairs[k].key, Unwrap(Wrapped(pairs[k].value))))
  }

  /** An element ahead is read whole, and its name without the blanks around it. */
  lemma ElementRead(open: string, close: string, text: string, pos: nat, gap: string, name: string, content: string, rest: string)
    requires Rigid(open) && Rigid(close) && close[0] != '>' && Without(gap, open) && NoAngle(name)
    requires Without(">" + content, close)
    requires Ahead(text, pos, gap + (open + (name + ((">" + content) + (close + rest)))))
    ensures var next := pos + |gap| + |open| + |name| + 1 + |content| + |close|;
      NextElement(open, close, text, pos) == Some(Element(Trim(name), content, next)) && Ahead(text, next, rest)
  {
    hide NextElement, Without, NoAngle, Ahead, Trim;
    var nameBegin := pos + |gap| + |open|;
    var nameEnd := nameBegin + |name|;
    var behind := (">" + content) + (close + rest);
    assert behind[0] == '>';
    NameAhead(open, text, pos, gap, name, behind, nameBegin, nameEnd);
    ContentAhead(close, text, nameEnd, content, rest);
    ElementIs(open, close, text, pos, nameBegin, nameEnd, nameEnd + 1 + |content|, Trim(name), content);
  }

  lemma ElementAhead(open: string, close: string, text: string, pos: nat, gap: string, name: string, content: string, rest: string)
    requires Rigid(open) && Rigid(close) && close[0] != '>' && Without(gap, open) && PlainName(name)
    requires Without(">" + content, close)
    requires Ahead(text, pos, gap + (open + (name + ((">" + content) + (close + rest)))))
    ensures var next := pos + |gap| + |open| + |name| + 1 + |content| + |close|;
      NextElement(open, close, text, pos) == Some(Element(name, content, next)) && Ahead(text, next, rest)
  {
    hide NextElement, Without, Ahead;
    ElementRead(open, close, text, pos, gap, name, content, rest);
    TrimmedName(name);
  }

  lemma NameAhead(open: string, text: string, pos: nat, gap: string, name: string, behind: string, nameBegin: nat, nameEnd: nat)
    requires Rigid(open) && Without(gap, open) && NoAngle(name) && behind != "" && behind[0] == '>'
    requires Ahead(text, pos, gap + (open + (name + behind)))
    requires nameBegin == pos + |gap| + |open| && nameEnd == nameBegin + |name|
    ensures Find(text, open, pos) == Some(nameBegin - |open|) && FindChar(text, '>', nameBegin) == Some(nameEnd)
    ensures nameEnd <= |text| && text[nameBegin..nameEnd] == name && Ahead(text, nameEnd, behind)
  {
    assert Find(text, open, pos) == Some(nameBegin - |open|) && Ahead(text, nameBegin, name + behind) by {
      MarkAhead(text, pos, gap, open, name + behind);
    }
    AheadSplit(text, nameBegin, name, behind);
    NameEnds(text, nameBegin, name, behind);
  }

  lemma TrimmedName(name: string)
    requires PlainName(name)
    ensures Trim(name) == name
  {
    var kept := TrimKeeps(name, "");
    assert name + "" == name;
  }

  lemma NameEnds(text: string, nameBegin: nat, name: string, behind: string)
    requires NoAngle(name) && behind != "" && behind[0] == '>' && Ahead(text, nameBegin, name + behind)
    ensures FindChar(text, '>', nameBegin) == Some(nameBegin + |name|)
  {
    forall k | nameBegin <= k < nameBegin + |name| ensures text[k] != '>' {
      assert text[nameBegin + (k - nameBegin)] == (name + behind)[k - nameBegin];
    }
    assert text[nameBegin + |name|] == (name + behind)[|name|];
    FindCharIs(text, '>', nameBegin, nameBegin + |name|);
  }

  lemma ContentAhead(close: string, text: string, nameEnd: nat, content: string, rest: string)
    requires Rigid(close) && Without(">" + content, close) && Ahead(text, nameEnd, (">" + content) + (close + rest))
    ensures var end := nameEnd + 1 + |content|;
      Find(text, close, nameEnd) == Some(end) && end <= |text| && text[nameEnd + 1..end] == content && Ahead(text, end + |close|, rest)
  {
    assert Find(text, close, nameEnd) == Some(nameEnd + 1 + |content|) && Ahead(text, nameEnd + 1 + |content| + |close|, rest) by {
      MarkAhead(text, nameEnd, ">" + content, close, rest);
    }
    var behind := close + rest;
    assert (">" + content) + behind == ">" + (content + behind);
    AheadSplit(text, nameEnd, ">", content + behind);
    AheadSplit(text, nameEnd + 1, content, behind);
  }

  lemma ElementIs(open: string, close: string, text: string, pos: nat, nameBegin: nat, nameEnd: nat, end: nat, name: string, content: string)
    requires open != "" && close != "" && close[0] != '>' && nameBegin >= |open|
    requires Find(text, open, pos) == Some(nameBegin - |open|) && FindChar(text, '>', nameBegin) == Some(nameEnd)
    requires Find(text, close, nameEnd) == Some(end) && nameEnd < end
    requires nameBegin <= nameEnd && Trim(text[nameBegin..nameEnd]) == name && text[nameEnd + 1..end] == content
    ensures NextElement(open, close, text, pos) == Some(Element(name, content, end + |close|))
  {
  }

  /** The wrapped value holds no closing tag, not even together with the `>` in front of it. */
  lemma ValueWithout(value: string, mark: string)
    requires Without(value, mark) && mark != "" && Lineless(mark) && mark[0] != '>'
    ensures Without(">" + Wrapped(value), mark)
  {
    var line := value + "\n";
    assert value + "\n" == value + (['\n'] + "") && Without("", mark);
    WithoutJoin(value, '\n', "", mark);
    NoMarkStart(">", mark);
    WithoutJoin(">", '\n', line, mark);
    assert ">" + Wrapped(value) == ">" + (['\n'] + line);
  }

  lemma BlankWithout(mark: string)
    requires mark != "" && mark[0] != '\n'
    ensures Without("\n", mark)
  {
    NoMarkStart("\n", mark);
  }

  /** The written parameters are read one by one, whatever text without `>` is behind them. */
  lemma {:induction false} ParametersRead(t: Tags, body: string, pos: nat, pairs: seq<Pair>, tail: string, args: map<string, string>)
    requires GoodTags(t) && AllCarried(t, pairs) && NoAngle(tail) && Ahead(body, pos, BodyText(t, pairs) + tail)
    ensures Parameters(t, body, pos, args) == Collected(Shown(pairs), args)
    decreases |pairs|
  {
    hide NextElement;
    BlankWithout(t.parameter);
    if pairs == [] {
      NoAngleAhead(t.parameter, t.parameterEnd, body, pos, "\n" + tail);
    } else {
      var p, rest, wrapped := pairs[0], pairs[1..], Wrapped(pairs[0].value);
      var more := BodyText(t, rest) + tail;
      var next := pos + 1 + |t.parameter| + |p.key| + 1 + |wrapped| + |t.parameterEnd|;
      assert Carried(t, p) && AllCarried(t, rest);
      assert NextElement(t.parameter, t.parameterEnd, body, pos) == Some(Element(p.key, wrapped, next)) && Ahead(body, next, more) by {
        ValueWithout(p.value, t.parameterEnd);
        Regroup(t, p.key, wrapped, BodyText(t, rest), tail);
        ElementAhead(t.parameter, t.parameterEnd, body, pos, "\n", p.key, wrapped, more);
      }
      assert Shown(pairs)[1..] == Shown(rest);
      ParametersRead(t, body, next, rest, tail, args[p.key := Unwrap(wrapped)]);
    }
  }

  lemma Regroup(t: Tags, key: string, wrapped: string, more: string, tail: string)
    ensures "\n" + (t.parameter + (key + (">" + (wrapped + (t.parameterEnd + more))))) + tail
         == "\n" + (t.parameter + (key + ((">" + wrapped) + (t.parameterEnd + (more + tail)))))
  {
    var inner := ">" + (wrapped + (t.parameterEnd + more));
    assert inner + tail == (">" + wrapped) + (t.parameterEnd + (more + tail));
    assert "\n" + (t.parameter + (key + inner)) + tail == "\n" + (t.parameter + (key + (inner + tail)));
  }

  /** Text without `>` holds no whole opening tag. */
  lemma NoAngleAhead(open: string, close: string, text: string, pos: nat, s: string)
    requires open != "" && close != "" && close[0] != '>' && NoAngle(s) && Ahead(text, pos, s)
    ensures NextElement(open, close, text, pos) == None
  {
    forall i | pos <= i < |text| ensures text[i] != '>' {
      assert text[pos + (i - pos)] == s[i - pos];
    }
    match Find(text, open, pos)
    case None =>
    case Some(start) => FindCharNone(text, '>', start + |open|);
  }

  lemma NoElementAhead(open: string, close: string, text: string, pos: nat, gap: string)
    requires open != "" && close != "" && close[0] != '>' && Without(gap, open) && Ahead(text, pos, gap)
    ensures NextElement(open, close, text, pos) == None
  {
    assert Find(gap, open, 0) == None;
    FindAhead(text, pos, gap, open, 0);
  }

  /** The whole body holds no closing tag of its function, not even with the `>` in front of it. */
  lemma {:induction false} BodyWithout(t: Tags, pairs: seq<Pair>)
    requires GoodTags(t) && AllCarried(t, pairs) && AllSafe(t, pairs)
    ensures Without(BodyText(t, pairs), t.functionEnd)
    decreases |pairs|
  {
    var mark := t.functionEnd;
    BlankWithout(mark);
    if pairs != [] {
      var p, rest := pairs[0], pairs[1..];
      assert Carried(t, p) && KeySafe(t, p) && AllCarried(t, rest) && AllSafe(t, rest);
      BodyWithout(t, rest);
      LineWithout(t, p, BodyText(t, rest));
    }
  }

  lemma AfterLine(front: string, text: string, mark: string)
    requires Without(front, mark) && Without(text, mark) && mark != "" && Lineless(mark) && text != "" && text[0] == '\n'
    ensures Without(front + text, mark)
  {
    var tail := text[1..];
    assert text == ['\n'] + tail && tail == text[1..|text|];
    SliceWithout(text, 1, |text|, mark);
    WithoutJoin(front, '\n', tail, mark);
  }

  lemma LineWithout(t: Tags, p: Pair, more: string)
    requires GoodTags(t) && Carried(t, p) && KeySafe(t, p) && Without(more, t.functionEnd) && more != "" && more[0] == '\n'
    ensures Without("\n" + (t.parameter + (p.key + (">" + (Wrapped(p.value) + (t.parameterEnd + more))))), t.functionEnd)
  {
    var mark := t.functionEnd;
    var shut := t.parameterEnd + more;
    AfterLine(t.parameterEnd, more, mark);
    var value := p.value + ("\n" + shut);
    WithoutJoin(p.value, '\n', shut, mark);
    var tag := t.parameter + (p.key + ">");
    TagWithout(t, p.key);
    var line := tag + ("\n" + value);
    WithoutJoin(tag, '\n', value, mark);
    WithoutJoin("", '\n', line, mark);
    assert "" + (['\n'] + line) == "\n" + line;
    assert "\n" + line == "\n" + (t.parameter + (p.key + (">" + (Wrapped(p.value) + shut)))) by {
      assert Wrapped(p.value) + shut == "\n" + value;
      assert tag + ("\n" + value) == t.parameter + (p.key + (">" + ("\n" + value)));
    }
  }

  /** The opening tag of a parameter does not end in the middle of a closing one. */
  lemma TagWithout(t: Tags, key: string)
    requires GoodTags(t) && PlainName(key) && Without(key + ">", t.functionEnd)
    ensures Without(t.parameter + (key + ">"), t.functionEnd)
  {
    var n, mark := |t.parameter| - 1, t.functionEnd;
    var front := t.parameter[..n];
    assert front == t.parameter[0..n];
    SliceWithout(t.parameter, 0, n, mark);
    WithoutJoin(front, '=', key + ">", mark);
    assert t.parameter + (key + ">") == front + (['='] + (key + ">"));
  }

  // ---------------------------------------------------------------------------------------
  // Whole calls
  // ---------------------------------------------------------------------------------------

  /** A call as the template writes it, and the text behind it. */
  datatype Said = Said(name: string, pairs: seq<Pair>, gap: string)

  predicate Sayable(t: Tags, said: seq<Said>) {
    forall k :: 0 <= k < |said| ==> said[k].pairs != [] && Without(said[k].gap, t.function_)
  }

  predicate AllSaidPlain(t: Tags, said: seq<Said>) {
    forall k :: 0 <= k < |said| ==> PlainName(said[k].name) && AllPlain(t, said[k].pairs)
  }

  predicate AllSaidCarried(t: Tags, said: seq<Said>) {
    forall k :: 0 <= k < |said| ==> PlainName(said[k].name) && AllCarried(t, said[k].pairs)
  }

  predicate NoKeyTwice(said: seq<Said>) {
    forall k :: 0 <= k < |said| ==> DistinctKeys(said[k].pairs)
  }

  function SaidText(t: Tags, said: seq<Said>): string {
    if said == [] then ""
    else
      t.function_ + (said[0].name + ((">" + BodyText(t, said[0].pairs)) + (t.functionEnd + (said[0].gap + SaidText(t, said[1..])))))
  }

  function Expected(said: seq<Said>): (r: seq<Call>)
    ensures |r| == |said|
  {
    seq(|said|, k requires 0 <= k < |said| => Call(said[k].name, Collected(said[k].pairs, map[]), None))
  }

  lemma {:induction false} CollectedKeys(pairs: seq<Pair>, args: map<string, string>, key: string)
    ensures key in Collected(pairs, args) <==> key in args || exists k :: 0 <= k < |pairs| && pairs[k].key == key
    decreases |pairs|
  {
    if pairs != [] {
      var rest := pairs[1..];
      CollectedKeys(rest, args[pairs[0].key := pairs[0].value], key);
      forall k | 0 <= k < |pairs| && pairs[k].key == key ensures key == pairs[0].key || exists j :: 0 <= j < |rest| && rest[j].key == key {
        assert k > 0 ==> rest[k - 1].key == key;
      }
    }
  }

  /** Pairs with different keys are all in the map they make. */
  lemma {:induction false} CollectedValue(pairs: seq<Pair>, args: map<string, string>, k: nat)
    requires DistinctKeys(pairs) && k < |pairs|
    ensures pairs[k].key in Collected(pairs, args) && Collected(pairs, args)[pairs[k].key] == pairs[k].value
    decreases |pairs|
  {
    var rest, grown := pairs[1..], args[pairs[0].key := pairs[0].value];
    if k > 0 {
      CollectedValue(rest, grown, k - 1);
    } else {
      CollectedOther(rest, grown, pairs[0].key);
    }
  }

  lemma {:induction false} CollectedOther(pairs: seq<Pair>, args: map<string, string>, key: string)
    requires key in args && forall k :: 0 <= k < |pairs| ==> pairs[k].key != key
    ensures key in Collected(pairs, args) && Collected(pairs, args)[key] == args[key]
    decreases |pairs|
  {
    if pairs != [] {
      CollectedOther(pairs[1..], args[pairs[0].key := pairs[0].value], key);
    }
  }

  /** The `>` in front of a body adds no closing tag. */
  lemma ContentWithout(t: Tags, pairs: seq<Pair>)
    requires GoodTags(t) && AllCarried(t, pairs) && AllSafe(t, pairs)
    ensures Without(">" + BodyText(t, pairs), t.functionEnd)
  {
    var body := BodyText(t, pairs);
    BodyWithout(t, pairs);
    NoMarkStart(">", t.functionEnd);
    AfterLine(">", body, t.functionEnd);
  }

  lemma ExpectedCons(said: seq<Said>)
    requires said != []
    ensures Expected(said) == [Call(said[0].name, Collected(said[0].pairs, map[]), None)] + Expected(said[1..])
  {
  }

  lemma CallsCons(t: Tags, text: string, pos: nat, name: string, body: string, next: nat)
    requires Proper(t) && name != "" && NextElement(t.function_, t.functionEnd, text, pos) == Some(Element(name, body, next))
    ensures Calls(t, text, pos) == [CallOf(t, name, body)] + Calls(t, text, next)
  {
    hide NextElement, Parameters;
  }

  // One call: it comes back exactly when all its pairs are plain.

  /** A key that ends like a closing tag. */
  lemma KeyEnds(t: Tags, key: string) returns (front: string)
    requires GoodTags(t) && PlainName(key) && !Without(key + ">", t.functionEnd)
    ensures key + ">" == front + t.functionEnd && NoAngle(front)
  {
    var s, mark := key + ">", t.functionEnd;
    var i :| 0 <= i < |s| && OccursAt(s, mark, i);
    OccursChar(s, mark, i, |mark| - 1);
    assert s[i + |mark| - 1] == '>' && i + |mark| == |s|;
    front := s[..i];
    assert s == front + s[i..i + |mark|];
  }

  lemma {:induction false} BodyAppend(t: Tags, a: seq<Pair>, b: seq<Pair>)
    ensures BodyText(t, b) != "" && BodyText(t, a + b) == BodyText(t, a) + BodyText(t, b)[1..]
    decreases |a|
  {
    if a == [] {
      assert a + b == b;
    } else {
      var rest := a[1..];
      assert (a + b)[1..] == rest + b && (a + b)[0] == a[0];
      BodyAppend(t, rest, b);
      Behind(t, a[0], BodyText(t, rest), BodyText(t, b)[1..]);
    }
  }

  lemma Behind(t: Tags, p: Pair, more: string, tail: string)
    ensures "\n" + (t.parameter + (p.key + (">" + (Wrapped(p.value) + (t.parameterEnd + (more + tail))))))
         == "\n" + (t.parameter + (p.key + (">" + (Wrapped(p.value) + (t.parameterEnd + more))))) + tail
  {
    var wrapped := Wrapped(p.value);
    assert wrapped + (t.parameterEnd + (more + tail)) == (wrapped + (t.parameterEnd + more)) + tail;
  }

  /** A closing tag ends in `>`, so none ends in text without one. */
  lemma AngleJoin(t: Tags, front: string, tail: string)
    requires GoodTags(t) && Without(front, t.functionEnd) && NoAngle(tail)
    ensures Without(front + tail, t.functionEnd)
  {
    var s, mark := front + tail, t.functionEnd;
    forall i | 0 <= i < |s| ensures !OccursAt(s, mark, i) {
      if OccursAt(s, mark, i) {
        OccursChar(s, mark, i, |mark| - 1);
        assert i + |mark| <= |front|;
        assert front[i..i + |mark|] == s[i..i + |mark|];
        assert OccursAt(front, mark, i);
      }
    }
  }

  /** A body in which a key ends the call too early. */
  lemma BodyCut(t: Tags, pairs: seq<Pair>, i: nat) returns (tail: string, rest: string)
    requires GoodTags(t) && AllCarried(t, pairs) && i < |pairs| && AllSafe(t, pairs[..i]) && !KeySafe(t, pairs[i])
    ensures NoAngle(tail) && Without(">" + (BodyText(t, pairs[..i]) + tail), t.functionEnd)
    ensures BodyText(t, pairs) == (BodyText(t, pairs[..i]) + tail) + (t.functionEnd + rest)
  {
    var p, body := pairs[i], BodyText(t, pairs[..i]);
    var front := KeyEnds(t, p.key);
    tail := t.parameter + front;
    rest := Wrapped(p.value) + (t.parameterEnd + BodyText(t, pairs[i..][1..]));
    assert BodyText(t, pairs) == body + BodyText(t, pairs[i..])[1..] by {
      assert pairs == pairs[..i] + pairs[i..];
      BodyAppend(t, pairs[..i], pairs[i..]);
    }
    assert BodyText(t, pairs[i..])[1..] == t.parameter + (p.key + (">" + rest));
    CutText(t, body, p.key, front, rest);
    assert Without(">" + (body + tail), t.functionEnd) by {
      ContentWithout(t, pairs[..i]);
      AngleJoin(t, ">" + body, tail);
      assert (">" + body) + tail == ">" + (body + tail);
    }
  }

  lemma CutText(t: Tags, body: string, key: string, front: string, rest: string)
    requires key + ">" == front + t.functionEnd
    ensures body + (t.parameter + (key + (">" + rest))) == (body + (t.parameter + front)) + (t.functionEnd + rest)
  {
    assert key + (">" + rest) == (key + ">") + rest;
    assert (front + t.functionEnd) + rest == front + (t.functionEnd + rest);
    assert t.parameter + (front + (t.functionEnd + rest)) == (t.parameter + front) + (t.functionEnd + rest);
  }

  /** A call whose keys are all safe is read whole. */
  lemma SafeCall(t: Tags, text: string, pos: nat, gap: string, s: Said, behind: string, next: nat)
    requires GoodTags(t) && Without(gap, t.function_) && PlainName(s.name) && s.pairs != []
    requires AllCarried(t, s.pairs) && AllSafe(t, s.pairs)
    requires Ahead(text, pos, gap + (t.function_ + (s.name + ((">" + BodyText(t, s.pairs)) + (t.functionEnd + behind)))))
    requires next == pos + |gap| + |t.function_| + |s.name| + 1 + |BodyText(t, s.pairs)| + |t.functionEnd|
    ensures Calls(t, text, pos) == [Call(s.name, Collected(Shown(s.pairs), map[]), None)] + Calls(t, text, next)
    ensures Ahead(text, next, behind)
  {
    hide NextElement, Parameters;
    var body := BodyText(t, s.pairs);
    assert NextElement(t.function_, t.functionEnd, text, pos) == Some(Element(s.name, body, next)) && Ahead(text, next, behind) by {
      ContentWithout(t, s.pairs);
      ElementAhead(t.function_, t.functionEnd, text, pos, gap, s.name, body, behind);
    }
    CallsCons(t, text, pos, s.name, body, next);
    assert CallOf(t, s.name, body) == Call(s.name, Collected(Shown(s.pairs), map[]), None) by {
      assert body + "" == body;
      ParametersRead(t, body, 0, s.pairs, "", map[]);
      CollectedKeys(Shown(s.pairs), map[], s.pairs[0].key);
      assert Shown(s.pairs)[0].key == s.pairs[0].key;
    }
  }

  /** An unsafe key ends its call, and is lost with all that was behind it. */
  lemma UnsafeCall(t: Tags, text: string, pos: nat, gap: string, s: Said, behind: string, i: nat)
    requires GoodTags(t) && Without(gap, t.function_) && PlainName(s.name) && AllCarried(t, s.pairs) && DistinctKeys(s.pairs)
    requires i < |s.pairs| && AllSafe(t, s.pairs[..i]) && !KeySafe(t, s.pairs[i])
    requires Ahead(text, pos, gap + (t.function_ + (s.name + ((">" + BodyText(t, s.pairs)) + (t.functionEnd + behind)))))
    ensures Calls(t, text, pos) != [] && s.pairs[i].key !in Calls(t, text, pos)[0].arguments
  {
    hide NextElement, Parameters;
    var kept, end := s.pairs[..i], t.functionEnd;
    var tail, rest := BodyCut(t, s.pairs, i);
    var content := BodyText(t, kept) + tail;
    var next := pos + |gap| + |t.function_| + |s.name| + 1 + |content| + |end|;
    assert NextElement(t.function_, end, text, pos) == Some(Element(s.name, content, next)) by {
      JoinFour(">", content, end, rest, end + behind);
      ElementAhead(t.function_, end, text, pos, gap, s.name, content, rest + (end + behind));
    }
    CallsCons(t, text, pos, s.name, content, next);
    assert Parameters(t, content, 0, map[]) == Collected(Shown(kept), map[]) by {
      ParametersRead(t, content, 0, kept, tail, map[]);
    }
    CollectedKeys(Shown(kept), map[], s.pairs[i].key);
  }

  lemma JoinFour(a: string, b: string, c: string, d: string, e: string)
    ensures (a + (b + (c + d))) + e == (a + b) + (c + (d + e))
  {
    assert (b + (c + d)) + e == b + (c + (d + e));
  }

  /** Safe pairs that are read as they were written are plain. */
  lemma ShownPlain(t: Tags, pairs: seq<Pair>)
    requires AllCarried(t, pairs) && AllSafe(t, pairs)
    ensures AllPlain(t, pairs) ==> Shown(pairs) == pairs
    ensures DistinctKeys(pairs) && Collected(Shown(pairs), map[]) == Collected(pairs, map[]) ==> AllPlain(t, pairs)
  {
    forall k | 0 <= k < |pairs| ensures Shown(pairs)[k] == pairs[k] <==> !EndsInReturn(pairs[k].value) {
      UnwrapExact(pairs[k].value);
    }
    if DistinctKeys(pairs) && Collected(Shown(pairs), map[]) == Collected(pairs, map[]) {
      forall k | 0 <= k < |pairs| ensures PlainPair(t, pairs[k]) {
        CollectedValue(pairs, map[], k);
        CollectedValue(Shown(pairs), map[], k);
        assert Carried(t, pairs[k]) && KeySafe(t, pairs[k]);
      }
    }
  }

  lemma FirstUnsafe(t: Tags, pairs: seq<Pair>) returns (i: nat)
    requires !AllSafe(t, pairs)
    ensures i < |pairs| && AllSafe(t, pairs[..i]) && !KeySafe(t, pairs[i])
  {
    i := 0;
    while KeySafe(t, pairs[i])
      invariant i < |pairs| && AllSafe(t, pairs[..i]) && !AllSafe(t, pairs)
      decreases |pairs| - i
    {
      if i + 1 == |pairs| {
        assert AllSafe(t, pairs);
      }
      i := i + 1;
    }
  }

  /** The written calls ahead come back exactly when they are plain. */
  lemma {:induction false} CallsExact(t: Tags, text: string, pos: nat, gap: string, said: seq<Said>)
    requires GoodTags(t) && Without(gap, t.function_) && Sayable(t, said) && AllSaidCarried(t, said)
    requires Ahead(text, pos, gap + SaidText(t, said))
    ensures AllSaidPlain(t, said) ==> Calls(t, text, pos) == Expected(said)
    ensures NoKeyTwice(said) && Calls(t, text, pos) == Expected(said) ==> AllSaidPlain(t, said)
    decreases |said|
  {
    hide NextElement, Parameters;
    if said == [] {
      assert gap + "" == gap;
      NoElementAhead(t.function_, t.functionEnd, text, pos, gap);
    } else {
      var s, rest := said[0], said[1..];
      var behind := s.gap + SaidText(t, rest);
      assert PlainName(s.name) && AllCarried(t, s.pairs) && s.pairs != [] && Without(s.gap, t.function_);
      ExpectedCons(said);
      if AllSafe(t, s.pairs) {
        var next := pos + |gap| + |t.function_| + |s.name| + 1 + |BodyText(t, s.pairs)| + |t.functionEnd|;
        SafeCall(t, text, pos, gap, s, behind, next);
        ShownPlain(t, s.pairs);
        CallsExact(t, text, next, s.gap, rest);
        HeadAndRest(t, said, Calls(t, text, pos), Calls(t, text, next));
      } else {
        var i := FirstUnsafe(t, s.pairs);
        assert !PlainPair(t, s.pairs[i]);
        if NoKeyTwice(said) {
          UnsafeCall(t, text, pos, gap, s, behind, i);
          CollectedKeys(s.pairs, map[], s.pairs[i].key);
        }
      }
    }
  }

  /** The head and the rest of the list of calls, against the head and the rest of what was said. */
  lemma HeadAndRest(t: Tags, said: seq<Said>, calls: seq<Call>, more: seq<Call>)
    requires said != [] && calls == [Call(said[0].name, Collected(Shown(said[0].pairs), map[]), None)] + more
    requires PlainName(said[0].name)
    requires AllPlain(t, said[0].pairs) ==> Shown(said[0].pairs) == said[0].pairs
    requires DistinctKeys(said[0].pairs) && Collected(Shown(said[0].pairs), map[]) == Collected(said[0].pairs, map[]) ==> AllPlain(t, said[0].pairs)
    requires AllSaidPlain(t, said[1..]) ==> more == Expected(said[1..])
    requires NoKeyTwice(said[1..]) && more == Expected(said[1..]) ==> AllSaidPlain(t, said[1..])
    ensures AllSaidPlain(t, said) ==> calls == Expected(said)
    ensures NoKeyTwice(said) && calls == Expected(said) ==> AllSaidPlain(t, said)
  {
    hide AllSaidPlain, NoKeyTwice, AllPlain, DistinctKeys, Collected, Shown, Expected, PlainName;
    SaidCons(t, said);
    ExpectedCons(said);
    var head, wanted := [calls[0]], [Call(said[0].name, Collected(said[0].pairs, map[]), None)];
    if calls == Expected(said) {
      assert head[0] == calls[0] == Expected(said)[0] == wanted[0];
      assert more == calls[1..] == Expected(said)[1..] == Expected(said[1..]);
    }
  }

  lemma SaidCons(t: Tags, said: seq<Said>)
    requires said != []
    ensures AllSaidPlain(t, said) <==> PlainName(said[0].name) && AllPlain(t, said[0].pairs) && AllSaidPlain(t, said[1..])
    ensures NoKeyTwice(said) <==> DistinctKeys(said[0].pairs) && NoKeyTwice(said[1..])
  {
    hide AllPlain, DistinctKeys, PlainName;
    var rest := said[1..];
    assert forall k :: 0 < k < |said| ==> said[k] == rest[k - 1];
  }

  // Whatever the text, what is read is carried.

  lemma TrimPlain(s: string)
    requires NoAngle(s)
    ensures Trim(s) == "" || PlainName(Trim(s))
  {
    var begin, end := FirstNotBlank(s, 0), LastNotBlank(s, |s|);
    if begin < end {
      FirstStops(s, 0);
      LastStops(s, |s|);
    }
  }

  lemma {:induction false} FirstStops(s: string, i: nat)
    ensures FirstNotBlank(s, i) < |s| ==> !IsBlank(s[FirstNotBlank(s, i)])
    decreases |s| - i
  {
    if i < |s| && IsBlank(s[i]) {
      FirstStops(s, i + 1);
    }
  }

  lemma {:induction false} LastStops(s: string, n: nat)
    requires n <= |s|
    ensures LastNotBlank(s, n) > 0 ==> !IsBlank(s[LastNotBlank(s, n) - 1])
    decreases n
  {
    if n > 0 && IsBlank(s[n - 1]) {
      LastStops(s, n - 1);
    }
  }

  lemma UnwrapPart(value: string) returns (a: nat, b: nat)
    ensures a <= b <= |value| && Unwrap(value) == value[a..b]
  {
    hide DropBreak, Unwrap;
    a := BreakLength(value);
    var front := value[a..];
    UnwrapIs(value, a);
    DropBreakPart(front);
    b := a + |DropBreak(front)|;
  }

  function BreakLength(value: string): (n: nat)
    ensures n <= |value|
  {
    if "\r\n" <= value then 2 else if "\n" <= value then 1 else 0
  }

  lemma UnwrapIs(value: string, n: nat)
    requires n == BreakLength(value)
    ensures Unwrap(value) == DropBreak(value[n..])
  {
    hide DropBreak;
    assert value[0..] == value;
  }

  lemma DropBreakPart(front: string)
    ensures |DropBreak(front)| <= |front| && DropBreak(front) == front[..|DropBreak(front)|]
  {
    hide EndsWith;
    EndFits(front);
  }

  lemma EndFits(front: string)
    ensures EndsWith(front, "\r\n") ==> |front| >= 2
    ensures EndsWith(front, "\n") ==> |front| >= 1
  {
  }

  /** An element has a plain name or none, and its content holds no closing tag. */
  lemma ElementPlain(open: string, close: string, text: string, pos: nat, mark: string)
    requires open != "" && close != "" && close[0] != '>' && NextElement(open, close, text, pos).Some?
    ensures var e := NextElement(open, close, text, pos).value;
      (e.name == "" || PlainName(e.name)) && Without(e.content, close) && (Without(text, mark) ==> Without(e.content, mark))
  {
    hide Trim, PlainName, Without;
    var start := Find(text, open, pos).value;
    var nameEnd := FindChar(text, '>', start + |open|).value;
    var end := Find(text, close, nameEnd).value;
    var raw := text[start + |open|..nameEnd];
    assert NoAngle(raw);
    TrimPlain(raw);
    assert nameEnd < end by {
      OccursChar(text, close, end, 0);
    }
    NoneBefore(text, close, nameEnd + 1, end);
    if Without(text, mark) {
      SliceWithout(text, nameEnd + 1, end, mark);
    }
  }

  lemma NoneBefore(text: string, close: string, from: nat, end: nat)
    requires from <= end <= |text| && forall i :: from <= i < end ==> !OccursAt(text, close, i)
    ensures Without(text[from..end], close)
  {
    forall i | 0 <= i < end - from ensures !OccursAt(text[from..end], close, i) {
      if OccursAt(text[from..end], close, i) {
        OccursIn(text, from, end, close, i);
      }
    }
  }

  predicate ArgsCarried(t: Tags, args: map<string, string>) {
    forall key :: key in args ==> Carried(t, Pair(key, args[key]))
  }

  lemma {:induction false} ParametersCarried(t: Tags, body: string, pos: nat, args: map<string, string>)
    requires Proper(t) && Without(body, t.functionEnd) && ArgsCarried(t, args)
    ensures ArgsCarried(t, Parameters(t, body, pos, args))
    decreases |body| - pos
  {
    hide NextElement;
    var found := NextElement(t.parameter, t.parameterEnd, body, pos);
    if found.Some? {
      var e := found.value;
      ElementPlain(t.parameter, t.parameterEnd, body, pos, t.functionEnd);
      var a, b := UnwrapPart(e.content);
      SliceWithout(e.content, a, b, t.parameterEnd);
      SliceWithout(e.content, a, b, t.functionEnd);
      ParametersCarried(t, body, e.next, if e.name == "" then args else args[e.name := Unwrap(e.content)]);
    }
  }

  lemma {:induction false} CallsCarried(t: Tags, text: string, pos: nat)
    requires Proper(t)
    ensures forall c :: c in Calls(t, text, pos) ==> PlainName(c.name) && ArgsCarried(t, c.arguments)
    decreases |text| - pos
  {
    hide NextElement, Parameters;
    var found := NextElement(t.function_, t.functionEnd, text, pos);
    if found.Some? {
      var e := found.value;
      ElementPlain(t.function_, t.functionEnd, text, pos, t.functionEnd);
      ParametersCarried(t, e.content, 0, map[]);
      CallsCarried(t, text, e.next);
    }
  }

  /** Calls laid out as the prompt shows them, among text without an opening tag, are read back with
      their names and their key-value maps. */
  lemma ReplyReads(gap: string, said: seq<Said>)
    requires Without(gap, QWEN.function_) && Sayable(QWEN, said) && AllSaidPlain(QWEN, said)
    ensures Proper(QWEN) && Calls(QWEN, gap + SaidText(QWEN, said), 0) == Expected(said)
  {
    QwenTagsGood();
    PlainIsCarried(QWEN, said);
    CallsExact(QWEN, gap + SaidText(QWEN, said), 0, gap, said);
  }

  lemma PlainIsCarried(t: Tags, said: seq<Said>)
    requires AllSaidPlain(t, said)
    ensures AllSaidCarried(t, said)
  {
    forall k, j | 0 <= k < |said| && 0 <= j < |said[k].pairs| ensures Carried(t, said[k].pairs[j]) {
      assert AllPlain(t, said[k].pairs) && PlainPair(t, said[k].pairs[j]);
    }
  }

  /** When no call gives a key twice, that is the only case in which they are. */
  lemma ReplyReadsExactly(gap: string, said: seq<Said>)
    requires Without(gap, QWEN.function_) && Sayable(QWEN, said) && NoKeyTwice(said)
    ensures Proper(QWEN)
    ensures Calls(QWEN, gap + SaidText(QWEN, said), 0) == Expected(said) <==> AllSaidPlain(QWEN, said)
  {
    QwenTagsGood();
    var text := gap + SaidText(QWEN, said);
    if AllSaidPlain(QWEN, said) {
      ReplyReads(gap, said);
    }
    if Calls(QWEN, text, 0) == Expected(said) {
      CallsCarried(QWEN, text, 0);
      ExpectedCarried(QWEN, said);
      CallsExact(QWEN, text, 0, gap, said);
    }
  }

  lemma ExpectedCarried(t: Tags, said: seq<Said>)
    requires NoKeyTwice(said) && forall c :: c in Expected(said) ==> PlainName(c.name) && ArgsCarried(t, c.arguments)
    ensures AllSaidCarried(t, said)
  {
    forall k | 0 <= k < |said| ensures PlainName(said[k].name) && AllCarried(t, said[k].pairs) {
      var c := Expected(said)[k];
      assert c in Expected(said);
      forall j | 0 <= j < |said[k].pairs| ensures Carried(t, said[k].pairs[j]) {
        CollectedValue(said[k].pairs, map[], j);
      }
    }
  }

  /** So the key `</function`, though trimmed and free of `>`, does not come back: with the `>` behind
      it, it ends its call. */
  lemma QwenKeyIsLost(value: string)
    ensures PlainName("</function") && Proper(QWEN)
    ensures var said := [Said("f", [Pair("</function", value)], "")];
      Calls(QWEN, SaidText(QWEN, said), 0) != Expected(said)
  {
    hide KeySafe, Calls, Expected, SaidText, PlainName;
    QwenTagsGood();
    LostKey();
    var p := Pair("</function", value);
    var said := [Said("f", [p], "")];
    assert !AllSaidPlain(QWEN, said) by {
      assert said[0].pairs[0] == p && !PlainPair(QWEN, p);
    }
    assert Without("", QWEN.function_);
    ReplyReadsExactly("", said);
    assert "" + SaidText(QWEN, said) == SaidText(QWEN, said);
  }

  lemma LostKey()
    ensures PlainName("</function") && forall value :: !KeySafe(QWEN, Pair("</function", value))
  {
    var key := "</function";
    assert key + ">" == QWEN.functionEnd;
    assert (key + ">")[0..|key + ">"|] == key + ">";
    assert OccursAt(key + ">", QWEN.functionEnd, 0);
  }
}
