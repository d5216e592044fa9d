/** Finding the end of a JSON value in running text (`json_value_end` in
    `src/common/devstral_call.hpp`). */
module JsonScan {
  import opened Strings
  import opened JsonText

  function SkipSpaces(text: string, from: nat): (r: nat)
    ensures r >= from && (from <= |text| ==> r <= |text|)
    decreases |text| - from
  {
    if from < |text| && IsSpace(text[from]) then SkipSpaces(text, from + 1) else from
  }

  lemma {:induction false} SkipSpacesIs(text: string, from: nat, to: nat)
    requires from <= to < |text| && !IsSpace(text[to])
    requires forall k :: from <= k < to ==> IsSpace(text[k])
    ensures SkipSpaces(text, from) == to
    decreases |text| - from
  {
    if from < to {
      SkipSpacesIs(text, from + 1, to);
    }
  }

  /** Open braces and brackets, and where the scanner stands in a string. */
  datatype Depth = Depth(braces: nat, brackets: nat, inString: bool, escape: bool)

  const START := Depth(0, 0, false, false)

  /** The scanner behind one more byte; None where a brace or bracket closes nothing. */
  function Next(d: Depth, ch: char): Option<Depth> {
    if d.inString then
      if d.escape then Some(d.(escape := false))
      else if ch == '\\' then Some(d.(escape := true))
      else if ch == '"' then Some(d.(inString := false))
      else Some(d)
    else if ch == '"' then Some(d.(inString := true))
    else if ch == '{' then Some(d.(braces := d.braces + 1))
    else if ch == '}' then if d.braces == 0 then None else Some(d.(braces := d.braces - 1))
    else if ch == '[' then Some(d.(brackets := d.brackets + 1))
    else if ch == ']' then if d.brackets == 0 then None else Some(d.(brackets := d.brackets - 1))
    else Some(d)
  }

  /** Outside all strings, braces and brackets. */
  predicate Balanced(d: Depth) {
    !d.inString && d.braces == 0 && d.brackets == 0
  }

  /** The end of the value the scanner is inside of at `i`. */
  function Scan(text: string, i: nat, d: Depth): (r: Option<nat>)
    ensures r.Some? ==> i < r.value <= |text|
    decreases |text| - i
  {
    if i >= |text| then None
    else match Next(d, text[i])
      case None => None
      case Some(next) => if !d.inString && Balanced(next) then Some(i + 1) else Scan(text, i + 1, next)
  }

  /** The index behind the object or array at `from`, blanks skipped. */
  function ValueEnd(text: string, from: nat): (r: Option<nat>)
    ensures r.Some? ==> from < r.value <= |text|
  {
    var start := SkipSpaces(text, from);
    if start >= |text| || (text[start] != '{' && text[start] != '[') then None else Scan(text, start, START)
  }

  method JsonValueEnd(text: string, at: nat) returns (r: Option<nat>)
    ensures r == ValueEnd(text, at)
  {
    var from := at;
    while from < |text| && IsSpace(text[from])
      invariant from >= at && SkipSpaces(text, from) == SkipSpaces(text, at)
      decreases |text| - from
    {
      from := from + 1;
    }
    if from >= |text| || (text[from] != '{' && text[from] != '[') {
      return None;
    }
    var braces, brackets, inString, escape := 0, 0, false, false;
    for i := from to |text|
      invariant braces >= 0 && brackets >= 0
      invariant Scan(text, from, START) == Scan(text, i, Depth(braces, brackets, inString, escape))
    {
      var ch := text[i];
      ghost var d := Depth(braces, brackets, inString, escape);
      assert Scan(text, i, d) == match Next(d, ch) case None => None case Some(next) =>
        if !inString && Balanced(next) then Some(i + 1) else Scan(text, i + 1, next);
      if inString {
        if escape {
          escape := false;
          continue;
        }
        if ch == '\\' {
          escape := true;
          continue;
        }
        if ch == '"' {
          inString := false;
        }
        continue;
      }
      if ch == '"' {
        inString := true;
        continue;
      }
      if ch == '{' {
        braces := braces + 1;
      } else if ch == '}' {
        if braces == 0 {
          return None;
        }
        braces := braces - 1;
      } else if ch == '[' {
        brackets := brackets + 1;
      } else if ch == ']' {
        if brackets == 0 {
          return None;
        }
        brackets := brackets - 1;
      }
      if braces == 0 && brackets == 0 {
        return Some(i + 1);
      }
    }
    r := None;
  }

  // ---------------------------------------------------------------------------------------
  // Well-formed values
  // ---------------------------------------------------------------------------------------

  predicate Inside(d: Depth) {
    !d.inString && !d.escape && d.braces + d.brackets > 0
  }

  /** The scanner behind `s`; None when it stops before the end of `s`. */
  function Walk(d: Depth, s: string): Option<Depth>
    decreases |s|
  {
    if s == "" then Some(d)
    else match Next(d, s[0])
      case None => None
      case Some(next) => if !d.inString && Balanced(next) then None else Walk(next, s[1..])
  }

  /** Behind `s` the scanner is as deep as before it. */
  predicate Keeps(d: Depth, s: string) {
    Walk(d, s) == Some(d)
  }

  lemma {:induction false} WalkAppend(d: Depth, a: string, b: string)
    ensures Walk(d, a + b) == match Walk(d, a) case None => None case Some(mid) => Walk(mid, b)
    decreases |a|
  {
    if a == "" {
      assert a + b == b;
    } else {
      assert (a + b)[0] == a[0] && (a + b)[1..] == a[1..] + b;
      match Next(d, a[0])
      case None =>
      case Some(next) => WalkAppend(next, a[1..], b);
    }
  }

  lemma KeepsBoth(d: Depth, a: string, b: string)
    requires Keeps(d, a) && Keeps(d, b)
    ensures Keeps(d, a + b)
  {
    WalkAppend(d, a, b);
  }

  /** A scan passes over what a walk passes over. */
  lemma {:induction false} ScanWalk(text: string, i: nat, piece: string, d: Depth)
    requires i + |piece| <= |text| && text[i..i + |piece|] == piece && Walk(d, piece).Some?
    ensures Scan(text, i, d) == Scan(text, i + |piece|, Walk(d, piece).value)
    decreases |piece|
  {
    if piece != "" {
      assert text[i] == text[i..i + |piece|][0] == piece[0];
      assert text[i + 1..i + |piece|] == piece[1..];
      ScanWalk(text, i + 1, piece[1..], Next(d, piece[0]).value);
    }
  }

  lemma {:induction false} InertKeeps(d: Depth, s: string)
    requires Inside(d) && Inert(s)
    ensures Keeps(d, s)
  {
    if s != "" {
      InertKeeps(d, s[1..]);
    }
  }

  lemma BlankKeeps(d: Depth, s: string)
    requires Inside(d) && Blank(s)
    ensures Keeps(d, s)
  {
    InertKeeps(d, s);
  }

  lemma {:induction false} HexThenBody(s: string, n: nat)
    requires n <= 4 && |s| >= n && (forall i :: 0 <= i < n ==> IsHex(s[i])) && StringBody(s[n..])
    ensures StringBody(s)
    decreases n
  {
    if n > 0 {
      assert s[1..][n - 1..] == s[n..];
      HexThenBody(s[1..], n - 1);
    }
  }

  /** Inside a string nothing but its closing quote ends it. */
  lemma {:induction false} BodyKeeps(d: Depth, body: string)
    requires d.inString && !d.escape && StringBody(body)
    ensures Keeps(d, body)
    decreases |body|
  {
    if body != "" {
      if body[0] == '\\' {
        assert body[1..][0] == body[1] && body[1..][1..] == body[2..];
        if body[1] == 'u' {
          assert body[2..][4..] == body[6..];
          HexThenBody(body[2..], 4);
        }
        BodyKeeps(d, body[2..]);
      } else {
        BodyKeeps(d, body[1..]);
      }
    }
  }

  lemma QuotedKeeps(d: Depth, body: string)
    requires Inside(d) && StringBody(body)
    ensures Keeps(d, Quoted(body))
  {
    var inner := d.(inString := true);
    BodyKeeps(inner, body);
    WalkAppend(inner, body, "\"");
    assert Quoted(body)[1..] == body + "\"";
  }

  /** The scanner behind an opening brace or bracket. */
  function Deeper(d: Depth, v: Json): Depth
    requires v.Arr? || v.Obj?
  {
    if v.Arr? then d.(brackets := d.brackets + 1) else d.(braces := d.braces + 1)
  }

  /** What stands between the opening and the closing character. */
  function Content(v: Json): string
    requires v.Arr? || v.Obj?
  {
    if v.Arr? then v.blank + ItemsText(v.items) else v.blank + MembersText(v.members)
  }

  lemma TextIs(v: Json)
    requires v.Arr? || v.Obj?
    ensures Text(v) == (if v.Arr? then "[" else "{") + Content(v) + (if v.Arr? then "]" else "}")
  {
  }

  lemma {:induction false} ItemsKeep(d: Depth, items: Items)
    requires Inside(d) && ItemsWellFormed(items)
    ensures Keeps(d, ItemsText(items))
    decreases items, 0
  {
    match items
    case NoItem =>
    case Item(value, blank, separator, rest) =>
      var more := if rest.NoItem? then "" else "," + (separator + ItemsText(rest));
      assert Keeps(d, more) by {
        if !rest.NoItem? {
          ItemsKeep(d, rest);
          BlankKeeps(d, separator);
          KeepsBoth(d, separator, ItemsText(rest));
          InertKeeps(d, ",");
          KeepsBoth(d, ",", separator + ItemsText(rest));
        }
      }
      ValueThen(d, value, blank, more);
  }

  lemma {:induction false} ValueThen(d: Depth, v: Json, blank: string, more: string)
    requires Inside(d) && WellFormed(v) && Blank(blank) && Keeps(d, more)
    ensures Keeps(d, Text(v) + (blank + more))
    decreases v, 2
  {
    ValueKeeps(d, v);
    BlankKeeps(d, blank);
    KeepsBoth(d, blank, more);
    KeepsBoth(d, Text(v), blank + more);
  }

  lemma NameThen(d: Depth, name: string, afterName: string, afterColon: string, more: string)
    requires Inside(d) && StringBody(name) && Blank(afterName) && Blank(afterColon) && Keeps(d, more)
    ensures Keeps(d, Quoted(name) + (afterName + (":" + (afterColon + more))))
  {
    BlankKeeps(d, afterColon);
    KeepsBoth(d, afterColon, more);
    InertKeeps(d, ":");
    KeepsBoth(d, ":", afterColon + more);
    BlankKeeps(d, afterName);
    KeepsBoth(d, afterName, ":" + (afterColon + more));
    QuotedKeeps(d, name);
    KeepsBoth(d, Quoted(name), afterName + (":" + (afterColon + more)));
  }

  lemma {:induction false} MembersKeep(d: Depth, members: Members)
    requires Inside(d) && MembersWellFormed(members)
    ensures Keeps(d, MembersText(members))
    decreases members, 0
  {
    match members
    case NoMember =>
    case Member(name, afterName, afterColon, value, blank, separator, rest) =>
      var more := if rest.NoMember? then "" else "," + (separator + MembersText(rest));
      assert Keeps(d, more) by {
        if !rest.NoMember? {
          MembersKeep(d, rest);
          BlankKeeps(d, separator);
          KeepsBoth(d, separator, MembersText(rest));
          InertKeeps(d, ",");
          KeepsBoth(d, ",", separator + MembersText(rest));
        }
      }
      ValueThen(d, value, blank, more);
      NameThen(d, name, afterName, afterColon, Text(value) + (blank + more));
  }

  lemma {:induction false} ContentKeeps(inner: Depth, v: Json)
    requires Inside(inner) && WellFormed(v) && (v.Arr? || v.Obj?)
    ensures Keeps(inner, Content(v))
    decreases v, 0
  {
    BlankKeeps(inner, v.blank);
    if v.Arr? {
      ItemsKeep(inner, v.items);
      KeepsBoth(inner, v.blank, ItemsText(v.items));
    } else {
      MembersKeep(inner, v.members);
      KeepsBoth(inner, v.blank, MembersText(v.members));
    }
  }

  lemma ClosedKeeps(d: Depth, v: Json)
    requires Inside(d) && (v.Arr? || v.Obj?) && Keeps(Deeper(d, v), Content(v))
    ensures Keeps(d, Text(v))
  {
    var open, close := if v.Arr? then "[" else "{", if v.Arr? then "]" else "}";
    TextIs(v);
    assert open[1..] == "" && close[1..] == "";
    WalkAppend(d, open, Content(v));
    WalkAppend(d, open + Content(v), close);
  }

  /** A well-formed value inside another one leaves the scanner as deep as it was. */
  lemma {:induction false} ValueKeeps(d: Depth, v: Json)
    requires Inside(d) && WellFormed(v)
    ensures Keeps(d, Text(v))
    decreases v, 1
  {
    match v
    case Atom(s) =>
      ScalarInert(s);
      InertKeeps(d, s);
    case Str(body) =>
      QuotedKeeps(d, body);
    case Arr(_, _) =>
      ContentKeeps(Deeper(d, v), v);
      ClosedKeeps(d, v);
    case Obj(_, _) =>
      ContentKeeps(Deeper(d, v), v);
      ClosedKeeps(d, v);
  }

  function Opening(v: Json): string
    requires v.Arr? || v.Obj?
  {
    if v.Arr? then "[" else "{"
  }

  lemma OpeningWalks(v: Json)
    requires WellFormed(v) && (v.Arr? || v.Obj?)
    ensures Walk(START, Opening(v) + Content(v)) == Some(Deeper(START, v))
  {
    ContentKeeps(Deeper(START, v), v);
    assert Opening(v)[1..] == "";
    WalkAppend(START, Opening(v), Content(v));
  }

  lemma SliceStart(text: string, i: nat, front: string, close: char)
    requires i + |front| < |text| && text[i..i + |front| + 1] == front + [close]
    ensures text[i..i + |front|] == front && text[i + |front|] == close
  {
    var t := text[i..i + |front| + 1];
    assert text[i..i + |front|] == t[..|front|];
    assert text[i + |front|] == t[|front|];
  }

  /** The scan ends on the first character that balances it. */
  lemma ScanToEnd(text: string, i: nat, front: string, close: char, d: Depth)
    requires i + |front| < |text| && text[i..i + |front| + 1] == front + [close]
    requires Walk(START, front) == Some(d) && !d.inString && Next(d, close).Some? && Balanced(Next(d, close).value)
    ensures Scan(text, i, START) == Some(i + |front| + 1)
  {
    SliceStart(text, i, front, close);
    ScanWalk(text, i, front, START);
  }

  /** A well-formed object or array is a front the scanner walks over and the character that
      balances it. */
  lemma FrontAndClose(v: Json) returns (front: string, close: char, d: Depth)
    requires WellFormed(v) && (v.Arr? || v.Obj?)
    ensures Text(v) == front + [close] && front != "" && (front[0] == '{' || front[0] == '[')
    ensures Walk(START, front) == Some(d) && !d.inString && Next(d, close).Some? && Balanced(Next(d, close).value)
  {
    front, close, d := Opening(v) + Content(v), if v.Arr? then ']' else '}', Deeper(START, v);
    TextIs(v);
    OpeningWalks(v);
  }

  /** A scan that starts on a well-formed object or array ends right behind it. */
  lemma ScanExact(text: string, i: nat, v: Json)
    requires WellFormed(v) && (v.Arr? || v.Obj?)
    requires i + |Text(v)| <= |text| && text[i..i + |Text(v)|] == Text(v)
    ensures Scan(text, i, START) == Some(i + |Text(v)|) && (text[i] == '{' || text[i] == '[')
  {
    var front, close, d := FrontAndClose(v);
    ScanToEnd(text, i, front, close, d);
    assert text[i] == Text(v)[0] == front[0];
  }

  /** Blanks before the value are skipped. */
  lemma ValueEndAt(text: string, from: nat, i: nat, v: Json)
    requires WellFormed(v) && (v.Arr? || v.Obj?) && from <= i
    requires i + |Text(v)| <= |text| && text[i..i + |Text(v)|] == Text(v)
    requires forall k :: from <= k < i ==> IsSpace(text[k])
    ensures ValueEnd(text, from) == Some(i + |Text(v)|)
  {
    ScanExact(text, i, v);
    SkipSpacesIs(text, from, i);
  }

  /** For every well-formed object or array, whatever blanks stand before it and whatever text
      follows, the scanner finds exactly its end. */
  lemma ValueEndExact(before: string, blanks: string, v: Json, after: string)
    requires WellFormed(v) && (v.Arr? || v.Obj?) && Blank(blanks)
    ensures ValueEnd(before + (blanks + (Text(v) + after)), |before|) == Some(|before| + |blanks| + |Text(v)|)
  {
    var text, i := before + (blanks + (Text(v) + after)), |before| + |blanks|;
    assert text[i..i + |Text(v)|] == Text(v);
    forall k | |before| <= k < i ensures IsSpace(text[k]) {
      assert text[k] == blanks[k - |before|];
    }
    ValueEndAt(text, |before|, i, v);
  }

  /** While the value is still unfinished the scanner finds no end. */
  lemma UnfinishedValue(before: string, v: Json, n: nat)
    requires WellFormed(v) && (v.Arr? || v.Obj?) && n < |Text(v)|
    ensures ValueEnd(before + Text(v)[..n], |before|) == None
  {
    var front, close, d := FrontAndClose(v);
    var text, i := before + Text(v)[..n], |before|;
    assert Text(v)[..n] == front[..n] && front == front[..n] + front[n..];
    WalkAppend(START, front[..n], front[n..]);
    if n > 0 {
      assert text[i] == front[0] && text[i..i + n] == front[..n];
      ScanWalk(text, i, front[..n], START);
    }
  }
}
