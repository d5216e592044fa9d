/** JSON text as RFC 8259 writes it, with every blank and escape kept: sections 2 (grammar and
    blanks), 3 (literals), 4 (objects), 5 (arrays), 6 (numbers) and 7 (strings). */
module JsonText {
  import opened Strings

  /** `body` is the text between the quotes of a string. A blank before or behind a structural
      character is kept with the piece it follows. */
  datatype Json =
    | Atom(text: string)
    | Str(body: string)
    | Arr(blank: string, items: Items)
    | Obj(blank: string, members: Members)

  /** `separator` is the blank behind the comma, when an item follows. */
  datatype Items = NoItem | Item(value: Json, blank: string, separator: string, rest: Items)

  datatype Members =
    | NoMember
    | Member(name: string, afterName: string, afterColon: string, value: Json, blank: string, separator: string, rest: Members)

  function Quoted(body: string): string {
    "\"" + (body + "\"")
  }

  function Text(v: Json): string
    decreases v
  {
    match v
    case Atom(text) => text
    case Str(body) => Quoted(body)
    case Arr(blank, items) => "[" + (blank + (ItemsText(items) + "]"))
    case Obj(blank, members) => "{" + (blank + (MembersText(members) + "}"))
  }

  function ItemsText(items: Items): string
    decreases items
  {
    match items
    case NoItem => ""
    case Item(value, blank, separator, rest) =>
      Text(value) + (blank + (if rest.NoItem? then "" else "," + (separator + ItemsText(rest))))
  }

  function MembersText(members: Members): string
    decreases members
  {
    match members
    case NoMember => ""
    case Member(name, afterName, afterColon, value, blank, separator, rest) =>
      Quoted(name) + (afterName + (":" + (afterColon + (Text(value) + (blank
        + (if rest.NoMember? then "" else "," + (separator + MembersText(rest))))))))
  }

  // ---------------------------------------------------------------------------------------
  // What RFC 8259 allows
  // ---------------------------------------------------------------------------------------

  /** Section 2: `ws`. */
  predicate Blank(s: string) {
    forall i :: 0 <= i < |s| ==> s[i] == ' ' || s[i] == '\t' || s[i] == '\n' || s[i] == '\r'
  }

  predicate IsHex(c: char) {
    IsDigit(c) || 'a' <= c <= 'f' || 'A' <= c <= 'F'
  }

  /** Section 7: characters and escapes. */
  predicate StringBody(s: string) {
    if s == "" then true
    else if s[0] == '\\' then
      && |s| >= 2
      && if s[1] == 'u' then |s| >= 6 && (forall i :: 2 <= i < 6 ==> IsHex(s[i])) && StringBody(s[6..])
         else s[1] in "\"\\/bfnrt" && StringBody(s[2..])
    else s[0] != '"' && s[0] >= ' ' && StringBody(s[1..])
  }

  predicate Digits(s: string) {
    s != "" && forall i :: 0 <= i < |s| ==> IsDigit(s[i])
  }

  /** Section 6: `int`. */
  predicate Integer(s: string) {
    Digits(s) && (s[0] == '0' ==> |s| == 1)
  }

  predicate Fraction(s: string) {
    s == "" || (s[0] == '.' && Digits(s[1..]))
  }

  predicate Exponent(s: string) {
    s == "" || ((s[0] == 'e' || s[0] == 'E') && |s| >= 2 && (Digits(s[1..]) || ((s[1] == '+' || s[1] == '-') && Digits(s[2..]))))
  }

  /** Section 6: `[ minus ] int [ frac ] [ exp ]`, cut at `i` and `j`. */
  predicate NumberCut(s: string, i: nat, j: nat) {
    i <= j <= |s| && Integer(s[..i]) && Fraction(s[i..j]) && Exponent(s[j..])
  }

  ghost predicate Number(s: string) {
    var unsigned := Unsigned(s);
    exists i: nat, j: nat :: NumberCut(unsigned, i, j)
  }

  function Unsigned(s: string): string {
    if s != "" && s[0] == '-' then s[1..] else s
  }

  /** Sections 3 and 6. */
  ghost predicate Scalar(s: string) {
    s == "true" || s == "false" || s == "null" || Number(s)
  }

  ghost predicate WellFormed(v: Json)
    decreases v
  {
    match v
    case Atom(text) => Scalar(text)
    case Str(body) => StringBody(body)
    case Arr(blank, items) => Blank(blank) && ItemsWellFormed(items)
    case Obj(blank, members) => Blank(blank) && MembersWellFormed(members)
  }

  ghost predicate ItemsWellFormed(items: Items)
    decreases items
  {
    match items
    case NoItem => true
    case Item(value, blank, separator, rest) =>
      WellFormed(value) && Blank(blank) && Blank(separator) && ItemsWellFormed(rest)
  }

  ghost predicate MembersWellFormed(members: Members)
    decreases members
  {
    match members
    case NoMember => true
    case Member(name, afterName, afterColon, value, blank, separator, rest) =>
      && StringBody(name) && Blank(afterName) && Blank(afterColon) && WellFormed(value)
      && Blank(blank) && Blank(separator) && MembersWellFormed(rest)
  }

  /** No quote, brace or bracket. */
  predicate Inert(s: string) {
    forall i :: 0 <= i < |s| ==> s[i] != '"' && s[i] != '{' && s[i] != '}' && s[i] != '[' && s[i] != ']'
  }

  lemma JoinInert(a: string, b: string)
    requires Inert(a) && Inert(b)
    ensures Inert(a + b)
  {
  }

  lemma FractionInert(s: string)
    requires Fraction(s)
    ensures Inert(s)
  {
    if s != "" {
      assert s == [s[0]] + s[1..];
    }
  }

  lemma ExponentInert(s: string)
    requires Exponent(s)
    ensures Inert(s)
  {
    if s != "" {
      if Digits(s[1..]) {
        assert s == [s[0]] + s[1..];
      } else {
        assert s == [s[0], s[1]] + s[2..];
      }
    }
  }

  /** Literals and numbers hold no character the scanner looks at. */
  lemma ScalarInert(s: string)
    requires Scalar(s)
    ensures Inert(s)
  {
    if Number(s) {
      var body := Unsigned(s);
      var i: nat, j: nat :| NumberCut(body, i, j);
      FractionInert(body[i..j]);
      ExponentInert(body[j..]);
      assert Inert(body[..i]);
      assert body == body[..i] + body[i..j] + body[j..];
      JoinInert(body[..i], body[i..j]);
      JoinInert(body[..i] + body[i..j], body[j..]);
      if s != body {
        assert s == "-" + body;
        JoinInert("-", body);
      }
    }
  }
}
