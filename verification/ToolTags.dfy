/** The opening tag of a tool response and the attributes read back from it
    (`src/server/sessions/tool_history.cpp`). */
module ToolTags {
  import opened Strings
  import opened TextSearch

  const DETAIL_CHARS: nat := 160
  const NAME_CHARS: nat := 64

  predicate NameChar(c: char) {
    IsAlnum(c) || c == '_' || c == '-'
  }

  predicate SafeName(name: string) {
    0 < |name| <= NAME_CHARS && forall i :: 0 <= i < |name| ==> NameChar(name[i])
  }

  predicate EndsLine(c: char) {
    c == '\n' || c == '\r'
  }

  /** The length of the first line, cut at the limit. */
  function CutAt(text: string, i: nat): (r: nat)
    requires i <= |text|
    ensures i <= r <= |text|
    decreases |text| - i
  {
    if i < |text| && !EndsLine(text[i]) && i < DETAIL_CHARS then CutAt(text, i + 1) else i
  }

  function Harmless(c: char): char {
    if c == '"' || c == '<' || c == '>' || c == '\t' then ' ' else c
  }

  function Cleaned(text: string): (r: string)
    ensures |r| == CutAt(text, 0)
  {
    seq(CutAt(text, 0), i requires 0 <= i < CutAt(text, 0) => Harmless(text[i]))
  }

  function DropBack(s: string): string {
    if s != "" && s[|s| - 1] == ' ' then DropBack(s[..|s| - 1]) else s
  }

  function DropFront(s: string): string {
    if s != "" && s[0] == ' ' then DropFront(s[1..]) else s
  }

  function Sanitized(text: string): string {
    DropFront(DropBack(Cleaned(text)))
  }

  method SanitizeDetail(text: string) returns (out: string)
    ensures out == Sanitized(text)
  {
    out := "";
    var i := 0;
    while i < |text|
      invariant i <= |text| && i <= DETAIL_CHARS && |out| == i && CutAt(text, i) == CutAt(text, 0)
      invariant forall k :: 0 <= k < i ==> out[k] == Harmless(text[k])
    {
      var c := text[i];
      if c == '\n' || c == '\r' {
        break;
      }
      if |out| == DETAIL_CHARS {
        break;
      }
      out := out + [if c == '"' || c == '<' || c == '>' || c == '\t' then ' ' else c];
      i := i + 1;
    }
    assert out == Cleaned(text);
    while out != "" && out[|out| - 1] == ' '
      invariant DropBack(out) == DropBack(Cleaned(text))
      decreases |out|
    {
      out := out[..|out| - 1];
    }
    while out != "" && out[0] == ' '
      invariant DropFront(out) == Sanitized(text)
      decreases |out|
    {
      out := out[1..];
    }
  }

  /** One line of at most the allowed length that can stand between quotes in a tag, with no space
      at either end. */
  predicate CleanDetail(s: string) {
    && |s| <= DETAIL_CHARS
    && (forall i :: 0 <= i < |s| ==> !EndsLine(s[i]) && Harmless(s[i]) == s[i])
    && (s != "" ==> s[0] != ' ' && s[|s| - 1] != ' ')
  }

  lemma {:induction false} CutBound(text: string, i: nat)
    requires i <= |text| && i <= DETAIL_CHARS
    ensures CutAt(text, i) <= DETAIL_CHARS && forall k :: i <= k < CutAt(text, i) ==> !EndsLine(text[k])
    decreases |text| - i
  {
    if i < |text| && !EndsLine(text[i]) && i < DETAIL_CHARS {
      CutBound(text, i + 1);
    }
  }

  predicate Part(part: string, whole: string) {
    |part| <= |whole| && forall i :: 0 <= i < |part| ==> part[i] in whole
  }

  lemma {:induction false} DropBackPart(s: string)
    ensures Part(DropBack(s), s) && (DropBack(s) != "" ==> DropBack(s)[|DropBack(s)| - 1] != ' ')
    decreases |s|
  {
    if s != "" && s[|s| - 1] == ' ' {
      DropBackPart(s[..|s| - 1]);
    }
  }

  lemma {:induction false} DropFrontPart(s: string)
    ensures Part(DropFront(s), s) && (DropFront(s) != "" ==> DropFront(s)[0] != ' ')
    ensures DropFront(s) != "" ==> DropFront(s)[|DropFront(s)| - 1] == s[|s| - 1]
    decreases |s|
  {
    if s != "" && s[0] == ' ' {
      DropFrontPart(s[1..]);
    }
  }

  /** Sanitizing yields a clean detail from any text. */
  lemma SanitizedClean(text: string)
    ensures CleanDetail(Sanitized(text))
  {
    var cleaned := Cleaned(text);
    CutBound(text, 0);
    assert forall c :: c in cleaned ==> !EndsLine(c) && Harmless(c) == c;
    DropBackPart(cleaned);
    var back := DropBack(cleaned);
    DropFrontPart(back);
    assert forall c :: c in back ==> c in cleaned;
  }

  // ---------------------------------------------------------------------------------------
  // Tags
  // ---------------------------------------------------------------------------------------

  function Tag(name: string, detail: string): string {
    "<tool_response"
    + ((if name == "" then "" else " name=\"" + (name + "\""))
       + ((if detail == "" then "" else " detail=\"" + (detail + "\"")) + ">"))
  }

  /** `tool_response_open`: the name is only shown when it is safe, the detail when any is left. */
  function OpenTag(name: string, detail: string): string {
    Tag(if SafeName(name) then name else "", Sanitized(detail))
  }

  method ToolResponseOpen(name: string, detail: string) returns (tag: string)
    ensures tag == OpenTag(name, detail)
  {
    var named := SafeName(name);
    var clean := SanitizeDetail(detail);
    if !named && clean == "" {
      return "<tool_response>";
    }
    tag := "<tool_response";
    if named {
      tag := tag + (" name=\"" + name + "\"");
    }
    if clean != "" {
      tag := tag + (" detail=\"" + clean + "\"");
    }
    tag := tag + ">";
  }

  function Attribute(tag: string, key: string): string {
    var needle := key + "=\"";
    match Find(tag, needle, 0)
    case None => ""
    case Some(pos) =>
      var start := pos + |needle|;
      match FindChar(tag, '"', start)
      case None => ""
      case Some(end) => tag[start..end]
  }

  predicate NoQuote(s: string) {
    forall i :: 0 <= i < |s| ==> s[i] != '"'
  }

  /** Where an attribute is found, a quote, an equals sign and the last letter of the key stand. */
  lemma NeedleAt(tag: string, key: string, i: nat)
    requires key != "" && OccursAt(tag, key + "=\"", i)
    ensures var q := i + |key| + 1; tag[q] == '"' && tag[q - 1] == '=' && tag[q - 2] == key[|key| - 1]
  {
    var needle := key + "=\"";
    OccursChar(tag, needle, i, |key| + 1);
    OccursChar(tag, needle, i, |key|);
    OccursChar(tag, needle, i, |key| - 1);
  }

  /** An attribute is the text between the quotes behind its first occurrence. */
  lemma AttributeIs(tag: string, key: string, i: nat, value: string)
    requires OccursAt(tag, key + "=\"", i) && forall k :: 0 <= k < i ==> !OccursAt(tag, key + "=\"", k)
    requires NoQuote(value)
    requires var start := i + |key| + 2; start + |value| < |tag| && tag[start..start + |value|] == value && tag[start + |value|] == '"'
    ensures Attribute(tag, key) == value
  {
    var start := i + |key| + 2;
    FindIs(tag, key + "=\"", 0, i);
    forall k | start <= k < start + |value| ensures tag[k] != '"' {
      assert tag[k] == tag[start..start + |value|][k - start];
    }
    FindCharIs(tag, '"', start, start + |value|);
  }

  /** The tag up to the detail: no quote but those around the name. */
  function Front(name: string): string {
    "<tool_response" + (if name == "" then "" else " name=\"" + (name + "\""))
  }

  function Back(detail: string): string {
    (if detail == "" then "" else " detail=\"" + (detail + "\"")) + ">"
  }

  lemma TagIs(name: string, detail: string)
    ensures Tag(name, detail) == Front(name) + Back(detail)
  {
  }

  lemma FrontChars(name: string)
    requires NoQuote(name) && name != ""
    ensures var f, n := Front(name), |name|;
      && |f| == 22 + n && f[15..21] == "name=\"" && f[21..21 + n] == name && f[21 + n] == '"' && f[18] == 'e'
      && forall j :: 0 <= j < |f| && f[j] == '"' ==> j == 20 || j == 21 + n
  {
    var f, n := Front(name), |name|;
    assert f == "<tool_response name=\"" + (name + "\"");
    assert f[21..21 + n] == name;
    assert forall j :: 0 <= j < 20 ==> "<tool_response name=\""[j] != '"';
  }

  lemma BackChars(detail: string)
    requires NoQuote(detail) && detail != ""
    ensures var b, d := Back(detail), |detail|;
      && |b| == 11 + d && b[1..9] == "detail=\"" && b[9..9 + d] == detail && b[9 + d] == '"' && b[6] == 'l' && b[10 + d] == '>'
      && forall j :: 0 <= j < |b| && b[j] == '"' ==> j == 8 || j == 9 + d
  {
    var b, d := Back(detail), |detail|;
    assert b == " detail=\"" + (detail + "\">");
    assert b[9..9 + d] == detail;
    assert forall j :: 0 <= j < 8 ==> " detail=\""[j] != '"';
  }

  lemma NameAttribute(name: string, detail: string)
    requires SafeName(name) && NoQuote(detail)
    ensures Attribute(Tag(name, detail), "name") == name
  {
    var tag, f, n := Tag(name, detail), Front(name), |name|;
    TagIs(name, detail);
    FrontChars(name);
    assert tag[15..21] == f[15..21] && tag[21..21 + n] == f[21..21 + n] && tag[21 + n] == '"';
    assert "name" + "=\"" == "name=\"";
    forall k | 0 <= k < 15 ensures !OccursAt(tag, "name=\"", k) {
      if OccursAt(tag, "name=\"", k) {
        assert tag[k + 5] == f[k + 5];
        NeedleAt(tag, "name", k);
      }
    }
    AttributeIs(tag, "name", 15, name);
  }

  /** Without a name the tag has no name to read, whatever the detail looks like. */
  lemma NoNameAttribute(detail: string)
    requires NoQuote(detail)
    ensures Attribute(Tag("", detail), "name") == ""
  {
    var tag := Tag("", detail);
    TagIs("", detail);
    assert "name" + "=\"" == "name=\"";
    match Find(tag, "name=\"", 0)
    case None =>
    case Some(pos) =>
      NeedleAt(tag, "name", pos);
      if detail != "" {
        NoQuoteBehind(detail, pos);
        FindCharNone(tag, '"', pos + 6);
      }
  }

  /** What looks like a name inside the detail ends with the quote that ends the detail. */
  lemma NoQuoteBehind(detail: string, pos: nat)
    requires NoQuote(detail) && detail != ""
    requires var tag := Tag("", detail);
      pos + 5 < |tag| && tag[pos + 5] == '"' && tag[pos + 3] == 'e'
    ensures var tag := Tag("", detail); forall k :: pos + 6 <= k < |tag| ==> tag[k] != '"'
  {
    var tag, b := Tag("", detail), Back(detail);
    TagIs("", detail);
    assert Front("") == "<tool_response";
    BackChars(detail);
    assert forall k :: 0 <= k < |tag| && tag[k] == '"' ==> k >= 14 && tag[k] == b[k - 14];
    assert tag[pos + 3] == b[pos + 3 - 14];
  }

  lemma NoDetailAttribute(name: string)
    requires name == "" || SafeName(name)
    ensures Attribute(Tag(name, ""), "detail") == ""
  {
    var tag, f := Tag(name, ""), Front(name);
    TagIs(name, "");
    assert "detail" + "=\"" == "detail=\"" && tag == f + ">";
    forall k | 0 <= k ensures !OccursAt(tag, "detail=\"", k) {
      if OccursAt(tag, "detail=\"", k) {
        assert tag[k + 7] == (f + ">")[k + 7] && tag[k + 6] == (f + ">")[k + 6] && tag[k + 5] == (f + ">")[k + 5];
        if name != "" {
          FrontChars(name);
        }
        NeedleAt(tag, "detail", k);
      }
    }
  }

  lemma DetailAttribute(name: string, detail: string)
    requires (name == "" || SafeName(name)) && NoQuote(detail) && detail != ""
    ensures Attribute(Tag(name, detail), "detail") == detail
  {
    var tag, f, b, n, d := Tag(name, detail), Front(name), Back(detail), |Front(name)|, |detail|;
    TagIs(name, detail);
    BackChars(detail);
    assert "detail" + "=\"" == "detail=\"";
    assert tag[n + 1..n + 9] == b[1..9] && tag[n + 9..n + 9 + d] == b[9..9 + d] && tag[n + 9 + d] == '"';
    forall k | 0 <= k < n + 1 ensures !OccursAt(tag, "detail=\"", k) {
      if OccursAt(tag, "detail=\"", k) {
        QuoteBefore(name, detail, k);
        NeedleAt(tag, "detail", k);
      }
    }
    AttributeIs(tag, "detail", n + 1, detail);
  }

  /** No quote before the one that opens the detail has `l=` in front of it. */
  lemma QuoteBefore(name: string, detail: string, k: nat)
    requires (name == "" || SafeName(name)) && NoQuote(detail) && detail != "" && k < |Front(name)| + 1
    ensures k + 8 <= |Tag(name, detail)|
    ensures Tag(name, detail)[k + 7] == '"' ==> Tag(name, detail)[k + 6] != '=' || Tag(name, detail)[k + 5] != 'l'
  {
    var tag, f, b, n := Tag(name, detail), Front(name), Back(detail), |Front(name)|;
    TagIs(name, detail);
    BackChars(detail);
    if name != "" {
      FrontChars(name);
    }
    if k + 7 < n {
      assert tag[k + 7] == f[k + 7] && tag[k + 6] == f[k + 6] && tag[k + 5] == f[k + 5];
    } else {
      assert tag[k + 7] == b[k + 7 - n];
    }
  }

  /** Both attributes of a printed tag are read back: the name when it is safe, and the sanitized
      detail. */
  lemma AttributesReadBack(name: string, detail: string)
    ensures Attribute(OpenTag(name, detail), "name") == if SafeName(name) then name else ""
    ensures Attribute(OpenTag(name, detail), "detail") == Sanitized(detail)
  {
    var shown, clean := if SafeName(name) then name else "", Sanitized(detail);
    SanitizedClean(detail);
    assert NoQuote(clean) by {
      forall i | 0 <= i < |clean| ensures clean[i] != '"' {
        assert Harmless(clean[i]) == clean[i];
      }
    }
    if SafeName(name) {
      NameAttribute(name, clean);
    } else {
      NoNameAttribute(clean);
    }
    if clean == "" {
      NoDetailAttribute(shown);
    } else {
      DetailAttribute(shown, clean);
    }
  }
}
