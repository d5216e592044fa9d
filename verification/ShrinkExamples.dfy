/** A text that goes on changing when its tool responses are shrunk a second time
    (`src/server/sessions/tool_history.cpp`). Its tag was not printed by `tool_response_open`. */
module ShrinkExamples {
  import opened Strings
  import opened TextSearch
  import opened Trimming
  import opened ToolTags
  import opened ToolHistory
  import opened HistoryLaws

  const DETAIL := "1\n2\n3\n4"
  const TAG := "<tool_response detail=\"1\n2\n3\n4\">"
  const BODY := "a\na\na\na\na"
  const TEXT := TAG + (BODY + "</tool_response>")
  const RECORD := "tool 1\n2\n3\n4, 5 lines"

  // ---------------------------------------------------------------------------------------
  // Lines
  // ---------------------------------------------------------------------------------------

  lemma BodyLines()
    ensures LineCount(BODY) == 5
  {
    hide Newlines;
    OneBreak("a", "a\na\na\na");
    OneBreak("a", "a\na\na");
    OneBreak("a", "a\na");
    OneBreak("a", "a");
    assert BODY == "a" + ("\n" + "a\na\na\na") && "a\na\na\na" == "a" + ("\n" + "a\na\na");
    assert "a\na\na" == "a" + ("\n" + "a\na") && "a\na" == "a" + ("\n" + "a");
  }

  lemma RecordLines()
    ensures LineCount(RECORD) == 4
  {
    hide Newlines;
    var a, b, c := "2\n3\n4, 5 lines", "3\n4, 5 lines", "4, 5 lines";
    assert RECORD == "tool 1" + ("\n" + a);
    assert a == "2" + ("\n" + b);
    assert b == "3" + ("\n" + c);
    OneBreak("tool 1", a);
    OneBreak("2", b);
    OneBreak("3", c);
    OneBreak(c, "");
  }

  // ---------------------------------------------------------------------------------------
  // The tag
  // ---------------------------------------------------------------------------------------

  lemma TagHasNoName()
    ensures Attribute(TAG, "name") == ""
  {
    assert "name" + "=\"" == "name=\"";
    assert forall k :: 0 <= k < |TAG| ==> TAG[k] != 'm';
    if Find(TAG, "name=\"", 0).Some? {
      OccursChar(TAG, "name=\"", Find(TAG, "name=\"", 0).value, 2);
    }
  }

  lemma TagHasDetail()
    ensures Attribute(TAG, "detail") == DETAIL
  {
    assert "detail" + "=\"" == "detail=\"";
    assert forall k :: 0 <= k < 15 ==> TAG[k] != 'd';
    forall k | 0 <= k < 15 ensures !OccursAt(TAG, "detail=\"", k) {
      if OccursAt(TAG, "detail=\"", k) {
        OccursChar(TAG, "detail=\"", k, 0);
      }
    }
    assert TAG[15..23] == "detail=\"" && TAG[23..30] == DETAIL && TAG[30] == '"';
    AttributeIs(TAG, "detail", 15, DETAIL);
  }

  // ---------------------------------------------------------------------------------------
  // Shrinking it
  // ---------------------------------------------------------------------------------------

  lemma WholeTrim(s: string)
    requires s != "" && !IsBlank(s[0]) && !IsBlank(s[|s| - 1])
    ensures Trim(s) == s && Trim("\n" + (s + "\n")) == s
  {
    var kept := TrimKeeps(s, "");
    assert s + "" == s && s + kept == s;
    var t := "\n" + (s + "\n");
    assert FirstNotBlank(t, 1) == 1 && FirstNotBlank(t, 0) == 1;
    assert LastNotBlank(t, |t| - 1) == |t| - 1;
    assert t[1..|t| - 1] == s;
  }

  lemma NoWindow(body: string)
    requires body != "" && body[0] != 'l'
    ensures LineWindow(body) == ""
  {
    FirstLinePart(body);
  }

  lemma NotKept(raw: string, body: string)
    requires Trim(raw) == body && '\n' in body && LineCount(body) > KEEP_LINES
    ensures !Kept(TAG, raw)
  {
    TagHasNoName();
    assert forall name :: name in SUBAGENT_NAMES ==> |name| > 0;
  }

  lemma Amounts()
    ensures Amount(BODY) == "5 lines" && Amount(RECORD) == "4 lines"
  {
    hide LineWindow, LineCount;
    NoWindow(BODY);
    NoWindow(RECORD);
    BodyLines();
    RecordLines();
    assert Decimal(5) + " lines" == "5 lines" && Decimal(4) + " lines" == "4 lines";
  }

  lemma BodyShrunk()
    ensures ShrunkRaw(TAG, BODY) == "\n" + (RECORD + "\n") && !Kept(TAG, BODY)
  {
    hide Trim, LineCount, Kept, Amount, Attribute;
    WholeTrim(BODY);
    BodyLines();
    assert BODY[1] == '\n';
    NotKept(BODY, BODY);
    TagHasNoName();
    TagHasDetail();
    Amounts();
    assert "tool" + (" " + DETAIL) + (", " + "5 lines") == RECORD;
  }

  lemma BodyNotSettled()
    ensures !Settles(TAG, BODY)
  {
    hide Trim, LineCount, Kept, Amount, Attribute, ShrunkRaw;
    BodyShrunk();
    WholeTrim(BODY);
    WholeTrim(RECORD);
    RecordLines();
    assert RECORD[6] == '\n';
    NotKept("\n" + (RECORD + "\n"), RECORD);
    Amounts();
    assert "5 lines"[0] != "4 lines"[0];
  }

  /** A mark with a slash behind its first character is not in a text without slashes. */
  lemma NoSlash(s: string, mark: string)
    requires |mark| >= 2 && mark[1] == '/' && forall k :: 0 <= k < |s| ==> s[k] != '/'
    ensures Without(s, mark)
  {
    forall i | 0 <= i < |s| ensures !OccursAt(s, mark, i) {
      if OccursAt(s, mark, i) {
        OccursChar(s, mark, i, 1);
      }
    }
  }

  lemma TagFits()
    ensures TagShape(TOOL_RESPONSE, TAG) && Without(TAG + BODY, TOOL_RESPONSE.close)
  {
    assert TAG[..14] == "<tool_response";
    assert forall k :: 0 <= k < |TAG| ==> TAG[k] != '/';
    assert forall k :: 0 <= k < |BODY| ==> BODY[k] != '/';
    var s, mark := TAG + BODY, "</tool_response>";
    assert forall k :: 0 <= k < |s| ==> s[k] != '/';
    assert mark[1] == '/';
    NoSlash(s, mark);
  }

  lemma TextSplit()
    ensures SplitFrom(TOOL_RESPONSE, TEXT, 0) == Response("", TAG, BODY, Rest(""))
  {
    hide TagShape;
    var f, h := TOOL_RESPONSE, Response("", TAG, BODY, Rest(""));
    ToolResponseGood();
    TagFits();
    assert Canonical(f, h.more) && Render(f, h.more) == "";
    assert Without("", f.open) && Canonical(f, h);
    assert f.close + "" == f.close && "" + (TAG + (BODY + f.close)) == TEXT;
    assert Render(f, h) == TEXT && Ahead(TEXT, 0, TEXT);
    RenderSplits(f, h, TEXT, 0);
  }

  /** Shrinking this text twice is not the same as shrinking it once. */
  lemma BrokenTagShrinksOn()
    ensures Shrink(Shrink(TEXT)) != Shrink(TEXT)
  {
    TextSplit();
    BodyNotSettled();
    ShrinkLocalAndIdempotent(TEXT);
  }
}
