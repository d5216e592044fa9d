/** What a patch says, told from its lines rather than from the state they are read in
    (`src/common/tools/tool_edit_file.cpp`). */
module PatchReading {
  import opened Strings
  import opened TextLines
  import opened HunkPlacement
  import opened PatchParser

  // ---------------------------------------------------------------------------------------
  // Hunk headers
  // ---------------------------------------------------------------------------------------

  /** A whole run of digits: from `i` to `p`, with no digit behind it. */
  predicate Digits(text: string, i: nat, p: nat) {
    i < p <= |text| && (forall k :: i <= k < p ==> '0' <= text[k] <= '9') && (p < |text| ==> !('0' <= text[p] <= '9'))
  }

  /** What the digits are worth. */
  function Worth(digits: string): nat
    requires forall k :: 0 <= k < |digits| ==> '0' <= digits[k] <= '9'
  {
    if digits == "" then 0 else 10 * Worth(digits[..|digits| - 1]) + (digits[|digits| - 1] as nat - '0' as nat)
  }

  /** A comma and digits, or nothing. */
  predicate CountShape(text: string, p: nat, q: nat) {
    if p < |text| && text[p] == ',' then Digits(text, p + 1, q) else q == p
  }

  /** `@@`, any spaces, `-`, a range, ` +`, a range; what follows does not matter. */
  predicate HeaderShape(line: string, m: nat, p: nat, q: nat, r: nat, t: nat) {
    && "@@" <= line && 2 <= m < |line| && (forall k :: 2 <= k < m ==> line[k] == ' ') && line[m] == '-'
    && Digits(line, m + 1, p) && CountShape(line, p, q)
    && q + 1 < |line| && line[q] == ' ' && line[q + 1] == '+' && Digits(line, q + 2, r) && CountShape(line, r, t)
  }

  lemma {:induction false} DigitsFrom(text: string, i: nat, k: nat, p: nat)
    requires Digits(text, i, p) && i <= k <= p
    ensures ReadDigits(text, k, Worth(text[i..k])) == (Worth(text[i..p]), p)
    decreases p - k
  {
    if k < p {
      assert text[i..k + 1][..k - i] == text[i..k] && text[i..k + 1][k - i] == text[k];
      DigitsFrom(text, i, k + 1, p);
    }
  }

  lemma DigitsRead(text: string, i: nat, p: nat)
    requires Digits(text, i, p)
    ensures IntAt(text, i) == Some((Worth(text[i..p]), p))
  {
    assert text[i..i] == "";
    DigitsFrom(text, i, i, p);
  }

  lemma {:induction false} RunOfDigits(text: string, i: nat, value: nat)
    ensures var p := ReadDigits(text, i, value).1;
      && i <= p && (forall k :: i <= k < p ==> k < |text| && '0' <= text[k] <= '9')
      && (p < |text| ==> !('0' <= text[p] <= '9'))
    decreases |text| - i
  {
    if i < |text| && IsDigit(text[i]) {
      RunOfDigits(text, i + 1, value * 10 + DigitOf(text[i]));
    }
  }

  lemma IntIsDigits(text: string, i: nat)
    requires IntAt(text, i).Some?
    ensures Digits(text, i, IntAt(text, i).value.1)
  {
    RunOfDigits(text, i, 0);
  }

  lemma CountReads(text: string, p: nat, q: nat)
    requires CountShape(text, p, q)
    ensures CountAt(text, p) == Some((if q == p then 1 else Worth(text[p + 1..q]), q))
  {
    hide IntAt;
    if p < |text| && text[p] == ',' {
      DigitsRead(text, p + 1, q);
    }
  }

  lemma CountIsShape(text: string, p: nat)
    requires CountAt(text, p).Some?
    ensures CountShape(text, p, CountAt(text, p).value.1)
  {
    hide IntAt;
    if p < |text| && text[p] == ',' {
      IntIsDigits(text, p + 1);
    }
  }

  lemma {:induction false} SpacesTo(line: string, i: nat, m: nat)
    requires i <= m < |line| && (forall k :: i <= k < m ==> line[k] == ' ') && line[m] != ' '
    ensures SkipSpaces(line, i) == m
    decreases m - i
  {
    if i < m {
      SpacesTo(line, i + 1, m);
    }
  }

  lemma {:induction false} SkippedSpaces(line: string, i: nat)
    ensures var m := SkipSpaces(line, i); i <= m && (m == i || m <= |line|) && forall k :: i <= k < m ==> line[k] == ' '
    decreases |line| - i
  {
    if i < |line| && line[i] == ' ' {
      SkippedSpaces(line, i + 1);
    }
  }

  /** A line of that shape is read with its old range; a missing count is one. */
  lemma HeaderIsRead(line: string, m: nat, p: nat, q: nat, r: nat, t: nat)
    requires HeaderShape(line, m, p, q, r, t)
    ensures HeaderOf(line) == Some((Worth(line[m + 1..p]), if q == p then 1 else Worth(line[p + 1..q])))
  {
    hide IntAt, CountAt, SkipSpaces, Digits, CountShape;
    SpacesTo(line, 2, m);
    DigitsRead(line, m + 1, p);
    CountReads(line, p, q);
    DigitsRead(line, q + 2, r);
    CountReads(line, r, t);
  }

  /** And no other line is read as a hunk header. */
  lemma HeaderReadsExactly(line: string)
    ensures HeaderOf(line).Some? <==> exists m, p, q, r, t :: HeaderShape(line, m, p, q, r, t)
  {
    hide IntAt, CountAt, SkipSpaces, Digits, CountShape;
    if HeaderOf(line).Some? {
      var m := SkipSpaces(line, 2);
      SkippedSpaces(line, 2);
      IntIsDigits(line, m + 1);
      var p := IntAt(line, m + 1).value.1;
      CountIsShape(line, p);
      var q := CountAt(line, p).value.1;
      IntIsDigits(line, q + 2);
      var r := IntAt(line, q + 2).value.1;
      CountIsShape(line, r);
      assert HeaderShape(line, m, p, q, r, CountAt(line, r).value.1);
    }
    if m, p, q, r, t :| HeaderShape(line, m, p, q, r, t) {
      HeaderIsRead(line, m, p, q, r, t);
    }
  }

  // ---------------------------------------------------------------------------------------
  // The lines of a patch
  // ---------------------------------------------------------------------------------------

  /** A line that ends the hunk in front of it. */
  predicate EndsHunk(line: string) {
    "@@" <= line || "diff --git " <= line || "--- " <= line || "+++ " <= line
  }

  /** A line of a hunk that says nothing. */
  predicate Silent(line: string) {
    line == "" || line[0] == '\\'
  }

  /** The lines of the hunk whose header is in front of line `i`. */
  function Body(lines: seq<string>, i: nat): seq<PatchLine>
    requires i <= |lines|
    decreases |lines| - i
  {
    if i == |lines| || EndsHunk(lines[i]) then []
    else if Silent(lines[i]) then Body(lines, i + 1)
    else [PatchLine(lines[i][0], lines[i][1..])] + Body(lines, i + 1)
  }

  /** Each of them is context, removed or added. */
  predicate BodyMarked(lines: seq<string>, i: nat)
    requires i <= |lines|
  {
    forall k :: 0 <= k < |Body(lines, i)| ==> Body(lines, i)[k].kind in {' ', '+', '-'}
  }

  /** The hunks from line `i` on, behind `n` others. */
  function Hunks(lines: seq<string>, i: nat, n: nat): seq<Hunk>
    requires i <= |lines|
    decreases |lines| - i
  {
    if i == |lines| then []
    else if "@@" <= lines[i] && HeaderOf(lines[i]).Some? then
      var (start, count) := HeaderOf(lines[i]).value;
      [Hunk(n + 1, start, count, count == 0, Body(lines, i + 1))] + Hunks(lines, i + 1, n + 1)
    else Hunks(lines, i + 1, n)
  }

  /** Every hunk has a proper header and at least one line, and all its lines are marked. */
  predicate HunksFine(lines: seq<string>, i: nat) {
    forall k :: i <= k < |lines| && "@@" <= lines[k] ==>
      HeaderOf(lines[k]).Some? && Body(lines, k + 1) != [] && BodyMarked(lines, k + 1)
  }

  predicate NoneFrom(lines: seq<string>, i: nat, mark: string) {
    forall k :: i <= k < |lines| ==> !(mark <= lines[k])
  }

  predicate AtMostOne(lines: seq<string>, i: nat, mark: string) {
    forall j, k :: i <= j < k < |lines| ==> !(mark <= lines[j] && mark <= lines[k])
  }

  /** At most one line with the mark, counting `n` earlier ones. */
  predicate FewFrom(lines: seq<string>, i: nat, mark: string, n: nat) {
    if n == 0 then AtMostOne(lines, i, mark) else n == 1 && NoneFrom(lines, i, mark)
  }

  /** The state at the end, the last hunk closed. */
  function ReadAll(st: ParseState, lines: seq<string>, i: nat): Result<ParseState, PatchError>
    requires i <= |lines|
  {
    match ParseLines(st, lines[i..])
    case Err(e) => Err(e)
    case Ok(last) => CloseHunk(last)
  }

  /** What the state in front of line `i` asks of the lines from there on. */
  predicate Allowed(st: ParseState, lines: seq<string>, i: nat)
    requires i <= |lines|
  {
    && HunksFine(lines, i)
    && (st.inHunk ==> BodyMarked(lines, i) && st.current.lines + Body(lines, i) != [])
    && FewFrom(lines, i, "diff --git ", st.gitHeaders) && FewFrom(lines, i, "+++ ", st.newHeaders)
  }

  /** The hunks there will be. */
  function Coming(st: ParseState, lines: seq<string>, i: nat): seq<Hunk>
    requires i <= |lines|
  {
    if st.inHunk then
      st.hunks + ([st.current.(lines := st.current.lines + Body(lines, i))] + Hunks(lines, i, |st.hunks| + 1))
    else st.hunks + Hunks(lines, i, |st.hunks|)
  }

  predicate Sane(st: ParseState) {
    st.gitHeaders <= 1 && st.newHeaders <= 1
  }

  lemma ReadNext(st: ParseState, lines: seq<string>, i: nat)
    requires i < |lines|
    ensures ReadAll(st, lines, i) == match Step(st, lines[i]) case Err(e) => Err(e) case Ok(next) => ReadAll(next, lines, i + 1)
  {
    assert lines[i..][0] == lines[i] && lines[i..][1..] == lines[i + 1..];
  }

  lemma ReadEnd(st: ParseState, lines: seq<string>)
    ensures ReadAll(st, lines, |lines|) == CloseHunk(st)
  {
    assert lines[|lines|..] == [];
  }

  lemma MarksApart(line: string)
    ensures "@@" <= line ==> !("diff --git " <= line) && !("--- " <= line) && !("+++ " <= line)
    ensures "diff --git " <= line ==> !("--- " <= line) && !("+++ " <= line)
    ensures "--- " <= line ==> !("+++ " <= line)
  {
    assert "@@"[0] == '@' && "diff --git "[0] == 'd' && "--- "[0] == '-' && "+++ "[0] == '+';
    assert "@@" <= line ==> line[0] == "@@"[0];
    assert "diff --git " <= line ==> line[0] == "diff --git "[0];
    assert "--- " <= line ==> line[0] == "--- "[0];
    assert "+++ " <= line ==> line[0] == "+++ "[0];
  }

  lemma FewNext(lines: seq<string>, i: nat, mark: string, n: nat)
    requires i < |lines| && n <= 1
    ensures FewFrom(lines, i, mark, n) <==>
      if mark <= lines[i] then n == 0 && FewFrom(lines, i + 1, mark, 1) else FewFrom(lines, i + 1, mark, n)
  {
  }

  /** A hunk header closes the hunk in front of it and opens one. */
  lemma HeaderStep(st: ParseState, lines: seq<string>, i: nat)
    requires i < |lines| && "@@" <= lines[i] && Sane(st)
    ensures Step(st, lines[i]).Ok? ==> var next := Step(st, lines[i]).value;
      && Sane(next) && (Allowed(st, lines, i) <==> Allowed(next, lines, i + 1)) && Coming(st, lines, i) == Coming(next, lines, i + 1)
    ensures Step(st, lines[i]).Err? ==> !Allowed(st, lines, i)
  {
    hide FewFrom, BodyMarked, HeaderOf, Coming;
    MarksApart(lines[i]);
    FewNext(lines, i, "diff --git ", st.gitHeaders);
    FewNext(lines, i, "+++ ", st.newHeaders);
    FineNext(lines, i);
    NoBody(lines, i);
    if Step(st, lines[i]).Ok? {
      var next := Step(st, lines[i]).value;
      assert next.current.lines + Body(lines, i + 1) == Body(lines, i + 1);
      HeaderComing(st, lines, i);
    }
  }

  /** The hunk at hand joins the others. */
  lemma Joins(hunks: seq<Hunk>, current: Hunk, more: seq<Hunk>)
    ensures hunks + ([current.(lines := current.lines + [])] + more) == (hunks + [current]) + more
  {
    assert current.lines + [] == current.lines;
  }

  lemma HeaderComing(st: ParseState, lines: seq<string>, i: nat)
    requires i < |lines| && "@@" <= lines[i] && Step(st, lines[i]).Ok?
    ensures Coming(st, lines, i) == Coming(Step(st, lines[i]).value, lines, i + 1)
  {
    hide HeaderOf, Hunks, Body;
    NoBody(lines, i);
    FirstHunk(lines, i, if st.inHunk then |st.hunks| + 1 else |st.hunks|);
    Joins(st.hunks, st.current, Hunks(lines, i, |st.hunks| + 1));
    assert [] + Body(lines, i + 1) == Body(lines, i + 1);
  }

  lemma FirstHunk(lines: seq<string>, i: nat, n: nat)
    requires i < |lines| && "@@" <= lines[i] && HeaderOf(lines[i]).Some?
    ensures var (start, count) := HeaderOf(lines[i]).value;
      Hunks(lines, i, n) == [Hunk(n + 1, start, count, count == 0, Body(lines, i + 1))] + Hunks(lines, i + 1, n + 1)
  {
    hide HeaderOf;
  }

  lemma FineNext(lines: seq<string>, i: nat)
    requires i < |lines|
    ensures HunksFine(lines, i) <==>
      HunksFine(lines, i + 1) && ("@@" <= lines[i] ==> HeaderOf(lines[i]).Some? && Body(lines, i + 1) != [] && BodyMarked(lines, i + 1))
  {
    hide BodyMarked, HeaderOf;
  }

  lemma NoBody(lines: seq<string>, i: nat)
    requires i < |lines| && EndsHunk(lines[i])
    ensures Body(lines, i) == [] && BodyMarked(lines, i)
  {
  }

  /** A line of a hunk. */
  lemma BodyStep(st: ParseState, lines: seq<string>, i: nat)
    requires i < |lines| && st.inHunk && !EndsHunk(lines[i]) && Sane(st)
    ensures Step(st, lines[i]).Ok? ==> var next := Step(st, lines[i]).value;
      && Sane(next) && (Allowed(st, lines, i) <==> Allowed(next, lines, i + 1)) && Coming(st, lines, i) == Coming(next, lines, i + 1)
    ensures Step(st, lines[i]).Err? ==> !Allowed(st, lines, i)
  {
    hide FewFrom, HeaderOf, HunksFine;
    FewNext(lines, i, "diff --git ", st.gitHeaders);
    FewNext(lines, i, "+++ ", st.newHeaders);
    FineNext(lines, i);
    var line, body, rest := lines[i], Body(lines, i), Body(lines, i + 1);
    if !Silent(line) {
      var said := PatchLine(line[0], line[1..]);
      assert body == [said] + rest;
      assert st.current.lines + ([said] + rest) == (st.current.lines + [said]) + rest;
      assert BodyMarked(lines, i) <==> said.kind in {' ', '+', '-'} && BodyMarked(lines, i + 1) by {
        MarkedCons(lines, i, said);
      }
    }
  }

  lemma MarkedCons(lines: seq<string>, i: nat, said: PatchLine)
    requires i < |lines| && Body(lines, i) == [said] + Body(lines, i + 1)
    ensures BodyMarked(lines, i) <==> said.kind in {' ', '+', '-'} && BodyMarked(lines, i + 1)
  {
    var body, rest := Body(lines, i), Body(lines, i + 1);
    if BodyMarked(lines, i) {
      assert body[0] == said;
      forall k | 0 <= k < |rest| ensures rest[k].kind in {' ', '+', '-'} {
        assert body[k + 1] == rest[k];
      }
    }
  }

  /** A line outside of hunks, or one that ends a hunk and opens none. */
  lemma OutsideStep(st: ParseState, lines: seq<string>, i: nat)
    requires i < |lines| && !("@@" <= lines[i]) && (st.inHunk ==> EndsHunk(lines[i])) && Sane(st)
    ensures Step(st, lines[i]).Ok? ==> var next := Step(st, lines[i]).value;
      && Sane(next) && (Allowed(st, lines, i) <==> Allowed(next, lines, i + 1)) && Coming(st, lines, i) == Coming(next, lines, i + 1)
    ensures Step(st, lines[i]).Err? ==> !Allowed(st, lines, i)
  {
    hide BodyMarked, HeaderOf, HeaderPath, HunksFine;
    MarksApart(lines[i]);
    FewNext(lines, i, "diff --git ", st.gitHeaders);
    FewNext(lines, i, "+++ ", st.newHeaders);
    FineNext(lines, i);
    if st.inHunk {
      NoBody(lines, i);
      assert st.current.lines + [] == st.current.lines;
      Joins(st.hunks, st.current, Hunks(lines, i + 1, |st.hunks| + 1));
    }
  }

  /** What is read of the lines from `i` on, whatever was read before. */
  lemma {:induction false} ReadFrom(st: ParseState, lines: seq<string>, i: nat)
    requires i <= |lines| && Sane(st)
    ensures ReadAll(st, lines, i).Ok? <==> Allowed(st, lines, i)
    ensures ReadAll(st, lines, i).Ok? ==> ReadAll(st, lines, i).value.hunks == Coming(st, lines, i)
    decreases |lines| - i
  {
    hide Step, ReadAll, Allowed, Coming, HeaderOf;
    if i == |lines| {
      ReadEnd(st, lines);
      AllowedEnd(st, lines);
    } else {
      ReadNext(st, lines, i);
      if "@@" <= lines[i] {
        HeaderStep(st, lines, i);
      } else if st.inHunk && !EndsHunk(lines[i]) {
        BodyStep(st, lines, i);
      } else {
        OutsideStep(st, lines, i);
      }
      if Step(st, lines[i]).Ok? {
        ReadFrom(Step(st, lines[i]).value, lines, i + 1);
      }
    }
  }

  lemma AllowedEnd(st: ParseState, lines: seq<string>)
    requires Sane(st)
    ensures CloseHunk(st).Ok? <==> Allowed(st, lines, |lines|)
    ensures CloseHunk(st).Ok? ==> CloseHunk(st).value.hunks == Coming(st, lines, |lines|)
  {
    if st.inHunk {
      assert st.current.lines + [] == st.current.lines;
      assert st.current.(lines := st.current.lines) == st.current;
      assert st.hunks + ([st.current] + []) == st.hunks + [st.current];
    } else {
      assert st.hunks + [] == st.hunks;
    }
  }

  // ---------------------------------------------------------------------------------------
  // File headers
  // ---------------------------------------------------------------------------------------

  /** The path of a file header: what is behind the mark up to a tab, without the quotes around it. */
  lemma HeaderPathIs(mark: string, name: string, rest: string)
    requires (mark == "--- " || mark == "+++ ") && (forall k :: 0 <= k < |name| ==> name[k] != '\t') && (rest == "" || rest[0] == '\t')
    ensures |name| < 2 || name[0] != '"' || name[|name| - 1] != '"' ==> HeaderPath(mark + (name + rest)) == name
    ensures HeaderPath(mark + (("\"" + (name + "\"")) + rest)) == name
  {
    hide HeaderPath;
    PathCut(mark, name, rest);
    var quoted := "\"" + (name + "\"");
    PathCut(mark, quoted, rest);
    assert quoted[1..|quoted| - 1] == name;
  }

  lemma PathCut(mark: string, name: string, rest: string)
    requires (mark == "--- " || mark == "+++ ") && (forall k :: 0 <= k < |name| ==> name[k] != '\t') && (rest == "" || rest[0] == '\t')
    ensures HeaderPath(mark + (name + rest))
         == if |name| >= 2 && name[0] == '"' && name[|name| - 1] == '"' then name[1..|name| - 1] else name
  {
    hide FindChar;
    var line, both := mark + (name + rest), name + rest;
    assert mark <= line && line[4..] == both;
    if rest == "" {
      FindCharNone(both, '\t', 0);
      assert both == name;
    } else {
      FindCharIs(both, '\t', 0, |name|);
      assert both[..|name|] == name;
    }
  }

  /** A header line that names no file. */
  ghost predicate NullFrom(lines: seq<string>, i: nat, mark: string) {
    exists k :: i <= k < |lines| && mark <= lines[k] && HeaderPath(lines[k]) == "/dev/null"
  }

  lemma NullNext(lines: seq<string>, i: nat, mark: string)
    requires i < |lines|
    ensures NullFrom(lines, i, mark) <==> (mark <= lines[i] && HeaderPath(lines[i]) == "/dev/null") || NullFrom(lines, i + 1, mark)
  {
    hide HeaderPath;
  }

  lemma NullStep(st: ParseState, line: string)
    requires Step(st, line).Ok?
    ensures var next := Step(st, line).value;
      && (next.sawOldNull <==> st.sawOldNull || ("--- " <= line && HeaderPath(line) == "/dev/null"))
      && (next.sawNewNull <==> st.sawNewNull || ("+++ " <= line && HeaderPath(line) == "/dev/null"))
  {
    hide HeaderPath, HeaderOf;
    MarksApart(line);
  }

  lemma CloseFlags(st: ParseState)
    requires CloseHunk(st).Ok?
    ensures var closed := CloseHunk(st).value;
      closed.sawOldNull == st.sawOldNull && closed.sawNewNull == st.sawNewNull && closed.plusPath == st.plusPath
  {
  }

  lemma {:induction false} FlagsFrom(st: ParseState, lines: seq<string>, i: nat)
    requires i <= |lines| && ReadAll(st, lines, i).Ok?
    ensures var last := ReadAll(st, lines, i).value;
      && (last.sawOldNull <==> st.sawOldNull || NullFrom(lines, i, "--- "))
      && (last.sawNewNull <==> st.sawNewNull || NullFrom(lines, i, "+++ "))
    decreases |lines| - i
  {
    hide Step, ReadAll, HeaderPath, NullFrom;
    if i == |lines| {
      ReadEnd(st, lines);
      CloseFlags(st);
      NoNull(lines);
    } else {
      ReadNext(st, lines, i);
      NullStep(st, lines[i]);
      NullNext(lines, i, "--- ");
      NullNext(lines, i, "+++ ");
      FlagsFrom(Step(st, lines[i]).value, lines, i + 1);
    }
  }

  lemma NoNull(lines: seq<string>)
    ensures !NullFrom(lines, |lines|, "--- ") && !NullFrom(lines, |lines|, "+++ ")
  {
  }

  /** The path read is that of the `+++` line, or none. */
  lemma {:induction false} PathFrom(st: ParseState, lines: seq<string>, i: nat)
    requires i <= |lines| && ReadAll(st, lines, i).Ok? && NoneFrom(lines, i, "+++ ")
    ensures ReadAll(st, lines, i).value.plusPath == st.plusPath
    decreases |lines| - i
  {
    hide Step, ReadAll, HeaderPath;
    if i == |lines| {
      ReadEnd(st, lines);
      CloseFlags(st);
    } else {
      ReadNext(st, lines, i);
      PlusStep(st, lines[i]);
      PathFrom(Step(st, lines[i]).value, lines, i + 1);
    }
  }

  lemma PathIs(lines: seq<string>)
    requires ReadAll(START, lines, 0).Ok?
    ensures NoneFrom(lines, 0, "+++ ") ==> ReadAll(START, lines, 0).value.plusPath == ""
    ensures forall k :: 0 <= k < |lines| && "+++ " <= lines[k] ==> ReadAll(START, lines, 0).value.plusPath == HeaderPath(lines[k])
  {
    hide HeaderPath, Step;
    if NoneFrom(lines, 0, "+++ ") {
      PathFrom(START, lines, 0);
    }
    assert lines[0..] == lines;
    forall k | 0 <= k < |lines| && "+++ " <= lines[k] ensures ReadAll(START, lines, 0).value.plusPath == HeaderPath(lines[k]) {
      PlusRead(START, lines, k);
      CloseFlags(ParseLines(START, lines).value);
    }
  }

  /** A `+++` path that a patch for this file may give: none, or the file itself or a tail of it behind a
      slash, with or without a leading `a/` or `b/`. */
  predicate Meant(path: string, header: string) {
    var name := if "a/" <= header || "b/" <= header then header[2..] else header;
    header == "" || (name != "" && name != "/dev/null" && (path == name || EndsWith(path, "/" + name)))
  }

  lemma {:induction false} SomeHunk(lines: seq<string>, i: nat, n: nat)
    requires i <= |lines| && HunksFine(lines, i)
    ensures Hunks(lines, i, n) == [] <==> NoneFrom(lines, i, "@@")
    decreases |lines| - i
  {
    hide HeaderOf, BodyMarked, Body;
    if i < |lines| {
      SomeHunk(lines, i + 1, if "@@" <= lines[i] then n + 1 else n);
    }
  }

  /** A patch can be read for a file exactly when it has a hunk; all hunks have a proper header and lines,
      all of them marked; there is at most one `diff --git` line and at most one `+++` line; and that
      means the file. Its hunks are then those, in order, and it is for a new file exactly when a `---`
      line names `/dev/null`. */
  lemma PatchReadsExactly(patch: string, path: string)
    ensures var lines := StripReturns(LinesOf(patch));
      && (Parse(patch, path).Ok? <==>
          && HunksFine(lines, 0) && !NoneFrom(lines, 0, "@@")
          && AtMostOne(lines, 0, "diff --git ") && AtMostOne(lines, 0, "+++ ")
          && forall k :: 0 <= k < |lines| && "+++ " <= lines[k] ==>
               HeaderPath(lines[k]) != "/dev/null" && Meant(path, HeaderPath(lines[k])))
      && (Parse(patch, path).Ok? ==>
          Parse(patch, path).value.hunks == Hunks(lines, 0, 0) && (Parse(patch, path).value.newFile <==> NullFrom(lines, 0, "--- ")))
  {
    hide HunksFine, HeaderPath, Step, Hunks, Body, SameTarget, Meant, LinesOf, StripReturns;
    var lines := StripReturns(LinesOf(patch));
    assert lines[0..] == lines;
    ReadFrom(START, lines, 0);
    assert [] + Hunks(lines, 0, 0) == Hunks(lines, 0, 0);
    if ReadAll(START, lines, 0).Ok? {
      var last := ReadAll(START, lines, 0).value;
      FlagsFrom(START, lines, 0);
      PathIs(lines);
      SomeHunk(lines, 0, 0);
      ClosedTwice(ParseLines(START, lines).value);
      forall header ensures header == "" || SameTarget(path, header) <==> Meant(path, header) {
        MeantIs(path, header);
      }
      if !NoneFrom(lines, 0, "+++ ") {
        var k :| 0 <= k < |lines| && "+++ " <= lines[k];
        assert last.plusPath == HeaderPath(lines[k]);
      }
    }
  }

  lemma MeantIs(path: string, header: string)
    ensures header == "" || SameTarget(path, header) <==> Meant(path, header)
  {
    TargetIs(path, header);
  }

  lemma ClosedTwice(st: ParseState)
    requires CloseHunk(st).Ok?
    ensures CloseHunk(CloseHunk(st).value) == CloseHunk(st)
  {
  }
}
