/** Reading a unified diff (`src/common/tools/tool_edit_file.cpp`). Line numbers are unbounded
    here; the source's `int` overflows on a header with more digits than any file has lines. */
module PatchParser {
  import opened Strings
  import opened TextLines
  import opened HunkPlacement

  // ---------------------------------------------------------------------------------------
  // Hunk header
  // ---------------------------------------------------------------------------------------

  function DigitOf(c: char): nat
    requires IsDigit(c)
  {
    (c - '0') as nat
  }

  /** Value and end of the run of digits at `i`, after `value` was read. */
  function ReadDigits(text: string, i: nat, value: nat): (r: (nat, nat))
    ensures r.1 >= i && (r.1 > |text| ==> r.1 == i)
    decreases |text| - i
  {
    if i < |text| && IsDigit(text[i]) then ReadDigits(text, i + 1, value * 10 + DigitOf(text[i])) else (value, i)
  }

  /** An unsigned number at `i`, and where it ends. */
  function IntAt(text: string, i: nat): Option<(nat, nat)> {
    if i < |text| && IsDigit(text[i]) then Some(ReadDigits(text, i, 0)) else None
  }

  method ReadInt(text: string, at: nat) returns (ok: bool, value: nat, i: nat)
    ensures IntAt(text, at) == if ok then Some((value, i)) else None
  {
    i, value := at, 0;
    if i >= |text| || !IsDigit(text[i]) {
      return false, 0, at;
    }
    while i < |text| && IsDigit(text[i])
      invariant i >= at && ReadDigits(text, at, 0) == ReadDigits(text, i, value)
      decreases |text| - i
    {
      value := value * 10 + DigitOf(text[i]);
      i := i + 1;
    }
    ok := true;
  }

  function SkipSpaces(line: string, i: nat): nat
    decreases |line| - i
  {
    if i < |line| && line[i] == ' ' then SkipSpaces(line, i + 1) else i
  }

  /** `,n` at `i`, or the count 1 that is meant without it. None when the number is missing. */
  function CountAt(line: string, i: nat): Option<(nat, nat)> {
    if i < |line| && line[i] == ',' then IntAt(line, i + 1) else Some((1, i))
  }

  /** Old start and count of `@@ -a,b +c,d @@`. What follows the new range is not looked at. */
  function HeaderOf(line: string): Option<(nat, nat)> {
    if !("@@" <= line) then None
    else
      var minus := SkipSpaces(line, 2);
      if minus >= |line| || line[minus] != '-' then None
      else match IntAt(line, minus + 1)
        case None => None
        case Some((oldStart, i)) =>
          match CountAt(line, i)
          case None => None
          case Some((oldCount, j)) =>
            if j >= |line| || line[j] != ' ' || j + 1 >= |line| || line[j + 1] != '+' then None
            else match IntAt(line, j + 2)
              case None => None
              case Some((newStart, k)) =>
                match CountAt(line, k)
                case None => None
                case Some(_) => Some((oldStart, oldCount))
  }

  // ---------------------------------------------------------------------------------------
  // File headers
  // ---------------------------------------------------------------------------------------

  /** The path of a `---` or `+++` line. */
  function HeaderPath(line: string): string {
    var path := if "--- " <= line || "+++ " <= line then line[4..] else line;
    var cut := match FindChar(path, '\t', 0) case None => path case Some(tab) => path[..tab];
    if |cut| >= 2 && cut[0] == '"' && cut[|cut| - 1] == '"' then cut[1..|cut| - 1] else cut
  }

  function FileName(path: string): string
    decreases |path|
  {
    match FindChar(path, '/', 0)
    case None => path
    case Some(i) => FileName(path[i + 1..])
  }

  /** Whether a patch header names the file to edit. */
  predicate SameTarget(file: string, header: string) {
    var name := if "a/" <= header || "b/" <= header then header[2..] else header;
    && name != "" && name != "/dev/null"
    && (file == name || EndsWith(file, "/" + name) || (FindChar(name, '/', 0).None? && FileName(file) == name))
  }

  /** The name a header gives, without a leading `a/` or `b/`. */
  function HeaderName(header: string): string {
    if "a/" <= header || "b/" <= header then header[2..] else header
  }

  lemma {:induction false} LastName(path: string, name: string)
    requires FindChar(name, '/', 0).None? && name != ""
    ensures FileName(path) == name ==> path == name || EndsWith(path, "/" + name)
    decreases |path|
  {
    match FindChar(path, '/', 0)
    case None =>
    case Some(i) =>
      var rest := path[i + 1..];
      LastName(rest, name);
      if FileName(path) == name {
        assert path[i..] == "/" + rest;
        if rest != name {
          assert rest[|rest| - |"/" + name|..] == path[|path| - |"/" + name|..];
        }
      }
  }

  /** A header names the file exactly when its name is the path or a tail of it behind a slash. */
  lemma TargetIs(file: string, header: string)
    ensures var name := HeaderName(header);
      SameTarget(file, header) <==> name != "" && name != "/dev/null" && (file == name || EndsWith(file, "/" + name))
  {
    var name := HeaderName(header);
    if name != "" && FindChar(name, '/', 0).None? {
      LastName(file, name);
    }
  }

  // ---------------------------------------------------------------------------------------
  // The parser
  // ---------------------------------------------------------------------------------------

  datatype PatchError =
    | EmptyHunk(hunk: nat)
    | MalformedHeader(line: string)
    | BadLine(hunk: nat, shown: string)
    | ManyFiles
    | NoHunks
    | DeletesFile
    | WrongTarget(named: string)

  datatype ParseState = ParseState(
    inHunk: bool, current: Hunk, hunks: seq<Hunk>, sawOldNull: bool, sawNewNull: bool,
    gitHeaders: nat, newHeaders: nat, plusPath: string)

  const NO_HUNK := Hunk(0, 0, 1, false, [])

  const START := ParseState(false, NO_HUNK, [], false, false, 0, 0, "")

  function CloseHunk(st: ParseState): Result<ParseState, PatchError> {
    if !st.inHunk then Ok(st)
    else if st.current.lines == [] then Err(EmptyHunk(st.current.number))
    else Ok(st.(inHunk := false, current := NO_HUNK, hunks := st.hunks + [st.current]))
  }

  /** A line that opens a hunk. */
  function OpenHunk(st: ParseState, line: string): Result<ParseState, PatchError> {
    match CloseHunk(st)
    case Err(e) => Err(e)
    case Ok(closed) =>
      match HeaderOf(line)
      case None => Err(MalformedHeader(line))
      case Some((oldStart, oldCount)) =>
        Ok(closed.(inHunk := true, current := Hunk(|closed.hunks| + 1, oldStart, oldCount, oldCount == 0, [])))
  }

  /** A line inside a hunk. */
  function HunkLine(st: ParseState, line: string): Result<ParseState, PatchError> {
    if line == "" || line[0] == '\\' then Ok(st)
    else if line[0] != ' ' && line[0] != '+' && line[0] != '-' then
      Err(BadLine(st.current.number, if |line| > 80 then line[..80] else line))
    else Ok(st.(current := st.current.(lines := st.current.lines + [PatchLine(line[0], line[1..])])))
  }

  /** A line between hunks. */
  function OutsideLine(st: ParseState, line: string): Result<ParseState, PatchError> {
    if "diff --git " <= line then
      if st.gitHeaders + 1 > 1 then Err(ManyFiles) else Ok(st.(gitHeaders := st.gitHeaders + 1))
    else if "--- " <= line then
      Ok(if HeaderPath(line) == "/dev/null" then st.(sawOldNull := true) else st)
    else if "+++ " <= line then
      if st.newHeaders + 1 > 1 then Err(ManyFiles)
      else Ok(st.(newHeaders := st.newHeaders + 1, plusPath := HeaderPath(line),
                  sawNewNull := st.sawNewNull || HeaderPath(line) == "/dev/null"))
    else Ok(st)
  }

  predicate FileHeaderLine(line: string) {
    "diff --git " <= line || "--- " <= line || "+++ " <= line
  }

  function Step(st: ParseState, line: string): Result<ParseState, PatchError> {
    if "@@" <= line then OpenHunk(st, line)
    else if st.inHunk && !FileHeaderLine(line) then HunkLine(st, line)
    else match CloseHunk(st)
      case Err(e) => Err(e)
      case Ok(closed) => OutsideLine(closed, line)
  }

  function ParseLines(st: ParseState, lines: seq<string>): Result<ParseState, PatchError>
    decreases |lines|
  {
    if lines == [] then Ok(st)
    else match Step(st, lines[0])
      case Err(e) => Err(e)
      case Ok(next) => ParseLines(next, lines[1..])
  }

  datatype Patch = Patch(hunks: seq<Hunk>, newFile: bool)

  function Finish(st: ParseState, path: string): Result<Patch, PatchError> {
    match CloseHunk(st)
    case Err(e) => Err(e)
    case Ok(closed) =>
      if closed.hunks == [] then Err(NoHunks)
      else if closed.sawNewNull then Err(DeletesFile)
      else if closed.plusPath != "" && !SameTarget(path, closed.plusPath) then Err(WrongTarget(closed.plusPath))
      else Ok(Patch(closed.hunks, closed.sawOldNull))
  }

  function Parse(patch: string, path: string): Result<Patch, PatchError> {
    match ParseLines(START, StripReturns(LinesOf(patch)))
    case Err(e) => Err(e)
    case Ok(st) => Finish(st, path)
  }

  method ParsePatch(patch: string, path: string) returns (r: Result<Patch, PatchError>)
    ensures r == Parse(patch, path)
  {
    var lines := PatchLines(patch);
    var st := START;
    assert lines[0..] == lines;
    for i := 0 to |lines|
      invariant ParseLines(st, lines[i..]) == ParseLines(START, lines)
    {
      assert lines[i..][1..] == lines[i + 1..];
      var next := Step(st, lines[i]);
      if next.Err? {
        return Err(next.error);
      }
      st := next.value;
    }
    r := Finish(st, path);
  }

  lemma {:induction false} ParseAppend(st: ParseState, a: seq<string>, b: seq<string>)
    ensures ParseLines(st, a + b) == match ParseLines(st, a) case Err(e) => Err(e) case Ok(mid) => ParseLines(mid, b)
    decreases |a|
  {
    if a == [] {
      assert a + b == b;
    } else {
      assert (a + b)[0] == a[0] && (a + b)[1..] == a[1..] + b;
      if Step(st, a[0]).Ok? {
        ParseAppend(Step(st, a[0]).value, a[1..], b);
      }
    }
  }

  /** Once a `+++` line was read there is no other. */
  lemma {:induction false} PlusKept(st: ParseState, lines: seq<string>)
    requires st.newHeaders >= 1 && ParseLines(st, lines).Ok?
    ensures ParseLines(st, lines).value.plusPath == st.plusPath
    decreases |lines|
  {
    hide HeaderPath, HeaderOf;
    if lines != [] {
      PlusStep(st, lines[0]);
      PlusKept(Step(st, lines[0]).value, lines[1..]);
    }
  }

  /** A line starting with `+++ ` is read as a file header, inside a hunk too. */
  lemma PlusStep(st: ParseState, line: string)
    requires Step(st, line).Ok?
    ensures var next := Step(st, line).value;
      if "+++ " <= line then next.newHeaders == st.newHeaders + 1 == 1 && next.plusPath == HeaderPath(line)
      else next.newHeaders == st.newHeaders && next.plusPath == st.plusPath
  {
    hide HeaderPath, HeaderOf;
    if "+++ " <= line {
      assert line[0] == "+++ "[0];
    }
  }

  lemma {:induction false} PlusRead(st: ParseState, lines: seq<string>, i: nat)
    requires i < |lines| && "+++ " <= lines[i] && ParseLines(st, lines).Ok?
    ensures ParseLines(st, lines).value.plusPath == HeaderPath(lines[i])
    decreases |lines|
  {
    hide HeaderPath, HeaderOf, Step;
    PlusStep(st, lines[0]);
    var next := Step(st, lines[0]).value;
    if i == 0 {
      PlusKept(next, lines[1..]);
    } else {
      PlusRead(next, lines[1..], i - 1);
    }
  }

  /** A patch whose `+++` line names a path that is neither the file nor a tail of it is refused. */
  lemma OtherFileRefused(patch: string, path: string, i: nat)
    requires var lines := StripReturns(LinesOf(patch)); i < |lines| && "+++ " <= lines[i]
    requires var header := HeaderPath(StripReturns(LinesOf(patch))[i]); var name := HeaderName(header);
      header != "" && (name == "" || name == "/dev/null" || (path != name && !EndsWith(path, "/" + name)))
    ensures Parse(patch, path).Err?
  {
    var lines := StripReturns(LinesOf(patch));
    TargetIs(path, HeaderPath(lines[i]));
    if ParseLines(START, lines).Ok? {
      PlusRead(START, lines, i);
      CloseKeepsPath(ParseLines(START, lines).value);
    }
  }

  lemma CloseKeepsPath(st: ParseState)
    ensures CloseHunk(st).Ok? ==> CloseHunk(st).value.plusPath == st.plusPath
  {
  }
}
