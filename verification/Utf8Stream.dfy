/** Releasing a byte stream in whole UTF-8 code points (`src/server/llm/utf8_stream.hpp`). One
    `char` stands for one byte. */
module Utf8Stream {
  import opened Strings

  const MAX_CODE: nat := 4

  /** `10xxxxxx`. */
  predicate IsTail(c: char) {
    0x80 <= c as int < 0xC0
  }

  /** How many bytes the code point has that `c` starts, judged by its high bits alone. */
  function Announced(c: char): nat {
    if 0xF0 <= c as int < 0xF8 then 4
    else if 0xE0 <= c as int < 0xF0 then 3
    else if 0xC0 <= c as int < 0xE0 then 2
    else 1
  }

  /** Look back from the `i`-th last byte for the one that starts the last code point. */
  function LookBack(s: string, i: nat): (r: nat)
    requires i > 0
    ensures r <= |s|
    decreases |s| + 1 - i
  {
    if i > |s| || i > MAX_CODE then 0
    else
      var c := s[|s| - i];
      if IsTail(c) then LookBack(s, i + 1) else if i < Announced(c) then |s| - i else |s|
  }

  function PrefixLen(s: string): nat {
    if s == "" then 0 else LookBack(s, 1)
  }

  method CompletePrefixLen(s: string) returns (n: nat)
    ensures n == PrefixLen(s)
  {
    if s == "" {
      return 0;
    }
    var len := |s|;
    var maxLookback := if len < MAX_CODE then len else MAX_CODE;
    for i := 1 to maxLookback + 1
      invariant LookBack(s, i) == LookBack(s, 1)
    {
      var c := s[len - i];
      if !IsTail(c) {
        var expected := Announced(c);
        if i < expected {
          return len - i;
        }
        return len;
      }
    }
    n := 0;
  }

  /** What is released when `piece` comes in behind the held bytes, and what is held then. */
  function Process(held: string, piece: string): (string, string) {
    var s := held + piece;
    (s[..PrefixLen(s)], s[PrefixLen(s)..])
  }

  /** What `flush` releases. */
  function Flushed(held: string): string {
    held[..PrefixLen(held)]
  }

  class StreamBuffer {
    var buf: string

    constructor ()
      ensures buf == ""
    {
      buf := "";
    }

    method ProcessPiece(piece: string) returns (ready: string)
      modifies this
      ensures (ready, buf) == Process(old(buf), piece)
    {
      buf := buf + piece;
      var validLen := CompletePrefixLen(buf);
      if validLen == 0 {
        return "";
      }
      ready := buf[..validLen];
      buf := buf[validLen..];
    }

    method Flush() returns (remaining: string)
      modifies this
      ensures remaining == Flushed(old(buf)) && buf == ""
    {
      if buf == "" {
        return "";
      }
      var validLen := CompletePrefixLen(buf);
      remaining := "";
      if validLen > 0 {
        remaining := buf[..validLen];
      }
      buf := "";
    }
  }

  // ---------------------------------------------------------------------------------------
  // Any bytes
  // ---------------------------------------------------------------------------------------

  /** Nothing is lost between release and hold. */
  lemma NothingLost(held: string, piece: string)
    ensures Process(held, piece).0 + Process(held, piece).1 == held + piece
  {
  }

  lemma {:induction false} LookBackHeld(s: string, i: nat)
    requires 0 < i <= |s| && LookBack(s, i) < |s|
    ensures LookBack(s[LookBack(s, i)..], i) == 0
    decreases |s| + 1 - i
  {
    var n := LookBack(s, i);
    var t := s[n..];
    if i > MAX_CODE {
    } else if IsTail(s[|s| - i]) {
      if i + 1 <= |s| {
        LookBackHeld(s, i + 1);
        LookBackAtLeast(s, i + 1);
        assert t[|t| - i] == s[|s| - i];
      }
    } else {
      assert t[|t| - i] == s[|s| - i];
    }
  }

  lemma {:induction false} LookBackAtLeast(s: string, i: nat)
    requires 0 < i <= |s|
    ensures LookBack(s, i) == 0 || |s| - LookBack(s, i) >= i || LookBack(s, i) == |s|
    decreases |s| + 1 - i
  {
    if i <= MAX_CODE && IsTail(s[|s| - i]) && i + 1 <= |s| {
      LookBackAtLeast(s, i + 1);
    }
  }

  /** After any piece, flushing releases nothing: what is held then is dropped. */
  lemma FlushReleasesNothing(held: string, piece: string)
    ensures Flushed(Process(held, piece).1) == ""
  {
    var s := held + piece;
    var t := s[PrefixLen(s)..];
    if t != "" {
      LookBackHeld(s, 1);
      assert PrefixLen(t) == 0;
    }
  }

  // ---------------------------------------------------------------------------------------
  // Cuts: when the result does not depend on them
  // ---------------------------------------------------------------------------------------

  /** All that has been released and what is held after the pieces. */
  function Feed(pieces: seq<string>): (string, string)
    decreases |pieces|
  {
    if pieces == [] then ("", "")
    else
      var (out, held) := Feed(pieces[..|pieces| - 1]);
      var (ready, rest) := Process(held, pieces[|pieces| - 1]);
      (out + ready, rest)
  }

  lemma {:induction false} JoinLast(pieces: seq<string>)
    requires pieces != []
    ensures Concat(pieces) == Concat(pieces[..|pieces| - 1]) + pieces[|pieces| - 1]
  {
    var front, last := pieces[..|pieces| - 1], pieces[|pieces| - 1];
    ConcatAppend(front, [last]);
    assert front + [last] == pieces && [last][1..] == [];
    assert last + "" == last;
  }

  /** Looking back over tail bytes finds the first byte of the last code point. */
  lemma {:induction false} LooksBackTo(s: string, at: nat, i: nat)
    requires at < |s| && 0 < i <= |s| - at <= MAX_CODE && !IsTail(s[at])
    requires forall k :: at < k < |s| ==> IsTail(s[k])
    ensures LookBack(s, i) == if |s| - at < Announced(s[at]) then at else |s|
    decreases |s| - at - i
  {
    if i < |s| - at {
      assert IsTail(s[|s| - i]);
      LooksBackTo(s, at, i + 1);
    }
  }

  /** Index of the last byte that is no tail byte. */
  function LastLead(s: string): (r: Option<nat>)
    ensures r.Some? ==> r.value < |s| && !IsTail(s[r.value])
    ensures r.Some? ==> forall k :: r.value < k < |s| ==> IsTail(s[k])
    ensures r.None? ==> forall k :: 0 <= k < |s| ==> IsTail(s[k])
    decreases |s|
  {
    if s == "" then None
    else if !IsTail(s[|s| - 1]) then Some(|s| - 1)
    else LastLead(s[..|s| - 1])
  }

  /** No more tail bytes stand at the end than the byte in front of them announces. */
  predicate Settled(s: string) {
    match LastLead(s)
    case None => true
    case Some(at) => |s| - at <= Announced(s[at])
  }

  /** What a settled stream is released and held as. */
  function Outcome(s: string): (string, string) {
    match LastLead(s)
    case None => ("", s)
    case Some(at) => if |s| - at < Announced(s[at]) then (s[..at], s[at..]) else (s, "")
  }

  lemma LastLeadIs(s: string, at: nat)
    requires at < |s| && !IsTail(s[at]) && forall k :: at < k < |s| ==> IsTail(s[k])
    ensures LastLead(s) == Some(at)
  {
  }

  lemma NoLead(s: string)
    requires forall k :: 0 <= k < |s| ==> IsTail(s[k])
    ensures LastLead(s) == None
  {
  }

  /** Nothing is released of tail bytes alone. */
  lemma {:induction false} AllTails(s: string, i: nat)
    requires i > 0 && forall k :: 0 <= k < |s| ==> IsTail(s[k])
    ensures LookBack(s, i) == 0
    decreases |s| + 1 - i
  {
    if i <= |s| && i <= MAX_CODE {
      AllTails(s, i + 1);
    }
  }

  lemma ReleasesAll(held: string, piece: string, t: string)
    requires t == held + piece && PrefixLen(t) == |t|
    ensures Process(held, piece) == (t, "")
  {
    assert t[..|t|] == t && t[|t|..] == "";
  }

  lemma ReleasesNone(held: string, piece: string, t: string)
    requires t == held + piece && PrefixLen(t) == 0
    ensures Process(held, piece) == ("", t)
  {
    assert t[..0] == "" && t[0..] == t;
  }

  /** What the look-back finds when the last lead is near enough. */
  lemma PrefixAt(t: string, at: nat)
    requires at < |t| <= at + MAX_CODE && !IsTail(t[at]) && forall k :: at < k < |t| ==> IsTail(t[k])
    ensures PrefixLen(t) == if |t| - at < Announced(t[at]) then at else |t|
  {
    LooksBackTo(t, at, 1);
  }

  /** A piece that brings the last lead of a settled stream settles it, whatever was held. */
  lemma LeadInPiece(out: string, held: string, piece: string, at: nat)
    requires LastLead((out + held) + piece) == Some(at) && Settled((out + held) + piece) && at >= |out + held|
    ensures var (ready, rest) := Process(held, piece); (out + ready, rest) == Outcome((out + held) + piece)
  {
    hide PrefixLen, LastLead;
    var s, t := (out + held) + piece, held + piece;
    assert s == out + t;
    var j := at - |out|;
    forall k | j <= k < |t| ensures t[k] == s[|out| + k] {
    }
    PrefixAt(t, j);
    if |t| - j < Announced(t[j]) {
      assert out + t[..j] == s[..at] && t[j..] == s[at..];
    } else {
      ReleasesAll(held, piece, t);
    }
  }

  lemma FrontLead(s: string, piece: string, at: nat)
    requires LastLead(s + piece) == Some(at) && at < |s|
    ensures LastLead(s) == Some(at) && (s + piece)[at] == s[at] && forall k :: 0 <= k < |piece| ==> IsTail(piece[k])
  {
    var all := s + piece;
    assert forall k :: 0 <= k < |s| ==> s[k] == all[k];
    forall k | 0 <= k < |piece| ensures IsTail(piece[k]) {
      assert piece[k] == all[|s| + k];
    }
    LastLeadIs(s, at);
  }

  /** Held back with its lead, tail bytes wait until all that are announced are there. */
  lemma HeldLead(held: string, piece: string)
    requires held != "" && !IsTail(held[0]) && |held + piece| <= Announced(held[0])
    requires (forall k :: 1 <= k < |held| ==> IsTail(held[k])) && forall k :: 0 <= k < |piece| ==> IsTail(piece[k])
    ensures Process(held, piece) == if |held + piece| < Announced(held[0]) then ("", held + piece) else (held + piece, "")
  {
    hide Process, PrefixLen;
    var t := held + piece;
    forall k | 0 < k < |t| ensures IsTail(t[k]) {
      assert k >= |held| ==> t[k] == piece[k - |held|];
    }
    PrefixAt(t, 0);
    if |t| < Announced(t[0]) {
      ReleasesNone(held, piece, t);
    } else {
      ReleasesAll(held, piece, t);
    }
  }

  /** Tail bytes behind a lead that still lacks some are held with it, until it has them all. */
  lemma TailsInPiece(s: string, piece: string, at: nat)
    requires LastLead(s + piece) == Some(at) && Settled(s + piece) && at < |s|
    ensures LastLead(s) == Some(at) && Settled(s)
    ensures var (out, held) := Outcome(s); var (ready, rest) := Process(held, piece);
      (out + ready, rest) == Outcome(s + piece)
  {
    hide Process, LastLead, Announced;
    FrontLead(s, piece, at);
    var all := s + piece;
    if |s| - at < Announced(s[at]) {
      var out, held := s[..at], s[at..];
      HeldLead(held, piece);
      assert out + (held + piece) == all && held + piece == all[at..] && out + "" == all[..at];
    } else {
      assert piece == "" && all == s && s + "" == s;
      assert Process("", "") == ("", "") by {
        NothingHeld();
      }
    }
  }

  lemma NothingHeld()
    ensures Process("", "") == ("", "")
  {
  }

  lemma OnlyTails(s: string, piece: string)
    requires LastLead(s + piece) == None
    ensures LastLead(s) == None && Process(s, piece) == ("", s + piece)
  {
    var all := s + piece;
    forall k | 0 <= k < |s| ensures IsTail(s[k]) {
      assert s[k] == all[k];
    }
    NoLead(s);
    AllTails(all, 1);
  }

  lemma {:induction false} FedBytes(pieces: seq<string>)
    ensures Feed(pieces).0 + Feed(pieces).1 == Concat(pieces)
    decreases |pieces|
  {
    if pieces != [] {
      var front, piece := pieces[..|pieces| - 1], pieces[|pieces| - 1];
      FedBytes(front);
      JoinLast(pieces);
      var (out, held) := Feed(front);
      NothingLost(held, piece);
      assert out + (held + piece) == (out + held) + piece;
    }
  }

  /** A settled stream has one outcome, however it is cut. */
  lemma {:induction false} SettledFeed(pieces: seq<string>)
    requires Settled(Concat(pieces))
    ensures Feed(pieces) == Outcome(Concat(pieces))
    decreases |pieces|
  {
    hide PrefixLen, Settled;
    var all := Concat(pieces);
    if pieces != [] {
      var front, piece := pieces[..|pieces| - 1], pieces[|pieces| - 1];
      var before := Concat(front);
      JoinLast(pieces);
      FedBytes(front);
      var (out, held) := Feed(front);
      match LastLead(all)
      case None =>
        OnlyTails(before, piece);
        NoneSettled(before);
        SettledFeed(front);
      case Some(at) =>
        if at >= |before| {
          LeadInPiece(out, held, piece, at);
        } else {
          TailsInPiece(before, piece, at);
          SettledFeed(front);
        }
    }
  }

  lemma NoneSettled(s: string)
    requires LastLead(s) == None
    ensures Settled(s)
  {
  }

  /** Where an unsettled stream is cut to come out differently: behind the tail bytes its last lead
      announces. The bytes behind them are then held, and otherwise released or held with it. */
  lemma UnsettledFeed(s: string) returns (n: nat)
    requires !Settled(s)
    ensures LastLead(s).Some? && n == LastLead(s).value + Announced(s[LastLead(s).value]) && n < |s|
    ensures Feed([s]) != Feed([s[..n], s[n..]])
  {
    hide Feed;
    var at := LastLead(s).value;
    n := at + Announced(s[at]);
    CutBehind(s, at, n);
    WholeAtOnce(s, at);
  }

  lemma WholeAtOnce(s: string, at: nat)
    requires LastLead(s) == Some(at) && |s| - at > Announced(s[at])
    ensures Feed([s]) == (s, "") || Feed([s]) == ("", s)
  {
    hide Process, Feed, PrefixLen, LookBack;
    FeedFirst(s);
    if |s| - at <= MAX_CODE {
      PrefixAt(s, at);
      ReleasesAll("", s, s);
    } else {
      BehindMany(s, at, 1);
      TailsKept(s);
      ReleasesNone("", s, s);
    }
  }

  lemma CutBehind(s: string, at: nat, n: nat)
    requires LastLead(s) == Some(at) && n == at + Announced(s[at]) && n < |s|
    ensures Feed([s[..n], s[n..]]) == (s[..n], s[n..])
  {
    hide LastLead, PrefixLen, LookBack;
    var front, tails := s[..n], s[n..];
    var pieces := [front, tails];
    assert front + tails == s;
    FrontLead(front, tails, at);
    assert Feed([front]) == (front, "") by {
      assert [front][1..] == [] && front + "" == front;
      SettledFeed([front]);
    }
    assert Process("", tails) == ("", tails) by {
      AllTails(tails, 1);
      TailsKept(tails);
      ReleasesNone("", tails, tails);
    }
    assert pieces[..1] == [front] && pieces[1] == tails && front + "" == front;
  }

  lemma TailsKept(tails: string)
    requires LookBack(tails, 1) == 0
    ensures PrefixLen(tails) == 0
  {
  }

  /** Behind more tail bytes than any code point has the lead is not seen. */
  lemma {:induction false} BehindMany(s: string, at: nat, i: nat)
    requires at + MAX_CODE < |s| && i > 0 && forall k :: at < k < |s| ==> IsTail(s[k])
    ensures LookBack(s, i) == 0
    decreases |s| + 1 - i
  {
    if i <= MAX_CODE {
      BehindMany(s, at, i + 1);
    }
  }

  lemma FeedFirst(piece: string)
    ensures Feed([piece]) == Process("", piece)
  {
    var pieces := [piece];
    assert pieces[..|pieces| - 1] == [] && Feed([]) == ("", "");
    var ready := Process("", piece).0;
    assert "" + ready == ready;
  }

  /** What is released and what is held depends on the cuts exactly when more tail bytes stand at
      the end than their lead announces. */
  lemma CutsMatterExactly(s: string)
    ensures Settled(s) <==> forall a, b :: Concat(a) == s && Concat(b) == s ==> Feed(a) == Feed(b)
  {
    if Settled(s) {
      forall a, b | Concat(a) == s && Concat(b) == s ensures Feed(a) == Feed(b) {
        SettledFeed(a);
        SettledFeed(b);
      }
    } else {
      var n := UnsettledFeed(s);
      CutInTwo(s, n);
    }
  }

  /** A stray tail byte is let through behind the byte it came with, and held when it comes alone. */
  lemma MalformedDependsOnCuts()
    ensures var a, b := "\U{C3}\U{80}", "\U{80}";
      Concat([a + b]) == Concat([a, b]) && Feed([a + b]) != Feed([a, b])
  {
    var a, b := "\U{C3}\U{80}", "\U{80}";
    var s := a + b;
    LastLeadIs(s, 0);
    var n := UnsettledFeed(s);
    assert s[..n] == a && s[n..] == b;
    assert [s][1..] == [] && [a, b][1..] == [b] && [b][1..] == [];
    assert s + "" == a + (b + "");
  }

  /** Tail bytes alone are malformed too, and are held however they come. */
  lemma StrayTailsDoNot(pieces: seq<string>)
    requires forall k :: 0 <= k < |Concat(pieces)| ==> IsTail(Concat(pieces)[k])
    ensures Feed(pieces) == ("", Concat(pieces))
  {
    NoLead(Concat(pieces));
    SettledFeed(pieces);
  }

  /** The high bits of a byte say how many bytes a code point has that begins with it: `110xxxxx` two,
      `1110xxxx` three, `11110xxx` four, and any other one. */
  function HighBits(c: int): nat {
    if 0xC0 <= c <= 0xDF then 2 else if 0xE0 <= c <= 0xEF then 3 else if 0xF0 <= c <= 0xF7 then 4 else 1
  }

  lemma SettledBy(front: string, lead: char, tails: string, s: string)
    requires (lead as int < 0x80 || lead as int > 0xBF) && s == front + ([lead] + tails)
    requires forall k :: 0 <= k < |tails| ==> 0x80 <= tails[k] as int <= 0xBF
    ensures Settled(s) <==> 1 + |tails| <= HighBits(lead as int)
    ensures Outcome(s) == if 1 + |tails| < HighBits(lead as int) then (front, [lead] + tails) else (s, "")
  {
    hide LastLead;
    var code := [lead] + tails;
    assert forall k :: 1 <= k < |code| ==> code[k] == tails[k - 1];
    LeadBehind(front, code);
    assert s[|front|] == lead && s[..|front|] == front && s[|front|..] == code;
  }

  /** The same, told by the bytes: a stream that ends in a byte that is no tail byte and some that are. */
  lemma LeadDecides(front: string, lead: char, tails: string, pieces: seq<string>)
    requires lead as int < 0x80 || lead as int > 0xBF
    requires forall k :: 0 <= k < |tails| ==> 0x80 <= tails[k] as int <= 0xBF
    requires Concat(pieces) == front + ([lead] + tails)
    ensures var n := HighBits(lead as int);
      && (1 + |tails| < n ==> Feed(pieces) == (front, [lead] + tails))
      && (1 + |tails| == n ==> Feed(pieces) == (Concat(pieces), ""))
      && (1 + |tails| > n <==> exists others :: Concat(others) == Concat(pieces) && Feed(others) != Feed(pieces))
  {
    hide Settled, Outcome, HighBits, Concat, Feed;
    var s := Concat(pieces);
    SettledBy(front, lead, tails, s);
    CutsMatterExactly(s);
    if Settled(s) {
      SettledFeed(pieces);
    } else {
      var a, b :| Concat(a) == s && Concat(b) == s && Feed(a) != Feed(b);
      assert Feed(a) != Feed(pieces) || Feed(b) != Feed(pieces);
    }
  }

  lemma CutInTwo(s: string, n: nat)
    requires n <= |s|
    ensures Concat([s]) == s && Concat([s[..n], s[n..]]) == s
  {
    assert [s][1..] == [] && s + "" == s;
    var parts := [s[..n], s[n..]];
    assert parts[1..] == [s[n..]] && parts[1..][1..] == [];
    assert s[..n] + (s[n..] + "") == s;
  }

  // ---------------------------------------------------------------------------------------
  // Well-formed bytes: RFC 3629, sections 3 and 4
  // ---------------------------------------------------------------------------------------

  predicate Between(c: char, low: int, high: int) {
    low <= c as int <= high
  }

  /** The bytes that may follow a first byte `a` directly. */
  predicate Second(a: char, b: char) {
    if a as int == 0xE0 then Between(b, 0xA0, 0xBF)
    else if a as int == 0xED then Between(b, 0x80, 0x9F)
    else if a as int == 0xF0 then Between(b, 0x90, 0xBF)
    else if a as int == 0xF4 then Between(b, 0x80, 0x8F)
    else IsTail(b)
  }

  /** Length of the code point at the front of `s`, or 0 when there is none. */
  function CodeLen(s: string): (n: nat)
    ensures n <= |s| && n <= MAX_CODE
  {
    if s == "" then 0
    else if Between(s[0], 0x00, 0x7F) then 1
    else if Between(s[0], 0xC2, 0xDF) && |s| >= 2 && IsTail(s[1]) then 2
    else if Between(s[0], 0xE0, 0xEF) && |s| >= 3 && Second(s[0], s[1]) && IsTail(s[2]) then 3
    else if Between(s[0], 0xF0, 0xF4) && |s| >= 4 && Second(s[0], s[1]) && IsTail(s[2]) && IsTail(s[3]) then 4
    else 0
  }

  /** A sequence of code points. */
  predicate WellFormed(s: string)
    decreases |s|
  {
    s == "" || (CodeLen(s) > 0 && WellFormed(s[CodeLen(s)..]))
  }

  /** Bytes of all whole code points at the front. */
  function Whole(s: string): (n: nat)
    ensures n <= |s|
    decreases |s|
  {
    if CodeLen(s) == 0 then 0 else CodeLen(s) + Whole(s[CodeLen(s)..])
  }

  /** What has come in so far can still become well-formed. */
  ghost predicate Extendable(s: string) {
    exists t :: WellFormed(s + t)
  }

  /** The first bytes of a code point, not all of it. */
  ghost predicate Begun(s: string) {
    s != "" && exists t :: CodeLen(s + t) > |s|
  }

  /** A code point is told from its own bytes. */
  lemma CodeLenFront(s: string, t: string)
    ensures CodeLen(s) > 0 ==> CodeLen(s + t) == CodeLen(s)
    ensures CodeLen(s + t) > 0 && CodeLen(s + t) <= |s| ==> CodeLen(s) == CodeLen(s + t)
  {
  }

  lemma {:induction false} WholeWellFormed(s: string)
    ensures WellFormed(s[..Whole(s)])
    decreases |s|
  {
    var n := CodeLen(s);
    if n > 0 {
      var rest := s[n..];
      WholeWellFormed(rest);
      var w := s[..Whole(s)];
      CodeLenFront(s[..n], s[n..]);
      assert s[..n] + s[n..] == s;
      CodeLenFront(s[..n], rest[..Whole(rest)]);
      assert w == s[..n] + rest[..Whole(rest)];
      assert w[n..] == rest[..Whole(rest)];
    }
  }

  /** Behind the whole code points of an extendable stream there is at most a begun one. */
  lemma {:induction false} RestBegun(s: string, t: string)
    requires WellFormed(s + t)
    ensures s[Whole(s)..] == "" || Begun(s[Whole(s)..])
    decreases |s|
  {
    if s != "" {
      var n := CodeLen(s + t);
      CodeLenFront(s, t);
      if n <= |s| {
        assert (s + t)[n..] == s[n..] + t;
        RestBegun(s[n..], t);
        assert s[Whole(s)..] == s[n..][Whole(s[n..])..];
      } else {
        assert Whole(s) == 0 && s[0..] == s;
      }
    }
  }

  lemma {:induction false} LastCode(w: string) returns (front: string, code: string)
    requires WellFormed(w) && w != ""
    ensures w == front + code && code != "" && CodeLen(code) == |code|
    decreases |w|
  {
    var n := CodeLen(w);
    CodeLenFront(w[..n], w[n..]);
    assert w == w[..n] + w[n..];
    if n == |w| {
      front, code := "", w;
    } else {
      var f, c := LastCode(w[n..]);
      front, code := w[..n] + f, c;
    }
  }

  /** All bytes behind the first are tail bytes, and the first says how many there will be. */
  lemma CodeShape(s: string, t: string)
    requires s != "" && CodeLen(s + t) >= |s|
    ensures |s| <= MAX_CODE && !IsTail(s[0]) && Announced(s[0]) == CodeLen(s + t)
    ensures forall k :: 1 <= k < |s| ==> IsTail(s[k])
  {
    var c := s + t;
    assert forall k :: 0 <= k < |s| ==> c[k] == s[k];
  }

  /** A stream that can become well-formed is settled, and comes out cut behind its whole code points. */
  lemma ExtendableSettled(s: string)
    requires Extendable(s)
    ensures Settled(s) && Outcome(s) == (s[..Whole(s)], s[Whole(s)..])
    ensures |s[Whole(s)..]| < MAX_CODE
  {
    hide CodeLen, LastLead, Announced, Outcome, Settled;
    var t :| WellFormed(s + t);
    var w, p := s[..Whole(s)], s[Whole(s)..];
    assert WellFormed(w) && (p == "" || Begun(p)) by {
      WholeWellFormed(s);
      RestBegun(s, t);
    }
    assert s == w + p;
    if p != "" {
      BegunOutcome(w, p);
    } else {
      assert s == w;
      WholeOutcome(w);
    }
  }

  lemma BegunOutcome(w: string, p: string)
    requires Begun(p)
    ensures Settled(w + p) && Outcome(w + p) == (w, p) && |p| < MAX_CODE
  {
    var u :| CodeLen(p + u) > |p|;
    CodeShape(p, u);
    LeadBehind(w, p);
    assert (w + p)[..|w|] == w && (w + p)[|w|..] == p && (w + p)[|w|] == p[0];
  }

  lemma WholeOutcome(w: string)
    requires WellFormed(w)
    ensures Settled(w) && Outcome(w) == (w, "")
  {
    if w != "" {
      var front, code := LastCode(w);
      assert code + "" == code;
      CodeShape(code, "");
      LeadBehind(front, code);
      assert w[|front|] == code[0];
    }
  }

  lemma LeadBehind(front: string, code: string)
    requires code != "" && !IsTail(code[0]) && forall k :: 1 <= k < |code| ==> IsTail(code[k])
    ensures LastLead(front + code) == Some(|front|)
  {
    var s := front + code;
    forall k | |front| < k < |s| ensures IsTail(s[k]) {
      assert s[k] == code[k - |front|];
    }
    LastLeadIs(s, |front|);
  }

  /** As long as the stream can become well-formed, exactly its whole code points have been
      released, whatever the cuts were; less than one code point is held. */
  lemma WholeCodePoints(pieces: seq<string>)
    requires Extendable(Concat(pieces))
    ensures var all := Concat(pieces); Feed(pieces) == (all[..Whole(all)], all[Whole(all)..])
    ensures WellFormed(Feed(pieces).0) && |Feed(pieces).1| < MAX_CODE
  {
    ExtendableSettled(Concat(pieces));
    SettledFeed(pieces);
    WholeWellFormed(Concat(pieces));
  }

  /** So the same stream cut differently is released the same way. */
  lemma CutsDoNotMatter(pieces: seq<string>, others: seq<string>)
    requires Concat(pieces) == Concat(others) && Extendable(Concat(pieces))
    ensures Feed(pieces) == Feed(others)
  {
    ExtendableSettled(Concat(pieces));
    CutsMatterExactly(Concat(pieces));
  }
}
