/** Facts about searching text for a mark: what is ahead of a position decides what is found, and a
    mark whose first character is nowhere else in it never overlaps itself. */
module TextSearch {
  import opened Strings

  /** The first character of the mark is nowhere else in it. */
  predicate Rigid(mark: string) {
    mark != "" && forall k :: 1 <= k < |mark| ==> mark[k] != mark[0]
  }

  /** From `pos` on the text is `s`. */
  predicate Ahead(text: string, pos: nat, s: string) {
    pos + |s| == |text| && forall k :: 0 <= k < |s| ==> text[pos + k] == s[k]
  }

  lemma AheadSplit(text: string, pos: nat, a: string, b: string)
    requires Ahead(text, pos, a + b)
    ensures pos + |a| <= |text| && text[pos..pos + |a|] == a && Ahead(text, pos + |a|, b)
  {
    forall k | 0 <= k < |a| ensures text[pos + k] == a[k] {
      assert (a + b)[k] == a[k];
    }
    forall k | 0 <= k < |b| ensures text[pos + |a| + k] == b[k] {
      assert (a + b)[|a| + k] == b[k];
    }
  }

  lemma FirstAhead(text: string, pos: nat, s: string)
    requires Ahead(text, pos, s) && s != ""
    ensures pos < |text| && text[pos] == s[0]
  {
    assert text[pos + 0] == s[0];
  }

  function Shifted(r: Option<nat>, offset: nat): Option<nat> {
    match r case None => None case Some(at) => Some(offset + at)
  }

  /** A search from `pos` on is a search in what is ahead. */
  lemma {:induction false} FindAhead(text: string, pos: nat, s: string, p: string, k: nat)
    requires Ahead(text, pos, s)
    ensures Find(text, p, pos + k) == Shifted(Find(s, p, k), pos)
    decreases |s| - k
  {
    if k + |p| <= |s| {
      assert s[k..k + |p|] == text[pos + k..pos + k + |p|];
      if s[k..k + |p|] != p {
        FindAhead(text, pos, s, p, k + 1);
      }
    }
  }

  lemma OccursChar(s: string, p: string, i: nat, k: nat)
    requires OccursAt(s, p, i) && k < |p|
    ensures s[i + k] == p[k]
  {
    assert s[i..i + |p|][k] == s[i + k];
  }

  predicate Without(s: string, mark: string) {
    forall i :: 0 <= i < |s| ==> !OccursAt(s, mark, i)
  }

  /** A rigid mark does not begin in front of another one and end inside it. */
  lemma EarlyMark(front: string, mark: string, rest: string, i: nat)
    requires Rigid(mark) && i < |front| && OccursAt(front + (mark + rest), mark, i)
    ensures OccursAt(front, mark, i)
  {
    var s := front + (mark + rest);
    assert s[|front|] == mark[0];
    if |front| - i < |mark| {
      OccursChar(s, mark, i, |front| - i);
    }
    assert front[i..i + |mark|] == s[i..i + |mark|];
  }

  /** The mark is first found behind text that has none. */
  lemma MarkFound(front: string, mark: string, rest: string)
    requires Rigid(mark) && Without(front, mark)
    ensures Find(front + (mark + rest), mark, 0) == Some(|front|)
  {
    var s := front + (mark + rest);
    assert s[|front|..|front| + |mark|] == mark;
    forall i | 0 <= i < |front| ensures !OccursAt(s, mark, i) {
      if OccursAt(s, mark, i) {
        EarlyMark(front, mark, rest, i);
      }
    }
    FindIs(s, mark, 0, |front|);
  }

  lemma MarkAhead(text: string, pos: nat, front: string, mark: string, rest: string)
    requires Rigid(mark) && Without(front, mark) && Ahead(text, pos, front + (mark + rest))
    ensures var at := pos + |front|;
      Find(text, mark, pos) == Some(at) && OccursAt(text, mark, at) && Ahead(text, at + |mark|, rest)
  {
    hide Find, Rigid, Without;
    assert Find(text, mark, pos) == Some(pos + |front|) by {
      MarkFound(front, mark, rest);
      FindAhead(text, pos, front + (mark + rest), mark, 0);
    }
    AheadSplit(text, pos, front, mark + rest);
    AheadSplit(text, pos + |front|, mark, rest);
  }

  /** What occurs in a part occurs in the whole. */
  lemma OccursIn(s: string, a: nat, b: nat, p: string, i: nat)
    requires a <= b <= |s| && OccursAt(s[a..b], p, i)
    ensures OccursAt(s, p, a + i)
  {
    var t := s[a..b];
    assert forall k :: i <= k < i + |p| ==> t[k] == s[a + k];
    assert t[i..i + |p|] == s[a + i..a + i + |p|];
  }

  /** What occurs inside a part of the whole occurs in that part. */
  lemma OccursInside(s: string, a: nat, b: nat, p: string, i: nat)
    requires a <= i && i + |p| <= b <= |s| && OccursAt(s, p, i)
    ensures OccursAt(s[a..b], p, i - a)
  {
    var t := s[a..b];
    assert forall k :: i <= k < i + |p| ==> t[k - a] == s[k];
    assert t[i - a..i - a + |p|] == s[i..i + |p|];
  }

  lemma SliceWithout(s: string, a: nat, b: nat, mark: string)
    requires a <= b <= |s| && Without(s, mark)
    ensures Without(s[a..b], mark)
  {
    forall i | 0 <= i < b - a ensures !OccursAt(s[a..b], mark, i) {
      if OccursAt(s[a..b], mark, i) {
        OccursIn(s, a, b, mark, i);
      }
    }
  }

  lemma NoMarkStart(s: string, mark: string)
    requires mark != "" && forall k :: 0 <= k < |s| ==> s[k] != mark[0]
    ensures Without(s, mark)
  {
    forall i | 0 <= i < |s| ensures !OccursAt(s, mark, i) {
      if OccursAt(s, mark, i) {
        OccursChar(s, mark, i, 0);
      }
    }
  }

  /** A character that is not in the mark keeps two texts apart. */
  lemma WithoutJoin(a: string, c: char, b: string, mark: string)
    requires Without(a, mark) && Without(b, mark) && mark != "" && forall k :: 0 <= k < |mark| ==> mark[k] != c
    ensures Without(a + ([c] + b), mark)
  {
    var s := a + ([c] + b);
    forall i | 0 <= i < |s| ensures !OccursAt(s, mark, i) {
      if OccursAt(s, mark, i) {
        JoinOccurs(a, c, b, mark, i);
      }
    }
  }

  lemma JoinOccurs(a: string, c: char, b: string, mark: string, i: nat)
    requires OccursAt(a + ([c] + b), mark, i) && mark != "" && forall k :: 0 <= k < |mark| ==> mark[k] != c
    ensures OccursAt(a, mark, i) || (i > |a| && OccursAt(b, mark, i - |a| - 1))
  {
    var s, n := a + ([c] + b), |a|;
    assert s[..n] == a && s[n] == c && s[n + 1..] == b;
    if i <= n && n < i + |mark| {
      OccursChar(s, mark, i, n - i);
    }
    if i + |mark| <= n {
      OccursInside(s, 0, n, mark, i);
    } else {
      OccursInside(s, n + 1, |s|, mark, i);
    }
  }
}
