/** Wildcard search against the usual meaning of a pattern (`src/common/tools/tool_search_text.cpp`). */
module SearchLaws {
  import opened Strings
  import opened SearchText

  /** Without regard to case a letter is like the one 32 places away. */
  predicate Alike(a: char, b: char, caseSensitive: bool) {
    || a == b
    || (!caseSensitive && ('A' <= a <= 'Z' && b as int == a as int + 32))
    || (!caseSensitive && ('A' <= b <= 'Z' && a as int == b as int + 32))
  }

  /** The pattern from `p` on matches text that begins at `i`: a star stands for any run of
      characters, every other character for one like it. */
  ghost predicate Matches(text: string, i: nat, pattern: string, p: nat, caseSensitive: bool)
    requires i <= |text| && p <= |pattern|
    decreases |pattern| - p
  {
    if p == |pattern| then true
    else if pattern[p] == '*' then
      var next := p + 1;
      exists j :: i <= j <= |text| && Matches(text, j, pattern, next, caseSensitive)
    else i < |text| && Alike(text[i], pattern[p], caseSensitive) && Matches(text, i + 1, pattern, p + 1, caseSensitive)
  }

  lemma SameIsAlike(a: char, b: char, caseSensitive: bool)
    ensures SameChar(a, b, caseSensitive) <==> Alike(a, b, caseSensitive)
  {
  }

  lemma StarParts(pattern: string, p: nat)
    requires p < |pattern| && pattern[p] == '*'
    ensures Parts(pattern, p) == [""] + Parts(pattern, p + 1)
  {
    assert pattern[p..p] == "";
  }

  lemma CharParts(pattern: string, p: nat)
    requires p < |pattern| && pattern[p] != '*'
    ensures var parts := Parts(pattern, p + 1);
      parts != [] && Parts(pattern, p) == [[pattern[p]] + parts[0]] + parts[1..]
  {
    var star := FindChar(pattern, '*', p + 1);
    assert FindChar(pattern, '*', p) == star;
    var parts := Parts(pattern, p + 1);
    if star.None? {
      assert pattern[p..] == [pattern[p]] + pattern[p + 1..];
      assert parts[1..] == [];
    } else {
      assert pattern[p..star.value] == [pattern[p]] + pattern[p + 1..star.value];
      assert parts[1..] == Parts(pattern, star.value + 1);
    }
  }

  lemma StandsCons(text: string, c: char, part: string, i: nat, caseSensitive: bool)
    ensures StandsAt(text, [c] + part, i, caseSensitive)
      <==> i < |text| && Alike(text[i], c, caseSensitive) && StandsAt(text, part, i + 1, caseSensitive)
  {
    var whole := [c] + part;
    forall a, b ensures SameChar(a, b, caseSensitive) <==> Alike(a, b, caseSensitive) {
      SameIsAlike(a, b, caseSensitive);
    }
    if i < |text| && Alike(text[i], c, caseSensitive) && StandsAt(text, part, i + 1, caseSensitive) {
      forall k | 0 <= k < |whole| ensures SameChar(text[i + k], whole[k], caseSensitive) {
        if k > 0 {
          assert SameChar(text[i + 1 + (k - 1)], part[k - 1], caseSensitive);
        }
      }
    }
    if StandsAt(text, whole, i, caseSensitive) {
      assert SameChar(text[i + 0], whole[0], caseSensitive);
      forall k | 0 <= k < |part| ensures SameChar(text[i + 1 + k], part[k], caseSensitive) {
        assert SameChar(text[i + (k + 1)], whole[k + 1], caseSensitive);
      }
    }
  }

  /** What is matched gives places for the parts, the first of them where the match begins. */
  lemma {:induction false} MatchPlaces(text: string, i: nat, pattern: string, p: nat, caseSensitive: bool) returns (places: seq<nat>)
    requires i <= |text| && p <= |pattern| && Matches(text, i, pattern, p, caseSensitive)
    ensures places != [] && places[0] == i && Placed(text, Parts(pattern, p), places, i, caseSensitive)
    decreases |pattern| - p
  {
    hide FindChar, StandsAt, Parts;
    if p == |pattern| {
      places := [i];
      LastPart(text, i, pattern, caseSensitive);
    } else if pattern[p] == '*' {
      var j :| i <= j <= |text| && Matches(text, j, pattern, p + 1, caseSensitive);
      var more := MatchPlaces(text, j, pattern, p + 1, caseSensitive);
      StarParts(pattern, p);
      PlacedEarlier(text, Parts(pattern, p + 1), more, j, i, caseSensitive);
      places := [i] + more;
      EmptyStands(text, i, caseSensitive);
      PlacedCons(text, "", Parts(pattern, p + 1), i, more, caseSensitive);
    } else {
      var more := MatchPlaces(text, i + 1, pattern, p + 1, caseSensitive);
      var parts := Parts(pattern, p + 1);
      CharParts(pattern, p);
      StandsCons(text, pattern[p], parts[0], i, caseSensitive);
      places := [i] + more[1..];
      PlacedCons(text, [pattern[p]] + parts[0], parts[1..], i, more[1..], caseSensitive);
    }
  }

  lemma EmptyStands(text: string, i: nat, caseSensitive: bool)
    requires i <= |text|
    ensures StandsAt(text, "", i, caseSensitive)
  {
  }

  lemma LastPart(text: string, i: nat, pattern: string, caseSensitive: bool)
    requires i <= |text|
    ensures Parts(pattern, |pattern|) == [""] && Placed(text, [""], [i], i, caseSensitive)
  {
    assert pattern[|pattern|..] == "" && [""][1..] == [] && [i][1..] == [];
  }

  lemma PlacedCons(text: string, part: string, parts: seq<string>, at: nat, places: seq<nat>, caseSensitive: bool)
    ensures Placed(text, [part] + parts, [at] + places, at, caseSensitive)
      <==> StandsAt(text, part, at, caseSensitive) && Placed(text, parts, places, at + |part|, caseSensitive)
  {
    assert ([part] + parts)[1..] == parts && ([at] + places)[1..] == places;
  }

  /** And places for the parts give a match that begins at the first of them. */
  lemma {:induction false} PlacesMatch(text: string, pattern: string, p: nat, at: nat, places: seq<nat>, caseSensitive: bool)
    requires p <= |pattern| && Placed(text, Parts(pattern, p), [at] + places, at, caseSensitive)
    ensures at <= |text| && Matches(text, at, pattern, p, caseSensitive)
    decreases |pattern| - p
  {
    hide FindChar, StandsAt, Parts;
    if p < |pattern| && pattern[p] == '*' {
      StarParts(pattern, p);
      PlacedCons(text, "", Parts(pattern, p + 1), at, places, caseSensitive);
      StandsInside(text, "", at, caseSensitive);
      PartsSome(pattern, p + 1);
      assert places == [places[0]] + places[1..];
      var more := Parts(pattern, p + 1);
      PlacedAtFirst(text, more, places, at, caseSensitive);
      PlacesMatch(text, pattern, p + 1, places[0], places[1..], caseSensitive);
    } else if p < |pattern| {
      var parts := Parts(pattern, p + 1);
      CharParts(pattern, p);
      PlacedCons(text, [pattern[p]] + parts[0], parts[1..], at, places, caseSensitive);
      StandsCons(text, pattern[p], parts[0], at, caseSensitive);
      PlacedCons(text, parts[0], parts[1..], at + 1, places, caseSensitive);
      assert parts == [parts[0]] + parts[1..];
      PlacesMatch(text, pattern, p + 1, at + 1, places, caseSensitive);
    } else {
      LastPart(text, 0, pattern, caseSensitive);
      PlacedCons(text, "", [], at, places, caseSensitive);
      assert [""] + [] == [""];
      StandsInside(text, "", at, caseSensitive);
    }
  }

  lemma StandsInside(text: string, part: string, at: nat, caseSensitive: bool)
    requires StandsAt(text, part, at, caseSensitive)
    ensures at + |part| <= |text|
  {
  }

  lemma PartsSome(pattern: string, p: nat)
    requires p <= |pattern|
    ensures Parts(pattern, p) != []
  {
  }

  lemma PlacedAtFirst(text: string, parts: seq<string>, places: seq<nat>, from: nat, caseSensitive: bool)
    requires parts != [] && Placed(text, parts, places, from, caseSensitive)
    ensures places != [] && places[0] >= from && Placed(text, parts, places, places[0], caseSensitive)
  {
  }

  /** The search succeeds exactly when the pattern matches at some place of the text. */
  lemma SearchIsMatch(text: string, pattern: string, caseSensitive: bool)
    ensures Greedy(text, Parts(pattern, 0), 0, caseSensitive)
      <==> exists i :: 0 <= i <= |text| && Matches(text, i, pattern, 0, caseSensitive)
  {
    hide Greedy, Parts, Matches, Placed;
    var parts := Parts(pattern, 0);
    WildcardComplete(text, pattern, caseSensitive);
    if Placeable(text, parts, caseSensitive) {
      var places :| Placed(text, parts, places, 0, caseSensitive);
      PartsSome(pattern, 0);
      PlacedAtFirst(text, parts, places, 0, caseSensitive);
      assert places == [places[0]] + places[1..];
      PlacesMatch(text, pattern, 0, places[0], places[1..], caseSensitive);
    }
    if i: nat :| i <= |text| && Matches(text, i, pattern, 0, caseSensitive) {
      var places := MatchPlaces(text, i, pattern, 0, caseSensitive);
      PlacedEarlier(text, parts, places, i, 0, caseSensitive);
      assert Placeable(text, parts, caseSensitive);
    }
  }
}
