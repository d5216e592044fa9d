/** Wildcard search (`src/common/tools/tool_search_text.cpp`): `*` stands for any run of characters,
    and the literal parts must occur in order. */
module SearchText {
  import opened Strings

  /** `std::tolower` in the C locale. */
  function Lower(c: char): char {
    if 'A' <= c <= 'Z' then 'a' + (c - 'A') else c
  }

  predicate SameChar(left: char, right: char, caseSensitive: bool) {
    if caseSensitive then left == right else Lower(left) == Lower(right)
  }

  /** `part` stands at `at`, up to case. */
  predicate StandsAt(text: string, part: string, at: nat, caseSensitive: bool) {
    at + |part| <= |text| && forall k :: 0 <= k < |part| ==> SameChar(text[at + k], part[k], caseSensitive)
  }

  /** `find_from`: the leftmost place from `from` on. */
  function FindFrom(text: string, from: nat, part: string, caseSensitive: bool): (r: Option<nat>)
    ensures r.Some? ==> from <= r.value && StandsAt(text, part, r.value, caseSensitive)
    ensures forall at :: from <= at && StandsAt(text, part, at, caseSensitive) ==> r.Some? && r.value <= at
    decreases |text| - from
  {
    if from + |part| > |text| then None
    else if StandsAt(text, part, from, caseSensitive) then Some(from)
    else FindFrom(text, from + 1, part, caseSensitive)
  }

  /** The pattern from `start` on, cut at its stars. */
  function Parts(pattern: string, start: nat): seq<string>
    requires start <= |pattern|
    decreases |pattern| - start
  {
    match FindChar(pattern, '*', start)
    case None => [pattern[start..]]
    case Some(star) => [pattern[start..star]] + Parts(pattern, star + 1)
  }

  /** One after the other, each part at its leftmost place behind the one before. Empty parts match
      anywhere and move nothing. */
  predicate Greedy(text: string, parts: seq<string>, from: nat, caseSensitive: bool)
    decreases |parts|
  {
    if parts == [] then true
    else if parts[0] == "" then Greedy(text, parts[1..], from, caseSensitive)
    else match FindFrom(text, from, parts[0], caseSensitive)
      case None => false
      case Some(at) => Greedy(text, parts[1..], at + |parts[0]|, caseSensitive)
  }

  lemma GreedyCons(text: string, part: string, rest: seq<string>, from: nat, caseSensitive: bool)
    ensures Greedy(text, [part] + rest, from, caseSensitive)
         == if part == "" then Greedy(text, rest, from, caseSensitive)
            else var place := FindFrom(text, from, part, caseSensitive);
              place.Some? && Greedy(text, rest, place.value + |part|, caseSensitive)
  {
    assert ([part] + rest)[1..] == rest;
  }

  method WildcardContains(text: string, pattern: string, caseSensitive: bool) returns (found: bool)
    ensures found == Greedy(text, Parts(pattern, 0), 0, caseSensitive)
  {
    hide StandsAt, Greedy, Parts;
    var from: nat := 0;
    var start: nat := 0;
    ghost var whole := Greedy(text, Parts(pattern, 0), 0, caseSensitive);
    ghost var ahead := Parts(pattern, 0);
    while start <= |pattern|
      invariant start <= |pattern| && ahead == Parts(pattern, start)
      invariant Greedy(text, ahead, from, caseSensitive) == whole
      decreases |pattern| - start
    {
      var star := FindChar(pattern, '*', start);
      var end := if star.None? then |pattern| else star.value;
      var part := pattern[start..end];
      ghost var rest := if star.None? then [] else Parts(pattern, end + 1);
      PartsAre(pattern, start, star, part, rest);
      GreedyCons(text, part, rest, from, caseSensitive);
      if part != "" {
        var place := FindFrom(text, from, part, caseSensitive);
        if place.None? {
          return false;
        }
        from := place.value + |part|;
      }
      if star.None? {
        NothingLeft(text, from, caseSensitive);
        break;
      }
      start, ahead := star.value + 1, rest;
    }
    NothingLeft(text, from, caseSensitive);
    found := true;
  }

  lemma PartsAre(pattern: string, start: nat, star: Option<nat>, part: string, rest: seq<string>)
    requires start <= |pattern| && star == FindChar(pattern, '*', start)
    requires if star.None? then part == pattern[start..|pattern|] && rest == []
             else part == pattern[start..star.value] && rest == Parts(pattern, star.value + 1)
    ensures Parts(pattern, start) == [part] + rest
  {
    hide FindChar;
    if star.None? {
      assert part == pattern[start..] && [part] + [] == [part];
    }
  }

  lemma NothingLeft(text: string, from: nat, caseSensitive: bool)
    ensures Greedy(text, [], from, caseSensitive)
  {
  }

  /** A choice of places for the parts: in order, none overlapping the one before, none before
      `from`. */
  ghost predicate Placed(text: string, parts: seq<string>, places: seq<nat>, from: nat, caseSensitive: bool)
    decreases |parts|
  {
    if parts == [] then places == []
    else
      && places != [] && places[0] >= from
      && StandsAt(text, parts[0], places[0], caseSensitive)
      && Placed(text, parts[1..], places[1..], places[0] + |parts[0]|, caseSensitive)
  }

  lemma {:induction false} PlacedEarlier(text: string, parts: seq<string>, places: seq<nat>, from: nat, earlier: nat, caseSensitive: bool)
    requires Placed(text, parts, places, from, caseSensitive) && earlier <= from
    ensures Placed(text, parts, places, earlier, caseSensitive)
  {
  }

  /** Taking the leftmost place each time never misses a match. */
  lemma {:induction false} GreedyFindsAny(text: string, parts: seq<string>, places: seq<nat>, from: nat, caseSensitive: bool)
    requires Placed(text, parts, places, from, caseSensitive)
    ensures Greedy(text, parts, from, caseSensitive)
    decreases |parts|
  {
    if parts != [] {
      var part, rest := parts[0], parts[1..];
      if part == "" {
        PlacedEarlier(text, rest, places[1..], places[0], from, caseSensitive);
        GreedyFindsAny(text, rest, places[1..], from, caseSensitive);
      } else {
        var at := FindFrom(text, from, part, caseSensitive).value;
        PlacedEarlier(text, rest, places[1..], places[0] + |part|, at + |part|, caseSensitive);
        GreedyFindsAny(text, rest, places[1..], at + |part|, caseSensitive);
      }
    }
  }

  /** What the greedy search finds is a choice of places. */
  lemma {:induction false} GreedyPlaces(text: string, parts: seq<string>, from: nat, caseSensitive: bool) returns (places: seq<nat>)
    requires Greedy(text, parts, from, caseSensitive) && from <= |text|
    ensures Placed(text, parts, places, from, caseSensitive)
    decreases |parts|
  {
    if parts == [] {
      places := [];
    } else {
      var at := if parts[0] == "" then from else FindFrom(text, from, parts[0], caseSensitive).value;
      var rest := GreedyPlaces(text, parts[1..], at + |parts[0]|, caseSensitive);
      places := [at] + rest;
      assert places[1..] == rest;
    }
  }

  /** Some choice of places exists. */
  ghost predicate Placeable(text: string, parts: seq<string>, caseSensitive: bool) {
    exists places :: Placed(text, parts, places, 0, caseSensitive)
  }

  /** The search succeeds exactly when the literal parts of the pattern can be placed in order. */
  lemma WildcardComplete(text: string, pattern: string, caseSensitive: bool)
    ensures Greedy(text, Parts(pattern, 0), 0, caseSensitive) <==> Placeable(text, Parts(pattern, 0), caseSensitive)
  {
    var parts := Parts(pattern, 0);
    if Greedy(text, parts, 0, caseSensitive) {
      var places := GreedyPlaces(text, parts, 0, caseSensitive);
      assert Placeable(text, parts, caseSensitive);
    }
    if Placeable(text, parts, caseSensitive) {
      var places :| Placed(text, parts, places, 0, caseSensitive);
      GreedyFindsAny(text, parts, places, 0, caseSensitive);
    }
  }
}
