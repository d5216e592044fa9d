/** Sessions parked in RAM under a byte budget (`src/server/llm/session_park.cpp`). */
module SessionPark {
  import opened Strings
  import opened LlamaContext

  const U64_MAX: nat := 0xFFFF_FFFF_FFFF_FFFF

  type Bytes = n: nat | n <= U64_MAX

  datatype Snapshot = Snapshot(tokens: seq<Token>, state: KvImage)

  datatype ParkedBytes = ParkedBytes(id: string, bytes: Bytes)

  datatype Entry = Entry(id: string, snapshot: Snapshot, bytes: Bytes)

  /** State buffer plus four bytes per token, saturated at 64 bits. */
  function ParkedSessionBytes(snapshot: Snapshot): (bytes: Bytes)
    ensures bytes == U64_MAX || bytes == snapshot.state.size + 4 * |snapshot.tokens|
    ensures snapshot.state.size + 4 * |snapshot.tokens| <= U64_MAX ==> bytes == snapshot.state.size + 4 * |snapshot.tokens|
  {
    if |snapshot.tokens| > U64_MAX / 4 then U64_MAX
    else
      var tokenBytes := |snapshot.tokens| * 4;
      if snapshot.state.size > U64_MAX - tokenBytes then U64_MAX
      else snapshot.state.size + tokenBytes
  }

  // ---------------------------------------------------------------------------------------
  // Admission plan
  // ---------------------------------------------------------------------------------------

  function Sum(parked: seq<ParkedBytes>): nat {
    if parked == [] then 0 else parked[0].bytes + Sum(parked[1..])
  }

  function Ids(parked: seq<ParkedBytes>): (ids: seq<string>)
    ensures |ids| == |parked| && forall k :: 0 <= k < |ids| ==> ids[k] == parked[k].id
  {
    seq(|parked|, k requires 0 <= k < |parked| => parked[k].id)
  }

  lemma {:induction false} SumSplit(parked: seq<ParkedBytes>, k: nat)
    requires k <= |parked|
    ensures Sum(parked) == Sum(parked[..k]) + Sum(parked[k..])
  {
    if k > 0 {
      SumSplit(parked[1..], k - 1);
      assert parked[..k][1..] == parked[1..][..k - 1];
      assert parked[1..][k - 1..] == parked[k..];
    } else {
      assert parked[0..] == parked;
    }
  }

  lemma SumStep(parked: seq<ParkedBytes>, k: nat)
    requires k < |parked|
    ensures Sum(parked[..k + 1]) == Sum(parked[..k]) + parked[k].bytes
    ensures Sum(parked[k..]) == parked[k].bytes + Sum(parked[k + 1..])
    ensures Sum(parked[..k + 1]) <= Sum(parked)
  {
    SumSplit(parked, k);
    SumSplit(parked, k + 1);
    assert parked[k..][0] == parked[k] && parked[k..][1..] == parked[k + 1..];
  }

  /** The sum, saturated at 64 bits. */
  method UsedBytes(oldestFirst: seq<ParkedBytes>) returns (used: Bytes)
    ensures used == if Sum(oldestFirst) < 0x1_0000_0000_0000_0000 then Sum(oldestFirst) else 0xFFFF_FFFF_FFFF_FFFF
  {
    used := 0;
    for at := 0 to |oldestFirst|
      invariant used == Sum(oldestFirst[..at])
    {
      SumStep(oldestFirst, at);
      if used > U64_MAX - oldestFirst[at].bytes {
        return U64_MAX;
      }
      used := used + oldestFirst[at].bytes;
    }
    assert oldestFirst[..|oldestFirst|] == oldestFirst;
  }

  /** The newcomer is kept iff it fits the whole budget alone. Then the shortest oldest-first
      prefix is spilled that makes room for it. */
  method PlanMemoryAdmit(oldestFirst: seq<ParkedBytes>, incoming: Bytes, limit: Bytes) returns (keep: bool, spill: seq<string>)
    ensures keep <==> 0 < incoming <= limit
    ensures !keep ==> spill == []
    ensures |spill| <= |oldestFirst| && spill == Ids(oldestFirst[..|spill|])
    ensures keep && Sum(oldestFirst) <= U64_MAX ==> Sum(oldestFirst[|spill|..]) + incoming <= limit
    ensures keep && Sum(oldestFirst) <= U64_MAX && spill != [] ==> Sum(oldestFirst[|spill| - 1..]) + incoming > limit
  {
    keep, spill := false, [];
    if limit == 0 || incoming == 0 || incoming > limit {
      return;
    }
    var used: nat := UsedBytes(oldestFirst);
    var room := limit - incoming;
    ghost var exact := Sum(oldestFirst) <= U64_MAX;
    assert oldestFirst[0..] == oldestFirst;
    var index := 0;
    while index < |oldestFirst| && used > room
      invariant index <= |oldestFirst| && |spill| == index
      invariant forall k :: 0 <= k < index ==> spill[k] == oldestFirst[k].id
      invariant if exact then used == Sum(oldestFirst[index..]) else used <= Sum(oldestFirst[index..])
      invariant exact && index > 0 ==> Sum(oldestFirst[index - 1..]) > room
    {
      SumStep(oldestFirst, index);
      spill := spill + [oldestFirst[index].id];
      if used >= oldestFirst[index].bytes {
        used := used - oldestFirst[index].bytes;
      } else {
        used := 0;
      }
      index := index + 1;
    }
    keep := used <= room;
  }

  // ---------------------------------------------------------------------------------------
  // The store
  // ---------------------------------------------------------------------------------------

  function Total(entries: seq<Entry>): nat {
    if entries == [] then 0 else entries[0].bytes + Total(entries[1..])
  }

  predicate Distinct(entries: seq<Entry>) {
    forall j, k :: 0 <= j < k < |entries| ==> entries[j].id != entries[k].id
  }

  function FindIn(entries: seq<Entry>, id: string): (r: Option<Snapshot>)
    ensures r.Some? <==> exists k :: 0 <= k < |entries| && entries[k].id == id
  {
    if entries == [] then None
    else if entries[0].id == id then Some(entries[0].snapshot)
    else FindIn(entries[1..], id)
  }

  /** The entries not called `id`. */
  function Without(entries: seq<Entry>, id: string): seq<Entry> {
    if entries == [] then []
    else if entries[0].id == id then Without(entries[1..], id)
    else [entries[0]] + Without(entries[1..], id)
  }

  lemma {:induction false} WithoutMembers(entries: seq<Entry>, id: string)
    ensures forall e :: e in Without(entries, id) <==> e in entries && e.id != id
  {
    if entries != [] {
      WithoutMembers(entries[1..], id);
    }
  }

  lemma {:induction false} WithoutAppend(a: seq<Entry>, b: seq<Entry>, id: string)
    ensures Without(a + b, id) == Without(a, id) + Without(b, id)
  {
    if a == [] {
      assert a + b == b;
    } else {
      var rest := a[1..];
      assert (a + b)[1..] == rest + b;
      WithoutAppend(rest, b, id);
      assert [a[0]] + (Without(rest, id) + Without(b, id)) == ([a[0]] + Without(rest, id)) + Without(b, id);
    }
  }

  lemma {:induction false} WithoutAbsent(entries: seq<Entry>, id: string)
    requires forall k :: 0 <= k < |entries| ==> entries[k].id != id
    ensures Without(entries, id) == entries && FindIn(entries, id).None?
  {
    if entries != [] {
      WithoutAbsent(entries[1..], id);
    }
  }

  lemma {:induction false} TotalAppend(a: seq<Entry>, b: seq<Entry>)
    ensures Total(a + b) == Total(a) + Total(b)
  {
    if a == [] {
      assert a + b == b;
    } else {
      assert (a + b)[1..] == a[1..] + b;
      TotalAppend(a[1..], b);
    }
  }

  lemma {:induction false} FindAppend(a: seq<Entry>, b: seq<Entry>, id: string)
    ensures FindIn(a + b, id) == if FindIn(a, id).Some? then FindIn(a, id) else FindIn(b, id)
  {
    if a == [] {
      assert a + b == b;
    } else {
      assert (a + b)[1..] == a[1..] + b;
      FindAppend(a[1..], b, id);
    }
  }

  lemma WithoutMiddle(a: seq<Entry>, e: Entry, b: seq<Entry>)
    requires forall k :: 0 <= k < |a| ==> a[k].id != e.id
    requires forall k :: 0 <= k < |b| ==> b[k].id != e.id
    ensures Without(a + ([e] + b), e.id) == a + b
    ensures FindIn(a + ([e] + b), e.id) == Some(e.snapshot)
    ensures Total(a + ([e] + b)) == Total(a + b) + e.bytes
  {
    var tail := [e] + b;
    assert tail[1..] == b;
    WithoutAppend(a, tail, e.id);
    WithoutAbsent(a, e.id);
    WithoutAbsent(b, e.id);
    FindAppend(a, tail, e.id);
    TotalAppend(a, tail);
    TotalAppend(a, b);
  }

  /** Erasing the one entry called `id`. */
  lemma WithoutAt(entries: seq<Entry>, k: nat)
    requires Distinct(entries) && k < |entries|
    ensures Without(entries, entries[k].id) == entries[..k] + entries[k + 1..]
    ensures FindIn(entries, entries[k].id) == Some(entries[k].snapshot)
    ensures Total(entries) == Total(Without(entries, entries[k].id)) + entries[k].bytes
  {
    var a, e, b := entries[..k], entries[k], entries[k + 1..];
    SplitAround(entries, k);
    forall j | 0 <= j < |a| ensures a[j].id != e.id { assert a[j] == entries[j]; }
    forall j | 0 <= j < |b| ensures b[j].id != e.id { assert b[j] == entries[k + 1 + j]; }
    WithoutMiddle(a, e, b);
  }

  lemma SplitAround(entries: seq<Entry>, k: nat)
    requires k < |entries|
    ensures entries == entries[..k] + ([entries[k]] + entries[k + 1..])
  {
  }

  /** Removing `id` leaves every other id as it was. */
  lemma {:induction false} WithoutKeepsOther(entries: seq<Entry>, id: string, other: string)
    ensures FindIn(Without(entries, id), other) == if other == id then None else FindIn(entries, other)
    ensures Total(Without(entries, id)) <= Total(entries)
  {
    if entries != [] {
      WithoutKeepsOther(entries[1..], id, other);
      var left := Without(entries[1..], id);
      assert ([entries[0]] + left)[1..] == left;
    }
  }

  lemma {:induction false} WithoutDistinct(entries: seq<Entry>, id: string)
    requires Distinct(entries)
    ensures Distinct(Without(entries, id))
  {
    if entries != [] {
      var rest := entries[1..];
      WithoutDistinct(rest, id);
      WithoutMembers(rest, id);
      var left := Without(rest, id);
      forall k | 0 <= k < |left| ensures left[k].id != entries[0].id {
        assert left[k] in rest;
      }
    }
  }

  /** `left` is `entries` with `id` gone and every other id as before. */
  ghost predicate Erased(entries: seq<Entry>, left: seq<Entry>, id: string) {
    && (forall other :: FindIn(left, other) == if other == id then None else FindIn(entries, other))
    && (forall e :: e in left <==> e in entries && e.id != id)
  }

  lemma WithoutKeepsOthers(entries: seq<Entry>, id: string)
    ensures Erased(entries, Without(entries, id), id)
    ensures Total(Without(entries, id)) <= Total(entries)
    ensures Distinct(entries) ==> Distinct(Without(entries, id))
  {
    forall other ensures FindIn(Without(entries, id), other) == if other == id then None else FindIn(entries, other) {
      WithoutKeepsOther(entries, id, other);
    }
    WithoutKeepsOther(entries, id, id);
    WithoutMembers(entries, id);
    if Distinct(entries) { WithoutDistinct(entries, id); }
  }

  lemma InsertFacts(entries: seq<Entry>, entry: Entry)
    requires forall e :: e in entries ==> e.id != entry.id
    ensures Total(entries + [entry]) == Total(entries) + entry.bytes
    ensures Distinct(entries) ==> Distinct(entries + [entry])
    ensures forall other :: FindIn(entries + [entry], other) == if other == entry.id then Some(entry.snapshot) else FindIn(entries, other)
  {
    TotalAppend(entries, [entry]);
    WithoutAbsent(entries, entry.id);
    forall other ensures FindIn(entries + [entry], other) == if other == entry.id then Some(entry.snapshot) else FindIn(entries, other) {
      FindAppend(entries, [entry], other);
    }
  }

  class SessionMemory {
    const limit: Bytes
    var used: Bytes
    var entries: seq<Entry>

    /** Ids are distinct and the counter is the exact sum of the entries. */
    ghost predicate Exact()
      reads this
    {
      && Distinct(entries) && used == Total(entries)
      && forall e :: e in entries ==> e.bytes == ParkedSessionBytes(e.snapshot)
    }

    ghost predicate Valid()
      reads this
    {
      Exact() && used <= limit
    }

    constructor (limit: Bytes)
      ensures this.limit == limit && Valid() && entries == []
    {
      this.limit, used, entries := limit, 0, [];
    }

    /** First entry called `id`, or the number of entries. */
    method IndexOf(id: string) returns (k: nat)
      ensures k <= |entries| && forall j :: 0 <= j < k ==> entries[j].id != id
      ensures k < |entries| ==> entries[k].id == id
    {
      k := 0;
      while k < |entries| && entries[k].id != id
        invariant k <= |entries| && forall j :: 0 <= j < k ==> entries[j].id != id
      {
        k := k + 1;
      }
    }

    method Find(id: string) returns (r: Option<Snapshot>)
      ensures r == FindIn(entries, id)
    {
      var k := IndexOf(id);
      WithoutAbsent(entries[..k], id);
      if k == |entries| {
        assert entries[..k] == entries;
        return None;
      }
      SplitAround(entries, k);
      FindAppend(entries[..k], [entries[k]] + entries[k + 1..], id);
      r := Some(entries[k].snapshot);
    }

    /** Drop the session and hand it out. The counter never has to be clamped at zero. */
    method Take(id: string) returns (r: Option<Snapshot>)
      requires Exact()
      modifies this
      ensures Exact()
      ensures r == FindIn(old(entries), id)
      ensures old(used) == used + if r.Some? then ParkedSessionBytes(r.value) else 0
      ensures entries == Without(old(entries), id) && Erased(old(entries), entries, id)
    {
      WithoutKeepsOthers(entries, id);
      var k := IndexOf(id);
      if k == |entries| {
        WithoutAbsent(entries, id);
        return None;
      }
      WithoutAt(entries, k);
      r := Some(entries[k].snapshot);
      assert used >= entries[k].bytes;
      used := used - entries[k].bytes;
      entries := entries[..k] + entries[k + 1..];
    }

    method Erase(id: string)
      requires Exact()
      modifies this
      ensures Exact() && used <= old(used)
      ensures entries == Without(old(entries), id) && Erased(old(entries), entries, id)
    {
      var gone := Take(id);
    }

    /** Put the session at the newest end. The counter saturates only when the exact sum does
        not fit 64 bits. */
    method Insert(id: string, snapshot: Snapshot)
      requires Exact()
      modifies this
      ensures entries == Without(old(entries), id) + [Entry(id, snapshot, ParkedSessionBytes(snapshot))]
      ensures Total(entries) == Total(Without(old(entries), id)) + ParkedSessionBytes(snapshot)
      ensures Total(Without(old(entries), id)) <= old(used)
      ensures used == if Total(entries) <= U64_MAX then Total(entries) else U64_MAX
      ensures Total(entries) <= U64_MAX ==> Exact()
      ensures FindIn(entries, id) == Some(snapshot)
      ensures forall other :: other != id ==> FindIn(entries, other) == FindIn(old(entries), other)
    {
      WithoutKeepsOthers(entries, id);
      Erase(id);
      var entry := Entry(id, snapshot, ParkedSessionBytes(snapshot));
      InsertFacts(entries, entry);
      if used > U64_MAX - entry.bytes {
        used := U64_MAX;
      } else {
        used := used + entry.bytes;
      }
      entries := entries + [entry];
    }

    /** The held sizes without `replacing`, so parking an id again does not spill itself. */
    method Plan(incoming: Bytes, replacing: string) returns (keep: bool, spill: seq<string>)
      requires Valid()
      ensures keep <==> 0 < incoming <= limit
      ensures !keep ==> spill == []
      ensures var held := Without(entries, replacing);
        && |spill| <= |held| && (forall k :: 0 <= k < |spill| ==> spill[k] == held[k].id)
        && (keep ==> Total(held[|spill|..]) + incoming <= limit)
        && (keep && spill != [] ==> Total(held[|spill| - 1..]) + incoming > limit)
    {
      var held: seq<ParkedBytes> := [];
      for k := 0 to |entries|
        invariant held == Sizes(Without(entries[..k], replacing))
      {
        assert entries[..k + 1] == entries[..k] + [entries[k]];
        WithoutAppend(entries[..k], [entries[k]], replacing);
        if entries[k].id != replacing {
          held := held + [ParkedBytes(entries[k].id, entries[k].bytes)];
        }
      }
      assert entries[..|entries|] == entries;
      keep, spill := PlanMemoryAdmit(held, incoming, limit);
      ghost var kept := Without(entries, replacing);
      WithoutKeepsOthers(entries, replacing);
      SizesSuffix(kept, 0);
      SizesSuffix(kept, |spill|);
      if spill != [] {
        SizesSuffix(kept, |spill| - 1);
      }
      assert kept[0..] == kept && held[0..] == held;
    }

    method IdsOldestFirst() returns (ids: seq<string>)
      ensures |ids| == |entries| && forall k :: 0 <= k < |ids| ==> ids[k] == entries[k].id
    {
      ids := [];
      for k := 0 to |entries|
        invariant |ids| == k && forall j :: 0 <= j < k ==> ids[j] == entries[j].id
      {
        ids := ids + [entries[k].id];
      }
    }
  }

  function Sizes(entries: seq<Entry>): seq<ParkedBytes> {
    seq(|entries|, k requires 0 <= k < |entries| => ParkedBytes(entries[k].id, entries[k].bytes))
  }

  lemma {:induction false} SizesTotal(entries: seq<Entry>)
    ensures Sum(Sizes(entries)) == Total(entries)
  {
    if entries != [] {
      assert Sizes(entries)[1..] == Sizes(entries[1..]);
      SizesTotal(entries[1..]);
    }
  }

  lemma SizesSuffix(entries: seq<Entry>, k: nat)
    requires k <= |entries|
    ensures Sum(Sizes(entries)[k..]) == Total(entries[k..])
  {
    assert Sizes(entries)[k..] == Sizes(entries[k..]);
    SizesTotal(entries[k..]);
  }
}
