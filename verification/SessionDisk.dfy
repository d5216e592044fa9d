/** Which stored sessions to drop when their files outgrow a limit (`plan_session_cache` in
    `src/server/sessions/session_disk.cpp`). Scanning directories is not part of this model: `rows`
    is what a scan found. Byte totals do not overflow. */
module SessionDisk {
  import opened Ordering

  type Id = nat

  /** The files of one session: its record and its key-value cache. */
  datatype Row = Row(json: bool, kv: bool, jsonBytes: nat, kvBytes: nat, mtime: int)

  /** A scan only makes a row for a file it saw, and counts no bytes for one it did not. */
  predicate RowOk(r: Row) {
    (r.json || r.kv) && (!r.json ==> r.jsonBytes == 0) && (!r.kv ==> r.kvBytes == 0)
  }

  predicate RowsOk(rows: map<Id, Row>) {
    forall id :: id in rows ==> RowOk(rows[id])
  }

  /** A session in memory. */
  datatype Ref = Ref(id: Id, updatedAt: int, pinned: bool)

  datatype Candidate = Candidate(id: Id, updatedAt: int, bytes: nat, pinned: bool)

  datatype Plan = Plan(dropSessions: seq<Id>, dropOrphans: seq<Id>, stillOver: bool)

  const KEEP_ALL := Plan([], [], false)

  function Size(r: Row): nat {
    r.jsonBytes + r.kvBytes
  }

  // ---------------------------------------------------------------------------------------
  // Candidates
  // ---------------------------------------------------------------------------------------

  function SizeOf(rows: map<Id, Row>, id: Id): nat {
    if id in rows then Size(rows[id]) else 0
  }

  /** The sessions in memory, each id once; the first entry of an id counts, and 0 is no id. */
  function Loaded(rows: map<Id, Row>, loaded: seq<Ref>): seq<Candidate>
    decreases |loaded|
  {
    if loaded == [] then []
    else
      var before, ref := Loaded(rows, loaded[..|loaded| - 1]), loaded[|loaded| - 1];
      if ref.id == 0 || HasId(before, ref.id) then before
      else before + [Candidate(ref.id, ref.updatedAt, SizeOf(rows, ref.id), ref.pinned)]
  }

  predicate HasId(cands: seq<Candidate>, id: Id) {
    exists k :: 0 <= k < |cands| && cands[k].id == id
  }

  /** Stored sessions that are not in memory. */
  function StoredSet(rows: map<Id, Row>, loaded: seq<Candidate>): set<Candidate> {
    set id | id in rows && !HasId(loaded, id) && rows[id].json :: Candidate(id, rows[id].mtime, Size(rows[id]), false)
  }

  /** Caches without any session. */
  function OrphanSet(rows: map<Id, Row>, loaded: seq<Candidate>): set<Candidate> {
    set id | id in rows && !HasId(loaded, id) && !rows[id].json :: Candidate(id, rows[id].mtime, rows[id].kvBytes, false)
  }

  // ---------------------------------------------------------------------------------------
  // Order
  // ---------------------------------------------------------------------------------------

  /** Older first; among equally old ones the smaller id. */
  predicate Before(a: Candidate, b: Candidate) {
    a.updatedAt < b.updatedAt || (a.updatedAt == b.updatedAt && a.id < b.id)
  }

  predicate DistinctIds(cands: seq<Candidate>) {
    forall j, k :: 0 <= j < k < |cands| ==> cands[j].id != cands[k].id
  }

  predicate Oldest(cands: seq<Candidate>) {
    Ascending(Before, cands)
  }

  function SortedCandidates(cands: seq<Candidate>): seq<Candidate> {
    Sorted(Before, cands)
  }

  lemma SortCandidates(cands: seq<Candidate>)
    requires DistinctIds(cands)
    ensures Oldest(SortedCandidates(cands)) && Same(SortedCandidates(cands), cands) && |SortedCandidates(cands)| == |cands|
  {
    SortSorts(Before, cands);
  }

  // ---------------------------------------------------------------------------------------
  // Dropping
  // ---------------------------------------------------------------------------------------

  /** What is dropped of `cands`, in order, until the rest fits; and the bytes that are left. */
  function Drop(cands: seq<Candidate>, total: nat, limit: nat): (seq<Id>, nat)
    decreases |cands|
  {
    if cands == [] || total <= limit then ([], total)
    else if cands[0].pinned then Drop(cands[1..], total, limit)
    else
      var (more, left) := Drop(cands[1..], if total < cands[0].bytes then 0 else total - cands[0].bytes, limit);
      ([cands[0].id] + more, left)
  }

  function PlanFrom(sessions: seq<Candidate>, orphans: seq<Candidate>, total: nat, limit: nat): Plan {
    if total <= limit then KEEP_ALL
    else
      var (dropped, left) := Drop(sessions, total, limit);
      var (orphaned, rest) := Drop(orphans, left, limit);
      Plan(dropped, orphaned, rest > limit)
  }

  method DropUntilItFits(cands: seq<Candidate>, start: nat, limit: nat) returns (dropped: seq<Id>, total: nat)
    ensures (dropped, total) == Drop(cands, start, limit)
  {
    dropped, total := [], start;
    ghost var all := Drop(cands, start, limit);
    ghost var ahead := all;
    assert cands[0..] == cands && [] + all.0 == all.0;
    for k := 0 to |cands|
      invariant ahead == Drop(cands[k..], total, limit) && all == (dropped + ahead.0, ahead.1)
    {
      assert cands[k..][0] == cands[k] && cands[k..][1..] == cands[k + 1..];
      if total <= limit {
        break;
      }
      if cands[k].pinned {
        continue;
      }
      var left := total - if total < cands[k].bytes then total else cands[k].bytes;
      ghost var more := Drop(cands[k + 1..], left, limit);
      assert ahead == ([cands[k].id] + more.0, more.1);
      assert dropped + ([cands[k].id] + more.0) == dropped + [cands[k].id] + more.0;
      dropped, total, ahead := dropped + [cands[k].id], left, more;
    }
    assert ahead == ([], total) && dropped + [] == dropped;
  }

  // ---------------------------------------------------------------------------------------
  // Sums
  // ---------------------------------------------------------------------------------------

  function Bytes(cands: seq<Candidate>): nat {
    if cands == [] then 0 else cands[0].bytes + Bytes(cands[1..])
  }

  ghost function RowBytes(rows: map<Id, Row>, ids: set<Id>): nat
    requires ids <= rows.Keys
  {
    if ids == {} then 0
    else
      var id :| id in ids;
      Size(rows[id]) + RowBytes(rows, ids - {id})
  }

  /** The order of summing does not matter. */
  lemma {:induction false} RowBytesPick(rows: map<Id, Row>, ids: set<Id>, id: Id)
    requires ids <= rows.Keys && id in ids
    ensures RowBytes(rows, ids) == Size(rows[id]) + RowBytes(rows, ids - {id})
    decreases ids
  {
    var first :| first in ids && RowBytes(rows, ids) == Size(rows[first]) + RowBytes(rows, ids - {first});
    if first != id {
      RowBytesPick(rows, ids - {first}, id);
      RowBytesPick(rows, ids - {id}, first);
      assert ids - {first} - {id} == ids - {id} - {first};
    }
  }

  lemma {:induction false} RowBytesUnion(rows: map<Id, Row>, a: set<Id>, b: set<Id>)
    requires a <= rows.Keys && b <= rows.Keys && a !! b
    ensures RowBytes(rows, a + b) == RowBytes(rows, a) + RowBytes(rows, b)
    decreases a
  {
    if a == {} {
      assert a + b == b;
    } else {
      var id :| id in a;
      RowBytesPick(rows, a, id);
      RowBytesPick(rows, a + b, id);
      assert a + b - {id} == (a - {id}) + b;
      RowBytesUnion(rows, a - {id}, b);
    }
  }

  function IdSet(cands: seq<Candidate>): set<Id> {
    set c | c in cands :: c.id
  }

  /** Candidates with distinct ids that carry the bytes of their rows add up to those rows. */
  lemma {:induction false} BytesAreRows(rows: map<Id, Row>, cands: seq<Candidate>)
    requires DistinctIds(cands) && forall c :: c in cands ==> c.bytes == SizeOf(rows, c.id)
    ensures Bytes(cands) == RowBytes(rows, IdSet(cands) * rows.Keys)
    decreases |cands|
  {
    if cands == [] {
      assert IdSet(cands) * rows.Keys == {};
    } else {
      var c, rest := cands[0], cands[1..];
      assert cands == [c] + rest;
      BytesAreRows(rows, rest);
      var all, some := IdSet(cands) * rows.Keys, IdSet(rest) * rows.Keys;
      assert c.id !in IdSet(rest);
      assert all - {c.id} == some;
      if c.id in rows {
        RowBytesPick(rows, all, c.id);
      } else {
        assert all == some;
      }
    }
  }

  // ---------------------------------------------------------------------------------------
  // The plan
  // ---------------------------------------------------------------------------------------

  /** The two lists the plan is made from, oldest first: all sessions, in memory or stored, and the
      caches without one. */
  ghost predicate Lists(rows: map<Id, Row>, loaded: seq<Ref>, sessions: seq<Candidate>, orphans: seq<Candidate>) {
    var known := Loaded(rows, loaded);
    && Oldest(sessions) && (forall c :: c in sessions <==> c in known || c in StoredSet(rows, known))
    && Oldest(orphans) && (forall c :: c in orphans <==> c in OrphanSet(rows, known))
  }

  /** There is only one such pair: the plan does not depend on the order rows are visited in. */
  lemma ListsUnique(rows: map<Id, Row>, loaded: seq<Ref>, s: seq<Candidate>, o: seq<Candidate>, t: seq<Candidate>, p: seq<Candidate>)
    requires Lists(rows, loaded, s, o) && Lists(rows, loaded, t, p)
    ensures s == t && o == p
  {
    OneOrder(Before, s, t);
    OneOrder(Before, o, p);
  }

  lemma {:induction false} LoadedDistinct(rows: map<Id, Row>, loaded: seq<Ref>)
    ensures DistinctIds(Loaded(rows, loaded))
    ensures forall c :: c in Loaded(rows, loaded) ==> c.bytes == SizeOf(rows, c.id)
    decreases |loaded|
  {
    if loaded != [] {
      LoadedDistinct(rows, loaded[..|loaded| - 1]);
    }
  }

  method CollectLoaded(rows: map<Id, Row>, loaded: seq<Ref>) returns (sessions: seq<Candidate>)
    ensures sessions == Loaded(rows, loaded)
  {
    sessions := [];
    for k := 0 to |loaded|
      invariant sessions == Loaded(rows, loaded[..k])
    {
      assert loaded[..k + 1][..k] == loaded[..k];
      var ref := loaded[k];
      if ref.id == 0 || HasId(sessions, ref.id) {
        continue;
      }
      sessions := sessions + [Candidate(ref.id, ref.updatedAt, SizeOf(rows, ref.id), ref.pinned)];
    }
    assert loaded[..|loaded|] == loaded;
  }

  /** What the rows visited so far have added to the two lists. */
  ghost predicate Visited(rows: map<Id, Row>, known: seq<Candidate>, seen: set<Id>, stored: seq<Candidate>, orphans: seq<Candidate>) {
    && (forall c :: c in stored <==> c in StoredSet(rows, known) && c.id in seen)
    && (forall c :: c in orphans <==> c in OrphanSet(rows, known) && c.id in seen)
    && DistinctIds(stored) && DistinctIds(orphans)
  }

  method CollectRows(rows: map<Id, Row>, known: seq<Candidate>) returns (stored: seq<Candidate>, orphans: seq<Candidate>, total: nat)
    requires RowsOk(rows)
    ensures Visited(rows, known, rows.Keys, stored, orphans) && total == RowBytes(rows, rows.Keys)
  {
    hide Visited, RowBytes;
    stored, orphans, total := [], [], 0;
    var left := rows.Keys;
    ghost var seen: set<Id>, whole := {}, RowBytes(rows, rows.Keys);
    NothingVisited(rows, known);
    while left != {}
      invariant left <= rows.Keys && seen == rows.Keys - left
      invariant Visited(rows, known, seen, stored, orphans)
      invariant total + RowBytes(rows, left) == whole
      decreases |left|
    {
      var id :| id in left;
      var row := rows[id];
      assert id in rows && id !in seen && RowOk(row);
      RowBytesPick(rows, left, id);
      total := total + row.jsonBytes + row.kvBytes;
      if !HasId(known, id) && row.json {
        VisitStored(rows, known, seen, stored, orphans, id);
        stored := stored + [Candidate(id, row.mtime, row.jsonBytes + row.kvBytes, false)];
      } else if !HasId(known, id) && row.kv {
        VisitOrphan(rows, known, seen, stored, orphans, id);
        orphans := orphans + [Candidate(id, row.mtime, row.kvBytes, false)];
      } else {
        VisitKnown(rows, known, seen, stored, orphans, id);
      }
      left, seen := left - {id}, seen + {id};
    }
    assert seen == rows.Keys && left == {};
    NoRows(rows);
  }

  lemma NoRows(rows: map<Id, Row>)
    ensures RowBytes(rows, {}) == 0
  {
  }

  lemma NothingVisited(rows: map<Id, Row>, known: seq<Candidate>)
    ensures Visited(rows, known, {}, [], [])
  {
  }

  lemma VisitKnown(rows: map<Id, Row>, known: seq<Candidate>, seen: set<Id>, stored: seq<Candidate>, orphans: seq<Candidate>, id: Id)
    requires Visited(rows, known, seen, stored, orphans) && HasId(known, id)
    ensures Visited(rows, known, seen + {id}, stored, orphans)
  {
  }

  lemma VisitStored(rows: map<Id, Row>, known: seq<Candidate>, seen: set<Id>, stored: seq<Candidate>, orphans: seq<Candidate>, id: Id)
    requires Visited(rows, known, seen, stored, orphans) && id in rows && id !in seen && !HasId(known, id) && rows[id].json
    ensures Visited(rows, known, seen + {id}, stored + [Candidate(id, rows[id].mtime, Size(rows[id]), false)], orphans)
  {
    forall k | 0 <= k < |stored| ensures stored[k].id != id {
      assert stored[k] in stored;
    }
  }

  lemma VisitOrphan(rows: map<Id, Row>, known: seq<Candidate>, seen: set<Id>, stored: seq<Candidate>, orphans: seq<Candidate>, id: Id)
    requires Visited(rows, known, seen, stored, orphans) && id in rows && id !in seen && !HasId(known, id) && !rows[id].json
    ensures Visited(rows, known, seen + {id}, stored, orphans + [Candidate(id, rows[id].mtime, rows[id].kvBytes, false)])
  {
    forall k | 0 <= k < |orphans| ensures orphans[k].id != id {
      assert orphans[k] in orphans;
    }
  }

  lemma VisitedLists(rows: map<Id, Row>, loaded: seq<Ref>, known: seq<Candidate>, stored: seq<Candidate>, orphans: seq<Candidate>)
    requires known == Loaded(rows, loaded) && Visited(rows, known, rows.Keys, stored, orphans)
    ensures DistinctIds(known + stored) && Lists(rows, loaded, SortedCandidates(known + stored), SortedCandidates(orphans))
  {
    LoadedDistinct(rows, loaded);
    forall j, k | 0 <= j < |known| && 0 <= k < |stored| ensures known[j].id != stored[k].id {
      assert stored[k] in stored;
    }
    SortCandidates(known + stored);
    SortCandidates(orphans);
    forall c ensures c in SortedCandidates(known + stored) <==> c in known || c in StoredSet(rows, known) {
      assert c in StoredSet(rows, known) ==> c.id in rows.Keys;
    }
    forall c ensures c in SortedCandidates(orphans) <==> c in OrphanSet(rows, known) {
      assert c in OrphanSet(rows, known) ==> c.id in rows.Keys;
    }
  }

  method PlanSessionCache(rows: map<Id, Row>, loaded: seq<Ref>, limit: nat)
    returns (plan: Plan, ghost sessions: seq<Candidate>, ghost orphans: seq<Candidate>)
    requires RowsOk(rows)
    ensures limit == 0 ==> plan == KEEP_ALL
    ensures limit != 0 ==>
      Lists(rows, loaded, sessions, orphans) && plan == PlanFrom(sessions, orphans, RowBytes(rows, rows.Keys), limit)
  {
    sessions, orphans := [], [];
    if limit == 0 {
      return KEEP_ALL, [], [];
    }
    var known := CollectLoaded(rows, loaded);
    var stored, lonely, total := CollectRows(rows, known);
    VisitedLists(rows, loaded, known, stored, lonely);
    var all, rest := SortedCandidates(known + stored), SortedCandidates(lonely);
    sessions, orphans := all, rest;
    if total <= limit {
      plan := KEEP_ALL;
      return;
    }
    var dropped, left := DropUntilItFits(all, total, limit);
    var orphaned, over := DropUntilItFits(rest, left, limit);
    plan := Plan(dropped, orphaned, over > limit);
  }

  // ---------------------------------------------------------------------------------------
  // What the plan promises
  // ---------------------------------------------------------------------------------------

  function Unpinned(cands: seq<Candidate>): seq<Candidate> {
    if cands == [] then [] else if cands[0].pinned then Unpinned(cands[1..]) else [cands[0]] + Unpinned(cands[1..])
  }

  function Pinned(cands: seq<Candidate>): seq<Candidate> {
    if cands == [] then [] else if cands[0].pinned then [cands[0]] + Pinned(cands[1..]) else Pinned(cands[1..])
  }

  lemma {:induction false} PinnedOrNot(cands: seq<Candidate>)
    ensures Bytes(cands) == Bytes(Pinned(cands)) + Bytes(Unpinned(cands))
    ensures forall c :: c in Pinned(cands) ==> c.pinned
    ensures forall c :: c in Unpinned(cands) ==> !c.pinned
  {
    if cands != [] {
      var rest := cands[1..];
      PinnedOrNot(rest);
      assert ([cands[0]] + Pinned(rest))[1..] == Pinned(rest);
      assert ([cands[0]] + Unpinned(rest))[1..] == Unpinned(rest);
    }
  }

  function Ids(cands: seq<Candidate>): (ids: seq<Id>)
    ensures |ids| == |cands|
  {
    seq(|cands|, k requires 0 <= k < |cands| => cands[k].id)
  }

  /** The first `n` of `cands` are dropped: enough to fit, or all there are; and no fewer would do. */
  ghost predicate Enough(cands: seq<Candidate>, n: nat, total: nat, limit: nat) {
    && n <= |cands| && Bytes(cands[..n]) <= total
    && (total - Bytes(cands[..n]) <= limit || n == |cands|)
    && (n > 0 ==> total - Bytes(cands[..n - 1]) > limit)
  }

  lemma BytesCons(c: Candidate, rest: seq<Candidate>, n: nat)
    requires n <= |rest|
    ensures Bytes(([c] + rest)[..n + 1]) == c.bytes + Bytes(rest[..n])
  {
    assert ([c] + rest)[..n + 1] == [c] + rest[..n];
    assert ([c] + rest[..n])[1..] == rest[..n];
  }

  /** Dropping takes the oldest unpinned candidates, as few as will do. */
  lemma {:induction false} DropsOldest(cands: seq<Candidate>, total: nat, limit: nat) returns (n: nat)
    requires Bytes(cands) <= total
    ensures Enough(Unpinned(cands), n, total, limit)
    ensures Drop(cands, total, limit) == (Ids(Unpinned(cands)[..n]), total - Bytes(Unpinned(cands)[..n]))
    decreases |cands|
  {
    var free := Unpinned(cands);
    if cands == [] || total <= limit {
      n := 0;
      assert free[..0] == [] && Ids([]) == [];
    } else if cands[0].pinned {
      n := DropsOldest(cands[1..], total, limit);
    } else {
      var c, rest := cands[0], Unpinned(cands[1..]);
      var m := DropsOldest(cands[1..], total - c.bytes, limit);
      n := m + 1;
      BytesCons(c, rest, m);
      if m > 0 {
        BytesCons(c, rest, m - 1);
      }
      assert free == [c] + rest && free[..n] == [c] + rest[..m] && free[..0] == [];
      assert Ids([c] + rest[..m]) == [c.id] + Ids(rest[..m]);
    }
  }

  /** All bytes on disk are those of the sessions and of the orphans. */
  lemma TotalSplits(rows: map<Id, Row>, loaded: seq<Ref>, sessions: seq<Candidate>, orphans: seq<Candidate>)
    requires RowsOk(rows) && Lists(rows, loaded, sessions, orphans)
    ensures RowBytes(rows, rows.Keys) == Bytes(sessions) + Bytes(orphans)
  {
    var known := Loaded(rows, loaded);
    LoadedDistinct(rows, loaded);
    SessionsDistinct(rows, known, sessions);
    OrphansDistinct(rows, known, orphans);
    BytesAreRows(rows, sessions);
    BytesAreRows(rows, orphans);
    var a, b := IdSet(sessions) * rows.Keys, IdSet(orphans) * rows.Keys;
    assert rows.Keys == a + b && a !! b by {
      EveryRowListed(rows, loaded, sessions, orphans);
    }
    RowBytesUnion(rows, a, b);
  }

  lemma SessionsDistinct(rows: map<Id, Row>, known: seq<Candidate>, sessions: seq<Candidate>)
    requires Oldest(sessions) && (forall c :: c in sessions <==> c in known || c in StoredSet(rows, known)) && DistinctIds(known)
    requires forall c :: c in known ==> c.bytes == SizeOf(rows, c.id)
    ensures DistinctIds(sessions) && forall c :: c in sessions ==> c.bytes == SizeOf(rows, c.id)
  {
    forall j, k | 0 <= j < k < |sessions| ensures sessions[j].id != sessions[k].id {
      var a, b := sessions[j], sessions[k];
      assert a in sessions && b in sessions && Before(a, b);
    }
  }

  lemma OrphansDistinct(rows: map<Id, Row>, known: seq<Candidate>, orphans: seq<Candidate>)
    requires RowsOk(rows) && Oldest(orphans) && (forall c :: c in orphans <==> c in OrphanSet(rows, known))
    ensures DistinctIds(orphans) && forall c :: c in orphans ==> c.bytes == SizeOf(rows, c.id)
  {
    forall j, k | 0 <= j < k < |orphans| ensures orphans[j].id != orphans[k].id {
      var a, b := orphans[j], orphans[k];
      assert a in orphans && b in orphans && Before(a, b);
    }
    forall c | c in orphans ensures c.bytes == SizeOf(rows, c.id) {
      assert RowOk(rows[c.id]);
    }
  }

  lemma EveryRowListed(rows: map<Id, Row>, loaded: seq<Ref>, sessions: seq<Candidate>, orphans: seq<Candidate>)
    requires Lists(rows, loaded, sessions, orphans)
    ensures rows.Keys == IdSet(sessions) * rows.Keys + IdSet(orphans) * rows.Keys
    ensures IdSet(sessions) !! IdSet(orphans)
  {
    var known := Loaded(rows, loaded);
    forall id | id in rows ensures id in IdSet(sessions) || id in IdSet(orphans) {
      if HasId(known, id) {
        var k :| 0 <= k < |known| && known[k].id == id;
        assert known[k] in sessions;
      } else if rows[id].json {
        assert Candidate(id, rows[id].mtime, Size(rows[id]), false) in sessions;
      } else {
        assert Candidate(id, rows[id].mtime, rows[id].kvBytes, false) in orphans;
      }
    }
    forall c, d | c in sessions && d in orphans ensures c.id != d.id {
      if c in known {
        var k :| 0 <= k < |known| && known[k] == c;
        assert HasId(known, c.id);
      }
    }
  }

  /** The first mention of an id in memory. */
  predicate FirstMention(loaded: seq<Ref>, k: int) {
    0 <= k < |loaded| && loaded[k].id != 0 && forall j :: 0 <= j < k ==> loaded[j].id != loaded[k].id
  }

  ghost predicate Mentioned(loaded: seq<Ref>, id: Id) {
    exists k :: 0 <= k < |loaded| && loaded[k].id == id && id != 0
  }

  /** A session in memory with the time and the pin of its first mention, and the bytes of all its files. */
  ghost predicate FromMemory(rows: map<Id, Row>, loaded: seq<Ref>, c: Candidate) {
    && c.bytes == (if c.id in rows then rows[c.id].jsonBytes + rows[c.id].kvBytes else 0)
    && exists k :: FirstMention(loaded, k) && loaded[k] == Ref(c.id, c.updatedAt, c.pinned)
  }

  lemma FrontMemory(rows: map<Id, Row>, loaded: seq<Ref>, n: nat, c: Candidate)
    requires n <= |loaded| && FromMemory(rows, loaded[..n], c)
    ensures FromMemory(rows, loaded, c)
  {
    var k :| FirstMention(loaded[..n], k) && loaded[..n][k] == Ref(c.id, c.updatedAt, c.pinned);
    assert FirstMention(loaded, k);
  }

  /** Each candidate from memory is the first mention of its id. */
  lemma {:induction false} LoadedAre(rows: map<Id, Row>, loaded: seq<Ref>)
    ensures forall id :: HasId(Loaded(rows, loaded), id) <==> Mentioned(loaded, id)
    ensures forall c :: c in Loaded(rows, loaded) ==> FromMemory(rows, loaded, c)
    decreases |loaded|
  {
    hide FromMemory, HasId, Mentioned;
    if loaded == [] {
      NoneMentioned();
    } else {
      var n := |loaded| - 1;
      var before, ref, front := Loaded(rows, loaded[..n]), loaded[n], loaded[..n];
      LoadedAre(rows, front);
      MentionedNext(loaded, n, front);
      var c := Candidate(ref.id, ref.updatedAt, SizeOf(rows, ref.id), ref.pinned);
      HasIdNext(before, c);
      if ref.id != 0 && !HasId(before, ref.id) {
        LastMemory(rows, loaded, n, front, c);
      }
      forall d | d in before ensures FromMemory(rows, loaded, d) {
        FrontMemory(rows, loaded, n, d);
      }
    }
  }

  lemma NoneMentioned()
    ensures forall id :: !HasId([], id) && !Mentioned([], id)
  {
  }

  lemma LastMemory(rows: map<Id, Row>, loaded: seq<Ref>, n: nat, front: seq<Ref>, c: Candidate)
    requires n + 1 == |loaded| && front == loaded[..n] && loaded[n] == Ref(c.id, c.updatedAt, c.pinned) && c.id != 0
    requires !Mentioned(front, c.id) && c.bytes == SizeOf(rows, c.id)
    ensures FromMemory(rows, loaded, c)
  {
    forall j | 0 <= j < n ensures loaded[j].id != loaded[n].id {
      assert front[j].id == loaded[j].id;
    }
    assert FirstMention(loaded, n);
  }

  lemma MentionedNext(loaded: seq<Ref>, n: nat, front: seq<Ref>)
    requires n + 1 == |loaded| && front == loaded[..n]
    ensures forall id :: Mentioned(loaded, id) <==> Mentioned(front, id) || (loaded[n].id == id && id != 0)
  {
    forall id ensures Mentioned(loaded, id) <==> Mentioned(front, id) || (loaded[n].id == id && id != 0) {
      if Mentioned(loaded, id) {
        var k :| 0 <= k < |loaded| && loaded[k].id == id && id != 0;
        assert k < n ==> front[k].id == id;
      }
      if Mentioned(front, id) {
        var k :| 0 <= k < |front| && front[k].id == id && id != 0;
        assert loaded[k].id == id;
      }
    }
  }

  lemma HasIdNext(cands: seq<Candidate>, c: Candidate)
    ensures forall id :: HasId(cands + [c], id) <==> HasId(cands, id) || c.id == id
  {
    var all := cands + [c];
    forall id ensures HasId(all, id) <==> HasId(cands, id) || c.id == id {
      assert all[|cands|] == c;
      if HasId(cands, id) {
        var k :| 0 <= k < |cands| && cands[k].id == id;
        assert all[k].id == id;
      }
      if HasId(all, id) {
        var k :| 0 <= k < |all| && all[k].id == id;
        assert k < |cands| ==> cands[k].id == id;
      }
    }
  }

  /** Oldest first, and by id among equally old ones. */
  predicate ByAge(cands: seq<Candidate>) {
    forall j, k :: 0 <= j < k < |cands| ==>
      cands[j].updatedAt < cands[k].updatedAt || (cands[j].updatedAt == cands[k].updatedAt && cands[j].id < cands[k].id)
  }

  /** Who the candidates are: a session in memory with its own time and pin, a stored one with the time of
      its record, both with all their bytes; and a cache without a session. */
  lemma ListsMean(rows: map<Id, Row>, loaded: seq<Ref>, sessions: seq<Candidate>, orphans: seq<Candidate>, c: Candidate)
    requires Lists(rows, loaded, sessions, orphans)
    ensures ByAge(sessions) && ByAge(orphans)
    ensures c in sessions && Mentioned(loaded, c.id) ==> FromMemory(rows, loaded, c)
    ensures !Mentioned(loaded, c.id) ==>
      (c in sessions <==> c.id in rows && rows[c.id].json && !c.pinned && c.updatedAt == rows[c.id].mtime
                          && c.bytes == rows[c.id].jsonBytes + rows[c.id].kvBytes)
    ensures c in orphans <==>
      c.id in rows && !Mentioned(loaded, c.id) && !rows[c.id].json
      && !c.pinned && c.updatedAt == rows[c.id].mtime && c.bytes == rows[c.id].kvBytes
    ensures Mentioned(loaded, c.id) ==> exists d :: d in sessions && d.id == c.id
  {
    LoadedAre(rows, loaded);
    var known := Loaded(rows, loaded);
    assert HasId(known, c.id) <==> Mentioned(loaded, c.id);
    if HasId(known, c.id) {
      var i :| 0 <= i < |known| && known[i].id == c.id;
      assert known[i] in sessions;
    }
    if c in known {
      var i :| 0 <= i < |known| && known[i] == c;
      assert known[i].id == c.id;
    }
    assert c in StoredSet(rows, known) ==> !HasId(known, c.id);
  }

  /** The plan drops no pinned session; it drops the oldest unpinned sessions, and orphans only
      when all of those are gone; it drops no more than it must; and it is still over exactly when
      the pinned sessions alone exceed the limit. */
  lemma PlanIsFair(rows: map<Id, Row>, loaded: seq<Ref>, sessions: seq<Candidate>, orphans: seq<Candidate>, limit: nat)
    returns (n: nat, m: nat)
    requires RowsOk(rows) && Lists(rows, loaded, sessions, orphans) && RowBytes(rows, rows.Keys) > limit
    ensures var plan, total := PlanFrom(sessions, orphans, RowBytes(rows, rows.Keys), limit), RowBytes(rows, rows.Keys);
      var free := Unpinned(sessions);
      && Enough(free, n, total, limit) && plan.dropSessions == Ids(free[..n])
      && Enough(orphans, m, total - Bytes(free[..n]), limit) && plan.dropOrphans == Ids(orphans[..m])
      && (m > 0 ==> n == |free|)
      && (plan.stillOver <==> Bytes(Pinned(sessions)) > limit)
  {
    TotalSplits(rows, loaded, sessions, orphans);
    OrphansUnpinned(rows, loaded, orphans);
    n, m := PlanDrops(sessions, orphans, RowBytes(rows, rows.Keys), limit);
  }

  lemma PlanDrops(sessions: seq<Candidate>, orphans: seq<Candidate>, total: nat, limit: nat) returns (n: nat, m: nat)
    requires total == Bytes(sessions) + Bytes(orphans) && total > limit && Unpinned(orphans) == orphans
    ensures var plan, free := PlanFrom(sessions, orphans, total, limit), Unpinned(sessions);
      && Enough(free, n, total, limit) && plan.dropSessions == Ids(free[..n])
      && Enough(orphans, m, total - Bytes(free[..n]), limit) && plan.dropOrphans == Ids(orphans[..m])
      && (m > 0 ==> n == |free|)
      && (plan.stillOver <==> Bytes(Pinned(sessions)) > limit)
  {
    hide Drop, Unpinned, Pinned, Bytes;
    var free := Unpinned(sessions);
    PinnedOrNot(sessions);
    n := DropsOldest(sessions, total, limit);
    var left := total - Bytes(free[..n]);
    BytesOfPart(free, n);
    m := DropsOldest(orphans, left, limit);
    BytesOfPart(orphans, m);
    NoBytes(orphans);
    assert free[..|free|] == free && orphans[..|orphans|] == orphans;
  }

  lemma NoBytes(cands: seq<Candidate>)
    ensures Bytes(cands[..0]) == 0
  {
  }

  lemma {:induction false} BytesOfPart(cands: seq<Candidate>, n: nat)
    requires n <= |cands|
    ensures Bytes(cands[..n]) <= Bytes(cands)
  {
    if n > 0 {
      BytesOfPart(cands[1..], n - 1);
      assert cands[..n][1..] == cands[1..][..n - 1];
    }
  }

  lemma OrphansUnpinned(rows: map<Id, Row>, loaded: seq<Ref>, orphans: seq<Candidate>)
    requires forall c :: c in orphans <==> c in OrphanSet(rows, Loaded(rows, loaded))
    ensures Unpinned(orphans) == orphans
  {
    AllUnpinned(orphans);
  }

  lemma {:induction false} AllUnpinned(cands: seq<Candidate>)
    requires forall c :: c in cands ==> !c.pinned
    ensures Unpinned(cands) == cands
  {
    if cands != [] {
      AllUnpinned(cands[1..]);
      assert cands == [cands[0]] + cands[1..];
    }
  }
}
