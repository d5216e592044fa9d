/** The parked sessions as one store: what an id is restored from, and what the engine's
    moves between RAM and disk do to it (`src/server/llm/llm_engine.cpp`). */
module ParkedSessions {
  import opened Strings
  import opened LlamaContext
  import opened SessionPark
  import opened SessionKvStore

  /** The saved state encodes exactly the tokens saved with it. */
  predicate Faithful(kept: Kept, hybrid: bool) {
    kept.tokens != [] && kept.attention == kept.tokens && (hybrid ==> kept.recurrent == kept.tokens)
  }

  predicate Parkable(snapshot: Snapshot, hybrid: bool) {
    Faithful(KeptOf(snapshot), hybrid) && snapshot.state.size >= SEQ_MEMORY_PREFIX
  }

  /** The snapshot an id is restored from: RAM wins over a file. */
  function Found(entries: seq<Entry>, files: map<string, Snapshot>, id: string): Option<Kept> {
    match FindIn(entries, id)
    case Some(snapshot) => Some(KeptOf(snapshot))
    case None => if id in files then Some(KeptOf(files[id])) else None
  }

  /** What an id was restored from is still there. Files go only when they may expire. */
  ghost predicate StillThere(before: Option<Kept>, after: Option<Kept>, expires: bool) {
    after == before || (expires && after.None?)
  }

  /** Every id but `id` is restored from the same snapshot as before. */
  ghost predicate OthersKept(entries: seq<Entry>, files: map<string, Snapshot>, entries2: seq<Entry>, files2: map<string, Snapshot>,
                             id: string, expires: bool) {
    forall other :: other != id ==> StillThere(Found(entries, files, other), Found(entries2, files2, other), expires)
  }

  /** Every id is. */
  ghost predicate AllKept(entries: seq<Entry>, files: map<string, Snapshot>, entries2: seq<Entry>, files2: map<string, Snapshot>, expires: bool) {
    forall id :: StillThere(Found(entries, files, id), Found(entries2, files2, id), expires)
  }

  /** `files2` is `files`, less some expired ones. */
  ghost predicate Trimmed(files: map<string, Snapshot>, files2: map<string, Snapshot>, expires: bool) {
    && (!expires ==> files2 == files)
    && forall id :: id in files2 ==> id in files && files2[id] == files[id]
  }

  /** No id is in RAM and on disk at once. */
  ghost predicate OneHome(entries: seq<Entry>, files: map<string, Snapshot>) {
    forall id :: id in files ==> FindIn(entries, id).None?
  }

  /** RAM holds no id it did not hold, save those in `ids`. */
  ghost predicate NewIn(entries: seq<Entry>, entries2: seq<Entry>, ids: set<string>) {
    forall id :: FindIn(entries2, id).Some? ==> id in ids || FindIn(entries, id).Some?
  }

  /** Every parked state encodes exactly the tokens parked with it. */
  ghost predicate Sound(entries: seq<Entry>, files: map<string, Snapshot>, hybrid: bool) {
    && (forall id :: FindIn(entries, id).Some? ==> Parkable(FindIn(entries, id).value, hybrid))
    && forall id :: id in files ==> Faithful(KeptOf(files[id]), hybrid)
  }

  /** What RAM still holds for the id could not be written to a file. */
  ghost predicate Stuck(entries: seq<Entry>, id: string) {
    FindIn(entries, id).Some? ==> !Writable(id, FindIn(entries, id).value)
  }

  /** Every entry could be written to a file. */
  predicate AllWritable(entries: seq<Entry>) {
    forall k :: 0 <= k < |entries| ==> Writable(entries[k].id, entries[k].snapshot)
  }

  /** The files after a successful write of what is kept in `kept`. */
  ghost predicate Written(files: map<string, Snapshot>, files2: map<string, Snapshot>, id: string, kept: Kept) {
    id in files2 && files2 == files[id := files2[id]] && KeptOf(files2[id]) == kept
  }

  lemma WriteToDisk(entries: seq<Entry>, files: map<string, Snapshot>, files2: map<string, Snapshot>, id: string, kept: Kept, hybrid: bool, expires: bool)
    requires Sound(entries, files, hybrid) && Faithful(kept, hybrid)
    requires exists written :: Written(files, written, id, kept) && Trimmed(written, files2, expires)
    ensures var left := Without(entries, id);
      && Sound(left, files2, hybrid)
      && OthersKept(entries, files, left, files2, id, expires)
      && StillThere(Some(kept), Found(left, files2, id), expires)
      && (OneHome(entries, files) ==> OneHome(left, files2))
  {
    WithoutKeepsOthers(entries, id);
  }

  /** A new file, with RAM left alone. */
  lemma AddFile(entries: seq<Entry>, files: map<string, Snapshot>, files2: map<string, Snapshot>, id: string, kept: Kept, hybrid: bool, expires: bool)
    requires Sound(entries, files, hybrid) && Faithful(kept, hybrid)
    requires exists written :: Written(files, written, id, kept) && Trimmed(written, files2, expires)
    ensures Sound(entries, files2, hybrid)
    ensures OthersKept(entries, files, entries, files2, id, expires)
    ensures FindIn(entries, id).None? ==> StillThere(Some(kept), Found(entries, files2, id), expires)
    ensures FindIn(entries, id).None? && OneHome(entries, files) ==> OneHome(entries, files2)
  {
  }

  lemma MoveToDisk(entries: seq<Entry>, files: map<string, Snapshot>, files2: map<string, Snapshot>, id: string, hybrid: bool, expires: bool)
    requires Sound(entries, files, hybrid) && FindIn(entries, id).Some?
    requires exists written :: Written(files, written, id, KeptOf(FindIn(entries, id).value)) && Trimmed(written, files2, expires)
    ensures AllKept(entries, files, Without(entries, id), files2, expires)
  {
    WriteToDisk(entries, files, files2, id, KeptOf(FindIn(entries, id).value), hybrid, expires);
  }

  lemma Forget(entries: seq<Entry>, files: map<string, Snapshot>, files2: map<string, Snapshot>, id: string, hybrid: bool)
    requires Sound(entries, files, hybrid)
    requires files2 == files || files2 == files - {id}
    ensures Sound(Without(entries, id), files2, hybrid)
    ensures OthersKept(entries, files, Without(entries, id), files2, id, false)
    ensures FindIn(Without(entries, id), id).None?
    ensures OneHome(entries, files) ==> OneHome(Without(entries, id), files2)
  {
    WithoutKeepsOthers(entries, id);
  }

  /** Losing a file, with RAM left alone. */
  lemma LoseFile(entries: seq<Entry>, files: map<string, Snapshot>, files2: map<string, Snapshot>, id: string, hybrid: bool)
    requires Sound(entries, files, hybrid)
    requires files2 == files || files2 == files - {id}
    ensures Sound(entries, files2, hybrid)
    ensures OthersKept(entries, files, entries, files2, id, false)
    ensures FindIn(entries, id).None? ==> StillThere(Found(entries, files, id), Found(entries, files2, id), true)
    ensures OneHome(entries, files) ==> OneHome(entries, files2)
  {
  }

  /** Putting a snapshot back, or a new one in, with its file left alone or removed. */
  lemma PutInRam(entries: seq<Entry>, entries2: seq<Entry>, files: map<string, Snapshot>, files2: map<string, Snapshot>,
                 id: string, snapshot: Snapshot, hybrid: bool)
    requires Sound(entries, files, hybrid) && Parkable(snapshot, hybrid)
    requires FindIn(entries2, id) == Some(snapshot)
    requires forall other :: other != id ==> FindIn(entries2, other) == FindIn(entries, other)
    requires files2 == files || files2 == files - {id}
    ensures Sound(entries2, files2, hybrid)
    ensures OthersKept(entries, files, entries2, files2, id, false)
    ensures Found(entries2, files2, id) == Some(KeptOf(snapshot))
    ensures OneHome(entries, files) && id !in files2 ==> OneHome(entries2, files2)
  {
  }

  lemma ExpiryKeeps(entries: seq<Entry>, files: map<string, Snapshot>, files2: map<string, Snapshot>, hybrid: bool, expires: bool)
    requires Trimmed(files, files2, expires)
    ensures AllKept(entries, files, entries, files2, expires)
    ensures Sound(entries, files, hybrid) ==> Sound(entries, files2, hybrid)
    ensures OneHome(entries, files) ==> OneHome(entries, files2)
  {
  }

  lemma KeptInTurn(entries: seq<Entry>, files: map<string, Snapshot>, entries2: seq<Entry>, files2: map<string, Snapshot>,
                   entries3: seq<Entry>, files3: map<string, Snapshot>, id: string, expires: bool)
    requires OthersKept(entries, files, entries2, files2, id, expires)
    requires OthersKept(entries2, files2, entries3, files3, id, expires)
    ensures OthersKept(entries, files, entries3, files3, id, expires)
  {
    forall other | other != id ensures StillThere(Found(entries, files, other), Found(entries3, files3, other), expires) {
      assert StillThere(Found(entries, files, other), Found(entries2, files2, other), expires);
      assert StillThere(Found(entries2, files2, other), Found(entries3, files3, other), expires);
    }
  }

  lemma AllKeptInTurn(entries: seq<Entry>, files: map<string, Snapshot>, entries2: seq<Entry>, files2: map<string, Snapshot>,
                      entries3: seq<Entry>, files3: map<string, Snapshot>, expires: bool)
    requires AllKept(entries, files, entries2, files2, expires)
    requires AllKept(entries2, files2, entries3, files3, expires)
    ensures AllKept(entries, files, entries3, files3, expires)
  {
    forall id ensures StillThere(Found(entries, files, id), Found(entries3, files3, id), expires) {
      assert StillThere(Found(entries, files, id), Found(entries2, files2, id), expires);
      assert StillThere(Found(entries2, files2, id), Found(entries3, files3, id), expires);
    }
  }

  lemma AllIsOthers(entries: seq<Entry>, files: map<string, Snapshot>, entries2: seq<Entry>, files2: map<string, Snapshot>,
                    id: string, expires: bool)
    requires AllKept(entries, files, entries2, files2, expires)
    ensures OthersKept(entries, files, entries2, files2, id, expires)
    ensures StillThere(Found(entries, files, id), Found(entries2, files2, id), expires)
  {
    forall other ensures StillThere(Found(entries, files, other), Found(entries2, files2, other), expires) {
    }
  }

  /** `id` sits at the newest end after the oldest `n` others were spilled, and no fewer spills
      would have made room. */
  ghost predicate AdmittedAfter(before: seq<Entry>, after: seq<Entry>, id: string, snapshot: Snapshot, limit: nat, n: nat) {
    var held, bytes := Without(before, id), ParkedSessionBytes(snapshot);
    && n <= |held|
    && after == held[n..] + [Entry(id, snapshot, bytes)]
    && Total(held[n..]) + bytes <= limit
    && (n > 0 ==> Total(held[n - 1..]) + bytes > limit)
  }

  lemma NothingMoved(entries: seq<Entry>, files: map<string, Snapshot>, mayExpire: bool)
    ensures AllKept(entries, files, entries, files, mayExpire) && NewIn(entries, entries, {})
  {
  }

  /** What RAM still holds is as it was. */
  ghost predicate Fewer(entries: seq<Entry>, entries2: seq<Entry>) {
    forall id :: FindIn(entries2, id).Some? ==> FindIn(entries2, id) == FindIn(entries, id)
  }

  /** What is found is one of the entries held. */
  lemma {:induction false} FoundAmong(entries: seq<Entry>, id: string)
    requires FindIn(entries, id).Some?
    ensures exists k :: 0 <= k < |entries| && entries[k].id == id && entries[k].snapshot == FindIn(entries, id).value
  {
    if entries[0].id == id {
      assert entries[0].snapshot == FindIn(entries, id).value;
    } else {
      FoundAmong(entries[1..], id);
      var k :| 0 <= k < |entries[1..]| && entries[1..][k].id == id && entries[1..][k].snapshot == FindIn(entries, id).value;
      assert entries[k + 1] == entries[1..][k];
    }
  }

  /** When every id in turn was written or is stuck, only stuck ones are left. */
  lemma OnlyStuck(entries: seq<Entry>, entries2: seq<Entry>, ids: seq<string>)
    requires |ids| == |entries| && forall k :: 0 <= k < |ids| ==> ids[k] == entries[k].id
    requires Fewer(entries, entries2) && forall k :: 0 <= k < |ids| ==> Stuck(entries2, ids[k])
    ensures forall id :: Stuck(entries2, id)
    ensures AllWritable(entries) ==> entries2 == []
  {
    forall id ensures Stuck(entries2, id) {
      if FindIn(entries2, id).Some? {
        FoundAmong(entries, id);
      }
    }
    if AllWritable(entries) && entries2 != [] {
      FoundAmong(entries, entries2[0].id);
    }
  }

  /** A storable session that was parked and flushed is found on disk alone. */
  lemma FlushedToDisk(before: Option<Kept>, entries: seq<Entry>, files: map<string, Snapshot>, entries2: seq<Entry>,
                      files2: map<string, Snapshot>, id: string, hybrid: bool, expires: bool)
    requires StillThere(before, Found(entries, files, id), expires)
    requires StillThere(Found(entries, files, id), Found(entries2, files2, id), expires)
    requires Stuck(entries2, id) && Sound(entries2, files2, hybrid) && (before.Some? ==> Storable(id, before.value))
    ensures StillThere(before, Found([], files2, id), expires)
  {
  }

  lemma {:induction false} TailTotal(entries: seq<Entry>, n: nat)
    requires n <= |entries|
    ensures Total(entries[n..]) <= Total(entries)
  {
    if n > 0 {
      TailTotal(entries[1..], n - 1);
      assert entries[1..][n - 1..] == entries[n..];
    } else {
      assert entries[0..] == entries;
    }
  }

  lemma HeadIsFound(entries: seq<Entry>, id: string, rest: seq<Entry>)
    requires Without(entries, id) == rest && rest != [] && Distinct(entries)
    ensures rest[0].id != id && FindIn(entries, rest[0].id) == Some(rest[0].snapshot)
  {
    WithoutKeepsOthers(entries, id);
    assert rest[0] in rest;
    assert FindIn(rest, rest[0].id) == Some(rest[0].snapshot);
  }

  lemma {:induction false} WithoutCommutes(entries: seq<Entry>, a: string, b: string)
    ensures Without(Without(entries, a), b) == Without(Without(entries, b), a)
  {
    if entries != [] {
      WithoutCommutes(entries[1..], a, b);
      var restA, restB := Without(entries[1..], a), Without(entries[1..], b);
      assert ([entries[0]] + restA)[1..] == restA && ([entries[0]] + restB)[1..] == restB;
    }
  }

  lemma WithoutHead(held: seq<Entry>, k: nat)
    requires Distinct(held) && k < |held|
    ensures Without(held[k..], held[k].id) == held[k + 1..]
  {
    assert held[k..][1..] == held[k + 1..];
    WithoutAbsent(held[k + 1..], held[k].id);
  }
}
