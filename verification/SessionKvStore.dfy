/** Parked sequences on disk, one file per session id (`src/server/llm/session_kv_store.cpp`).
    The directory is a map of the readable files. A saved sequence goes to a temporary name and is
    renamed, so it either replaces the file or leaves the old one. A copy is made in place and asks
    only for a file, so a failed copy, or one of a broken file, may break the file it was to
    replace; a broken file counts as none. Any write, copy, removal or read may fail. */
module SessionKvStore {
  import opened Strings
  import opened LlamaContext
  import opened SessionPark
  import DiskGc

  const MAX_TOKENS: nat := 1_048_576
  /** Bytes in front of a captured state that are not part of the file. */
  const SEQ_MEMORY_PREFIX: nat := STATE_PREFIX

  /** One path segment that cannot escape the directory. */
  predicate ValidId(id: string) {
    && 0 < |id| <= 120 && id != "." && id != ".."
    && forall k :: 0 <= k < |id| ==> IsAlnum(id[k]) || id[k] == '.' || id[k] == '_' || id[k] == '-'
  }

  /** What a snapshot is kept for: its tokens and the two parts of the state. */
  datatype Kept = Kept(tokens: seq<Token>, attention: seq<Token>, recurrent: seq<Token>)

  function KeptOf(snapshot: Snapshot): Kept {
    Kept(snapshot.tokens, snapshot.state.attention, snapshot.state.recurrent)
  }

  /** A sequence a file of this id can hold. */
  predicate Storable(id: string, kept: Kept) {
    ValidId(id) && 0 < |kept.tokens| <= MAX_TOKENS
  }

  ghost predicate Loadable(files: map<string, Snapshot>) {
    forall id :: id in files ==> Storable(id, KeptOf(files[id]))
  }

  predicate Writable(id: string, snapshot: Snapshot) {
    ValidId(id) && 0 < |snapshot.tokens| <= MAX_TOKENS && snapshot.state.size >= SEQ_MEMORY_PREFIX
  }

  /** What can be kept in a file at all: up to 2^20 tokens under a plain name of up to 120 characters, and
      for a captured state at least the eight bytes it begins with. */
  lemma StorableIs(id: string, snapshot: Snapshot)
    ensures Storable(id, KeptOf(snapshot)) <==>
      && 1 <= |snapshot.tokens| <= 1_048_576 && 1 <= |id| <= 120 && id != "." && id != ".."
      && forall k :: 0 <= k < |id| ==>
           'a' <= id[k] <= 'z' || 'A' <= id[k] <= 'Z' || '0' <= id[k] <= '9' || id[k] == '.' || id[k] == '_' || id[k] == '-'
    ensures Writable(id, snapshot) <==> Storable(id, KeptOf(snapshot)) && snapshot.state.size >= 8
  {
  }

  /** What a scan says of a file is what the directory shows of it. */
  ghost predicate Shows(seen: seq<DiskGc.Stat>, listing: DiskGc.Listing) {
    forall f :: f in seen ==> f.id in listing && f == DiskGc.StatOf(f.id, listing[f.id])
  }

  ghost predicate ShowsAll(seen: seq<DiskGc.Stat>, listing: DiskGc.Listing) {
    forall id :: id in listing ==> DiskGc.StatOf(id, listing[id]) in seen
  }

  /** What a scan has seen so far, with `left` still to come. */
  ghost predicate Unseen(seen: seq<DiskGc.Stat>, left: DiskGc.Listing, listing: DiskGc.Listing) {
    DiskGc.DistinctFiles(seen) && Shows(seen, listing) && forall f :: f in seen ==> f.id !in left
  }

  ghost predicate SeenAll(seen: seq<DiskGc.Stat>, left: DiskGc.Listing, listing: DiskGc.Listing) {
    forall id :: id in listing && id !in left ==> DiskGc.StatOf(id, listing[id]) in seen
  }

  lemma NoneSeen(listing: DiskGc.Listing)
    ensures Unseen([], listing, listing) && SeenAll([], listing, listing)
    ensures DiskGc.Size([]) == 0 && DiskGc.Used(map[]) == 0
  {
  }

  lemma AllSeen(seen: seq<DiskGc.Stat>, listing: DiskGc.Listing)
    ensures Unseen(seen, map[], listing) ==> DiskGc.DistinctFiles(seen) && Shows(seen, listing)
    ensures SeenAll(seen, map[], listing) ==> ShowsAll(seen, listing)
  {
  }

  lemma SeenNext(seen: seq<DiskGc.Stat>, left: DiskGc.Listing, listing: DiskGc.Listing, id: string)
    requires id in left && id in listing && left[id] == listing[id] && Unseen(seen, left, listing)
    ensures Unseen(seen, left - {id}, listing)
    ensures var more := seen + [DiskGc.StatOf(id, left[id])];
      Unseen(more, left - {id}, listing) && (SeenAll(seen, left, listing) ==> SeenAll(more, left - {id}, listing))
  {
    forall k | 0 <= k < |seen| ensures seen[k].id != id {
      assert seen[k] in seen;
    }
  }

  /** Some files are gone, and no other is touched. */
  ghost predicate SomeGone(files: map<string, Snapshot>, listing: DiskGc.Listing,
                           left: map<string, Snapshot>, leftListing: DiskGc.Listing) {
    && (forall id :: id in left ==> id in files && left[id] == files[id])
    && (forall id :: id in leftListing ==> id in listing && leftListing[id] == listing[id])
    && forall id :: id in files && id !in left ==> id in listing && id !in leftListing
  }

  lemma NoneGone(files: map<string, Snapshot>, listing: DiskGc.Listing)
    ensures SomeGone(files, listing, files, listing)
  {
  }

  lemma GoneExpired(drop: seq<string>, seen: seq<DiskGc.Stat>, listing: DiskGc.Listing, left: DiskGc.Listing, maxAgeDays: nat, now: int)
    requires Shows(seen, listing) && forall id :: id in listing && id !in left ==> id in drop
    requires forall id :: id in drop ==> exists f :: f in seen && f.id == id && DiskGc.Expired(f, maxAgeDays, now)
    ensures forall id :: id in listing && id !in left ==> DiskGc.Expired(DiskGc.StatOf(id, listing[id]), maxAgeDays, now)
  {
    hide DiskGc.Expired;
  }

  lemma FitsTidy(listing: DiskGc.Listing, maxAgeDays: nat, maxBytes: nat, now: int)
    ensures DiskGc.Used(listing) <= maxBytes ==> DiskGc.Tidy(listing, maxAgeDays, maxBytes, now)
  {
  }

  lemma SweptTidy(seen: seq<DiskGc.Stat>, aged: seq<DiskGc.Stat>, drop: seq<string>, listing: DiskGc.Listing, left: DiskGc.Listing,
                  maxAgeDays: nat, maxBytes: nat, now: int)
    requires Shows(seen, listing) && ShowsAll(seen, listing) && DiskGc.Lists(aged, seen, maxAgeDays, now)
    requires |drop| <= |aged| && drop == DiskGc.FileIds(aged[..|drop|])
    requires DiskGc.Enough(aged, |drop|, DiskGc.Used(listing), maxBytes)
    requires forall id :: id in left ==> id in listing && left[id] == listing[id]
    requires forall id :: id in listing && id !in left ==> id in drop
    requires forall k :: 0 <= k < |drop| ==> drop[k] !in left
    ensures DiskGc.Tidy(left, maxAgeDays, maxBytes, now)
  {
    hide DiskGc.Enough, DiskGc.Tidy, DiskGc.Used, DiskGc.Expired;
    GoneAreNamed(drop, aged, left);
    DiskGc.AgedShown(seen, aged, listing, maxAgeDays, now);
    DiskGc.TidyAfter(listing, left, aged, |drop|, maxAgeDays, maxBytes, now);
  }

  lemma GoneAreNamed(drop: seq<string>, aged: seq<DiskGc.Stat>, listing: DiskGc.Listing)
    requires |drop| <= |aged| && drop == DiskGc.FileIds(aged[..|drop|])
    ensures forall k :: 0 <= k < |drop| ==> aged[k].id == drop[k]
  {
  }

  class KvStore {
    /** Whether the file system carries out every removal. */
    const removesWork: bool
    /** Whether it carries out every write and copy. */
    const writesWork: bool
    /** Whether it lets every file be read and listed. */
    const readsWork: bool
    /** The readable files. */
    var files: map<string, Snapshot>
    /** All files, readable or not. How large they are and when they were written the file system says. */
    var listing: DiskGc.Listing
    var clock: int
    /** Whether a pass over the directory found more bytes than 64 bits count. */
    ghost var overflowed: bool

    ghost predicate Valid()
      reads this
    {
      Loadable(files) && files.Keys <= listing.Keys && forall id :: id in listing ==> ValidId(id)
    }

    /** The directory may hold files of an earlier process. */
    constructor (removesWork: bool, writesWork: bool, readsWork: bool, files: map<string, Snapshot>, listing: DiskGc.Listing)
      requires Loadable(files) && files.Keys <= listing.Keys && forall id :: id in listing ==> ValidId(id)
      ensures Valid() && this.files == files && this.listing == listing
      ensures this.removesWork == removesWork && this.writesWork == writesWork && this.readsWork == readsWork
    {
      this.removesWork, this.writesWork, this.readsWork := removesWork, writesWork, readsWork;
      this.files, this.listing := files, listing;
      clock := *;
      overflowed := false;
    }

    /** Stream the live sequence to the file of `id`. */
    method Save(ctx: Context, id: string, tokens: seq<Token>) returns (ok: bool)
      requires Valid()
      modifies this
      ensures Valid()
      ensures !ok ==> files == old(files) && listing == old(listing)
      ensures ok ==> id in files && files == old(files)[id := files[id]] && listing == old(listing)[id := listing[id]]
      ensures ok ==> KeptOf(files[id]) == Kept(tokens, ctx.attention, ctx.recurrent)
      ensures writesWork && ValidId(id) && 0 < |tokens| <= MAX_TOKENS ==> ok
    {
      if !ValidId(id) || tokens == [] || |tokens| > MAX_TOKENS {
        return false;
      }
      ok := *;
      if ok || writesWork {
        ok := true;
        var size: nat := *;
        var shown: DiskGc.FileStat := *;
        files := files[id := Snapshot(tokens, KvImage(ctx.attention, ctx.recurrent, size))];
        listing := listing[id := shown];
      }
    }

    /** Write a captured snapshot to the file of `id`. */
    method SaveCaptured(id: string, snapshot: Snapshot) returns (ok: bool)
      requires Valid()
      modifies this
      ensures Valid()
      ensures !ok ==> files == old(files) && listing == old(listing)
      ensures ok ==> id in files && files == old(files)[id := files[id]] && listing == old(listing)[id := listing[id]]
      ensures ok ==> KeptOf(files[id]) == KeptOf(snapshot)
      ensures writesWork && Writable(id, snapshot) ==> ok
    {
      if !ValidId(id) || snapshot.tokens == [] || |snapshot.tokens| > MAX_TOKENS || snapshot.state.size < SEQ_MEMORY_PREFIX {
        return false;
      }
      ok := *;
      if ok || writesWork {
        ok := true;
        var shown: DiskGc.FileStat := *;
        files := files[id := snapshot.(state := snapshot.state.(size := snapshot.state.size - SEQ_MEMORY_PREFIX))];
        listing := listing[id := shown];
      }
    }

    /** Tokens in the header of the file. */
    method TokenCount(id: string) returns (count: Option<nat>)
      requires Valid()
      ensures count.Some? ==> id in files && count.value == |files[id].tokens|
      ensures readsWork && id in files ==> count.Some?
    {
      count := None;
      var readable := *;
      if ValidId(id) && id in files && (readable || readsWork) {
        count := Some(|files[id].tokens|);
      }
    }

    /** Stream the file back into the live sequence. */
    method Load(ctx: Context, id: string) returns (ok: bool, tokens: seq<Token>)
      requires Valid()
      modifies ctx`attention, ctx`recurrent
      ensures ok ==> id in files && KeptOf(files[id]) == Kept(tokens, ctx.attention, ctx.recurrent)
      ensures readsWork && ctx.steady && id in files ==> ok
      ensures !ok ==> (ctx.attention == old(ctx.attention) && ctx.recurrent == old(ctx.recurrent)) || ctx.InStep()
    {
      ok, tokens := false, [];
      var count := TokenCount(id);
      if count.None? || count.value == 0 {
        return;
      }
      ok := ctx.SeqSetData(files[id].state);
      if ok {
        tokens := files[id].tokens;
      }
    }

    /** Overwrite the file of `target` with the one of `source`, readable or not. */
    method Copy(source: string, target: string) returns (ok: bool)
      requires Valid()
      modifies this
      ensures Valid()
      ensures !ok ==> files == old(files) || files == old(files) - {target}
      ensures ok ==> files == if source in old(files) then old(files)[target := old(files)[source]] else old(files) - {target}
      ensures writesWork && source != target && source in old(files) && ValidId(target) ==> ok
      ensures listing - {target} == old(listing) - {target}
      ensures ok ==> source in old(listing) && target in listing && listing[target].bytes == old(listing)[source].bytes
    {
      if !ValidId(source) || !ValidId(target) || source == target {
        return false;
      }
      if source !in listing {
        return false;
      }
      ok := *;
      if ok || writesWork {
        ok := true;
        var when: int := *;
        var shown := DiskGc.FileStat(listing[source].bytes, when);
        files := if source in files then files[target := files[source]] else files - {target};
        listing := listing[target := shown];
      } else {
        var cut := *;
        if cut {
          var shown: DiskGc.FileStat := *;
          files := files - {target};
          listing := listing[target := shown];
        }
      }
    }

    method Remove(id: string)
      requires Valid()
      modifies this`files, this`listing
      ensures Valid()
      ensures (files == old(files) && listing == old(listing)) || (files == old(files) - {id} && listing == old(listing) - {id})
      ensures removesWork ==> id !in files && id !in listing
    {
      var done := *;
      if ValidId(id) && (done || removesWork) {
        files := files - {id};
        listing := listing - {id};
      }
    }

    /** Look at every file, in any order. One that cannot be looked at is left out. */
    method Scan() returns (seen: seq<DiskGc.Stat>)
      requires Valid()
      ensures DiskGc.DistinctFiles(seen) && Shows(seen, listing) && DiskGc.Size(seen) <= DiskGc.Used(listing)
      ensures readsWork ==> DiskGc.Size(seen) == DiskGc.Used(listing) && ShowsAll(seen, listing)
    {
      hide Unseen, SeenAll, DiskGc.Used, DiskGc.Size;
      seen := [];
      NoneSeen(listing);
      var left := listing;
      while left != map[]
        invariant left.Keys <= listing.Keys && forall id :: id in left ==> left[id] == listing[id]
        invariant Unseen(seen, left, listing)
        invariant DiskGc.Size(seen) + DiskGc.Used(left) <= DiskGc.Used(listing)
        invariant readsWork ==> DiskGc.Size(seen) + DiskGc.Used(left) == DiskGc.Used(listing)
        invariant readsWork ==> SeenAll(seen, left, listing)
        decreases |left|
      {
        var id :| id in left;
        var visible := *;
        DiskGc.UsedPick(left, id);
        SeenNext(seen, left, listing, id);
        if visible || readsWork {
          DiskGc.SizeAppend(seen, DiskGc.StatOf(id, left[id]));
          seen := seen + [DiskGc.StatOf(id, left[id])];
        }
        assert |left - {id}| == |left| - 1;
        left := left - {id};
      }
      AllSeen(seen, listing);
    }

    /** Delete what the expiry plan names of the files a scan saw; any removal may fail. */
    method TrimExpired(maxAgeDays: int, maxBytes: Bytes) returns (ghost seen: seq<DiskGc.Stat>)
      requires Valid()
      modifies this
      ensures Valid() && clock >= old(clock)
      ensures SomeGone(old(files), old(listing), files, listing)
      ensures maxAgeDays < 0 || DiskGc.Used(old(listing)) <= maxBytes ==> files == old(files) && listing == old(listing)
      ensures forall id :: id in old(listing) && id !in listing ==>
        maxAgeDays >= 0 && DiskGc.Expired(DiskGc.StatOf(id, old(listing)[id]), maxAgeDays, clock)
      ensures maxAgeDays >= 0 ==> Shows(seen, old(listing)) && (readsWork ==> ShowsAll(seen, old(listing)))
      ensures maxAgeDays >= 0 && DiskGc.Saturated(DiskGc.Size(seen)) > maxBytes ==>
        exists aged: seq<DiskGc.Stat>, n: nat ::
          && DiskGc.Lists(aged, seen, maxAgeDays, clock) && DiskGc.Enough(aged, n, DiskGc.Saturated(DiskGc.Size(seen)), maxBytes)
          && (forall id :: id in old(listing) && id !in listing ==> id in DiskGc.FileIds(aged[..n]))
          && (removesWork ==> forall k :: 0 <= k < n ==> aged[k].id !in listing)
      ensures overflowed ==> old(overflowed) || DiskGc.Used(old(listing)) > U64_MAX
      ensures removesWork && readsWork && maxAgeDays >= 0 ==> overflowed || DiskGc.Tidy(listing, maxAgeDays, maxBytes, clock)
    {
      hide Shows, ShowsAll, SomeGone, DiskGc.Lists, DiskGc.Enough, DiskGc.Used, DiskGc.Size,
           DiskGc.DistinctFiles, DiskGc.Tidy, DiskGc.Expired;
      overflowed := overflowed || DiskGc.Used(listing) > U64_MAX;
      seen := [];
      NoneGone(files, listing);
      if maxAgeDays < 0 {
        return;
      }
      var shown := Scan();
      seen := shown;
      var now: int :| now >= clock;
      clock := now;
      var drop;
      ghost var aged;
      drop, aged := DiskGc.PlanSessionDiskGc(shown, maxAgeDays, maxBytes, now);
      ghost var before := listing;
      RemoveEach(drop);
      GoneExpired(drop, shown, before, listing, maxAgeDays, now);
      if DiskGc.Saturated(DiskGc.Size(shown)) > maxBytes {
        GoneAreNamed(drop, aged, listing);
        if removesWork && readsWork && !overflowed {
          SweptTidy(shown, aged, drop, before, listing, maxAgeDays, maxBytes, now);
        }
      } else if readsWork && !overflowed {
        FitsTidy(listing, maxAgeDays, maxBytes, now);
      }
    }

    method RemoveEach(drop: seq<string>)
      requires Valid()
      modifies this`files, this`listing
      ensures Valid() && SomeGone(old(files), old(listing), files, listing)
      ensures drop == [] ==> files == old(files) && listing == old(listing)
      ensures forall id :: id in old(listing) && id !in listing ==> id in drop
      ensures removesWork ==> forall j :: 0 <= j < |drop| ==> drop[j] !in listing
    {
      for k := 0 to |drop|
        invariant Valid() && SomeGone(old(files), old(listing), files, listing)
        invariant k == 0 ==> files == old(files) && listing == old(listing)
        invariant forall id :: id in old(listing) && id !in listing ==> id in drop
        invariant removesWork ==> forall j :: 0 <= j < k ==> drop[j] !in listing
      {
        Remove(drop[k]);
      }
    }
  }
}
