/** One inference context shared by many sessions (`src/server/llm/llm_engine.cpp`).
    The context holds one live sequence; the other sessions are parked in RAM or on disk. */
module LlamaEngine {
  import opened Strings
  import opened LlamaContext
  import opened TokenPrefix
  import KvTrim
  import opened SessionPark
  import opened SessionKvStore
  import DiskGc
  import opened ParkedSessions
  import opened Turn

  /** Message ends are nondecreasing and lie within the sequence. */
  predicate EndsFit(ends: seq<nat>, length: nat) {
    && (forall j, k :: 0 <= j < k < |ends| ==> ends[j] <= ends[k])
    && forall k :: 0 <= k < |ends| ==> ends[k] <= length
  }

  lemma EndsGrow(ends: seq<nat>, length: nat, longer: nat)
    requires EndsFit(ends, length) && length <= longer
    ensures EndsFit(ends, longer)
  {
  }

  /** From `start` on, each end is the length of a rendering that is a prefix of the prompt. */
  ghost predicate Measured(ends: seq<nat>, start: nat, rendered: seq<seq<Token>>, prompt: seq<Token>) {
    forall i :: start <= i < |ends| ==> i < |rendered| && rendered[i] <= prompt && ends[i] == |rendered[i]|
  }

  /** Measuring starts from nothing, or from stored ends that lie within the prompt. */
  lemma EndsStart(ends: seq<nat>, length: nat, limit: nat, rendered: seq<seq<Token>>, prompt: seq<Token>)
    requires EndsFit(ends, length)
    ensures EndsFit([], limit) && Measured([], 0, rendered, prompt)
    ensures ends != [] && ends[|ends| - 1] <= limit ==> EndsFit(ends, limit) && Measured(ends, |ends|, rendered, prompt)
  {
  }

  lemma EndsAppend(ends: seq<nat>, start: nat, rendered: seq<seq<Token>>, prompt: seq<Token>)
    requires EndsFit(ends, |prompt|) && start <= |ends| && Measured(ends, start, rendered, prompt)
    requires |ends| < |rendered| && rendered[|ends|] <= prompt
    requires ends != [] ==> ends[|ends| - 1] <= |rendered[|ends|]|
    ensures EndsFit(ends + [|rendered[|ends|]|], |prompt|) && Measured(ends + [|rendered[|ends|]|], start, rendered, prompt)
  {
  }

  method ClipMessageEnds(ends: seq<nat>, n: nat) returns (clipped: seq<nat>)
    requires forall j, k :: 0 <= j < k < |ends| ==> ends[j] <= ends[k]
    ensures clipped <= ends && EndsFit(clipped, n)
    ensures |clipped| < |ends| ==> ends[|clipped|] > n
  {
    clipped := ends;
    while clipped != [] && clipped[|clipped| - 1] > n
      invariant clipped <= ends
      invariant |clipped| < |ends| ==> ends[|clipped|] > n
      decreases |clipped|
    {
      clipped := clipped[..|clipped| - 1];
    }
  }

  class Engine {
    const ctx: Context
    const memory: SessionMemory
    const store: KvStore
    /** RAM budget for parked sessions; 0 parks on disk only. */
    const memoryBytes: Bytes
    /** Negative switches disk expiry off. */
    const diskMaxAgeDays: int
    const diskMaxBytes: Bytes
    const maxTokens: int

    var activeId: string
    /** Token ids of the live sequence. */
    var active: seq<Token>
    /** End offset of each rendered message inside `active`. */
    var messageEnds: seq<nat>

    ghost predicate StoresValid()
      reads memory, store
    {
      && memory.Valid() && memory.limit == memoryBytes
      && store.Valid()
      && Sound(memory.entries, store.files, ctx.hybrid)
    }

    /** The engine's invariant: the live sequence is exactly `active`, every parked state encodes
        the tokens parked with it, and the RAM budget is kept. */
    ghost predicate Valid()
      reads this, ctx, memory, store
    {
      && ctx.Holds(active)
      && EndsFit(messageEnds, |active|)
      && StoresValid()
    }

    ghost function Lookup(id: string): Option<Kept>
      reads memory, store
    {
      Found(memory.entries, store.files, id)
    }

    /** Sessions that an earlier process left on disk are found again, unless they expire. */
    constructor (ctx: Context, store: KvStore, memoryBytes: Bytes, diskMaxAgeDays: int, diskMaxBytes: Bytes, maxTokens: int)
      requires ctx.Holds([]) && store.Valid() && Sound([], store.files, ctx.hybrid)
      modifies store
      ensures Valid() && OneHome(memory.entries, store.files) && this.ctx == ctx && this.store == store && fresh(memory)
      ensures activeId == "" && active == [] && memory.entries == [] && Tidy()
      ensures this.diskMaxBytes == diskMaxBytes && this.memoryBytes == memoryBytes && this.maxTokens == maxTokens
      ensures this.diskMaxAgeDays == diskMaxAgeDays && Trimmed(old(store.files), store.files, Expires())
    {
      this.ctx, this.store := ctx, store;
      this.memoryBytes, this.maxTokens := memoryBytes, maxTokens;
      this.diskMaxAgeDays, this.diskMaxBytes := diskMaxAgeDays, diskMaxBytes;
      activeId, active, messageEnds := "", [], [];
      memory := new SessionMemory(memoryBytes);
      new;
      ghost var files := store.files;
      TrimSessionDisk();
      ExpiryKeeps([], files, store.files, ctx.hybrid, Expires());
    }

    /** Keep the first `n` live tokens, or clear the sequence. */
    method TrimKvTo(n: nat) returns (kept: bool)
      requires active <= ctx.attention && ctx.InStep() && EndsFit(messageEnds, |active|)
      modifies this`active, this`messageEnds, ctx`attention, ctx`recurrent
      ensures ctx.Holds(active) && EndsFit(messageEnds, |active|)
      ensures active == if kept then old(active)[..if n < |old(active)| then n else |old(active)|] else []
      ensures if kept then messageEnds <= old(messageEnds) else messageEnds == []
      ensures kept && |messageEnds| < |old(messageEnds)| ==> old(messageEnds)[|messageEnds|] > |active|
      ensures n >= |old(active)| && old(ctx.Holds(active)) ==> kept
      ensures n < |old(active)| && ctx.steady ==> kept
    {
      var cut := if n > |active| then |active| else n;
      kept, active := KvTrim.Trim(ctx, active, cut);
      if !kept {
        messageEnds := [];
        return;
      }
      messageEnds := ClipMessageEnds(messageEnds, |active|);
    }

    /** Drops the live sequence. */
    method Reset()
      requires Valid()
      modifies this`active, this`messageEnds, ctx`attention, ctx`recurrent
      ensures Valid() && active == []
    {
      var kept := TrimKvTo(0);
    }

    method CaptureLiveSequence() returns (snapshot: Option<Snapshot>)
      requires ctx.Holds(active)
      ensures snapshot.Some? ==> active != [] && snapshot.value.state.size >= SEQ_MEMORY_PREFIX
      ensures snapshot.Some? ==> KeptOf(snapshot.value) == Kept(active, ctx.attention, ctx.recurrent)
      ensures ctx.steady && active != [] ==> snapshot.Some?
    {
      if active == [] {
        return None;
      }
      var ok, image := ctx.SeqGetData();
      if !ok || image.size < SEQ_MEMORY_PREFIX {
        return None;
      }
      snapshot := Some(Snapshot(active, image));
    }

    /** Whether the age limit may delete files. */
    predicate Expires() {
      diskMaxAgeDays >= 0
    }

    /** With the age limit on, the files fit or none of them is old enough to go: what a pass over the
        directory leaves behind when it sees all files and every removal works. */
    ghost predicate Tidy()
      reads store
    {
      Expires() && store.removesWork && store.readsWork && !store.overflowed ==>
        DiskGc.Tidy(store.listing, diskMaxAgeDays, diskMaxBytes, store.clock)
    }

    method TrimSessionDisk()
      requires StoresValid()
      modifies store
      ensures StoresValid()
      ensures Trimmed(old(store.files), store.files, Expires())
      ensures !Expires() || DiskGc.Used(old(store.listing)) <= diskMaxBytes ==>
        store.files == old(store.files) && store.listing == old(store.listing)
      ensures forall id :: id in old(store.listing) && id !in store.listing ==>
        Expires() && DiskGc.Expired(DiskGc.StatOf(id, old(store.listing)[id]), diskMaxAgeDays, store.clock)
      ensures Tidy() && (store.overflowed ==> old(store.overflowed) || DiskGc.Used(old(store.listing)) > U64_MAX)
    {
      ghost var seen := store.TrimExpired(diskMaxAgeDays, diskMaxBytes);
    }

    /** Save a captured snapshot under `id` and forget the one in RAM. */
    method SaveToDisk(id: string, snapshot: Snapshot) returns (ok: bool)
      requires StoresValid() && Faithful(KeptOf(snapshot), ctx.hybrid)
      modifies memory, store
      ensures StoresValid() && FindIn(memory.entries, id).None?
      ensures OthersKept(old(memory.entries), old(store.files), memory.entries, store.files, id, Expires())
      ensures ok ==> StillThere(Some(KeptOf(snapshot)), Lookup(id), Expires()) && Tidy()
      ensures !ok ==> store.files == old(store.files)
      ensures store.writesWork && Writable(id, snapshot) ==> ok
      ensures OneHome(old(memory.entries), old(store.files)) ==> OneHome(memory.entries, store.files)
      ensures NewIn(old(memory.entries), memory.entries, {})
    {
      memory.Erase(id);
      Forget(old(memory.entries), old(store.files), store.files, id, ctx.hybrid);
      ok := store.SaveCaptured(id, snapshot);
      if ok {
        assert Written(old(store.files), store.files, id, KeptOf(snapshot));
        WriteToDisk(old(memory.entries), old(store.files), store.files, id, KeptOf(snapshot), ctx.hybrid, false);
        ghost var written := store.files;
        TrimSessionDisk();
        assert Written(old(store.files), written, id, KeptOf(snapshot)) && Trimmed(written, store.files, Expires());
        WriteToDisk(old(memory.entries), old(store.files), store.files, id, KeptOf(snapshot), ctx.hybrid, Expires());
      }
    }

    /** Move one session from RAM to disk. When the write fails it goes back to RAM. */
    method Spill(id: string) returns (saved: bool)
      requires StoresValid() && FindIn(memory.entries, id).Some?
      modifies memory, store
      ensures StoresValid()
      ensures saved ==> memory.entries == Without(old(memory.entries), id) && Tidy()
      ensures !saved ==> FindIn(memory.entries, id) == FindIn(old(memory.entries), id)
      ensures forall other :: other != id ==> FindIn(memory.entries, other) == FindIn(old(memory.entries), other)
      ensures AllKept(old(memory.entries), old(store.files), memory.entries, store.files, Expires())
      ensures store.writesWork && Writable(id, FindIn(old(memory.entries), id).value) ==> saved
      ensures OneHome(old(memory.entries), old(store.files)) ==> OneHome(memory.entries, store.files)
      ensures NewIn(old(memory.entries), memory.entries, {})
    {
      var spilled := memory.Take(id);
      Forget(old(memory.entries), old(store.files), store.files, id, ctx.hybrid);
      saved := store.SaveCaptured(id, spilled.value);
      if !saved {
        memory.Insert(id, spilled.value);
        PutInRam(old(memory.entries), memory.entries, old(store.files), store.files, id, spilled.value, ctx.hybrid);
        return;
      }
      assert Written(old(store.files), store.files, id, KeptOf(spilled.value));
      WriteToDisk(old(memory.entries), old(store.files), store.files, id, KeptOf(spilled.value), ctx.hybrid, false);
      ghost var written := store.files;
      TrimSessionDisk();
      assert Written(old(store.files), written, id, KeptOf(spilled.value)) && Trimmed(written, store.files, Expires());
      MoveToDisk(old(memory.entries), old(store.files), store.files, id, ctx.hybrid, Expires());
    }

    /** Spill the planned ids, the oldest entries beside `id`, until a write fails. */
    method SpillEach(spill: seq<string>, ghost id: string) returns (all: bool)
      requires StoresValid()
      requires var held := Without(memory.entries, id);
        |spill| <= |held| && forall k :: 0 <= k < |spill| ==> spill[k] == held[k].id
      modifies memory, store
      ensures StoresValid()
      ensures all ==> Without(memory.entries, id) == Without(old(memory.entries), id)[|spill|..]
      ensures spill == [] ==> all
      ensures FindIn(memory.entries, id) == FindIn(old(memory.entries), id)
      ensures store.writesWork && AllWritable(Without(old(memory.entries), id)) ==> all
      ensures AllKept(old(memory.entries), old(store.files), memory.entries, store.files, Expires())
      ensures OneHome(old(memory.entries), old(store.files)) ==> OneHome(memory.entries, store.files)
      ensures NewIn(old(memory.entries), memory.entries, {})
    {
      ghost var held := Without(memory.entries, id);
      WithoutKeepsOthers(memory.entries, id);
      for k := 0 to |spill|
        invariant StoresValid()
        invariant Without(memory.entries, id) == held[k..]
        invariant FindIn(memory.entries, id) == FindIn(old(memory.entries), id)
        invariant NewIn(old(memory.entries), memory.entries, {})
        invariant AllKept(old(memory.entries), old(store.files), memory.entries, store.files, Expires())
        invariant OneHome(old(memory.entries), old(store.files)) ==> OneHome(memory.entries, store.files)
      {
        HeadIsFound(memory.entries, id, held[k..]);
        WithoutCommutes(memory.entries, spill[k], id);
        WithoutHead(held, k);
        ghost var entries, files := memory.entries, store.files;
        var saved := Spill(spill[k]);
        AllKeptInTurn(old(memory.entries), old(store.files), entries, files, memory.entries, store.files, Expires());
        if !saved {
          return false;
        }
      }
      all := true;
    }

    /** Put a snapshot there is room for into RAM and drop its file. */
    method KeepInRam(id: string, snapshot: Snapshot)
      requires StoresValid() && Parkable(snapshot, ctx.hybrid)
      requires Total(Without(memory.entries, id)) + ParkedSessionBytes(snapshot) <= memoryBytes
      modifies memory, store
      ensures StoresValid()
      ensures memory.entries == Without(old(memory.entries), id) + [Entry(id, snapshot, ParkedSessionBytes(snapshot))]
      ensures FindIn(memory.entries, id) == Some(snapshot) && Lookup(id) == Some(KeptOf(snapshot))
      ensures OthersKept(old(memory.entries), old(store.files), memory.entries, store.files, id, Expires())
      ensures store.removesWork && OneHome(old(memory.entries), old(store.files)) ==> OneHome(memory.entries, store.files)
      ensures NewIn(old(memory.entries), memory.entries, {id})
    {
      memory.Insert(id, snapshot);
      store.Remove(id);
      PutInRam(old(memory.entries), memory.entries, old(store.files), store.files, id, snapshot, ctx.hybrid);
    }

    /** The snapshot may be kept in RAM. */
    predicate Fits(snapshot: Snapshot) {
      snapshot.tokens != [] && snapshot.state.size >= SEQ_MEMORY_PREFIX && 0 < ParkedSessionBytes(snapshot) <= memoryBytes
    }

    /** Nothing keeps it out of RAM: it fits, and there is room beside the others or they can be
        spilled. */
    ghost predicate Admits(entries: seq<Entry>, id: string, snapshot: Snapshot) {
      && Fits(snapshot)
      && ((store.writesWork && AllWritable(Without(entries, id)))
          || Total(Without(entries, id)) + ParkedSessionBytes(snapshot) <= memoryBytes)
    }

    /** Whether the snapshot is to be kept in RAM; then the oldest sessions are spilled until it fits, and
        no more of them than that takes. */
    method MakeRoom(id: string, snapshot: Snapshot) returns (keep: bool, ghost n: nat)
      requires StoresValid()
      modifies memory, store
      ensures StoresValid()
      ensures keep ==> 0 < ParkedSessionBytes(snapshot) <= memoryBytes
      ensures keep ==> n <= |Without(old(memory.entries), id)| && Without(memory.entries, id) == Without(old(memory.entries), id)[n..]
      ensures keep ==> Total(Without(memory.entries, id)) + ParkedSessionBytes(snapshot) <= memoryBytes
      ensures keep && n > 0 ==> Total(Without(old(memory.entries), id)[n - 1..]) + ParkedSessionBytes(snapshot) > memoryBytes
      ensures Admits(old(memory.entries), id, snapshot) ==> keep
      ensures FindIn(memory.entries, id) == FindIn(old(memory.entries), id)
      ensures AllKept(old(memory.entries), old(store.files), memory.entries, store.files, Expires())
      ensures OneHome(old(memory.entries), old(store.files)) ==> OneHome(memory.entries, store.files)
      ensures NewIn(old(memory.entries), memory.entries, {})
    {
      hide Tidy, Sound, NewIn, OneHome, AllKept;
      var admitted, spill := memory.Plan(ParkedSessionBytes(snapshot), id);
      keep, n := admitted, |spill|;
      NothingMoved(memory.entries, store.files, Expires());
      if keep {
        if spill != [] {
          TailTotal(Without(memory.entries, id), |spill| - 1);
        }
        keep := SpillEach(spill, id);
      }
    }

    /** Keep the snapshot in RAM when it fits, spilling the oldest sessions to disk, and write it
        to disk otherwise. A failed write never costs another session its snapshot. */
    method StoreSnapshot(id: string, snapshot: Snapshot) returns (ok: bool)
      requires StoresValid()
      requires snapshot.tokens != [] ==> Faithful(KeptOf(snapshot), ctx.hybrid)
      modifies memory, store
      ensures StoresValid()
      ensures OthersKept(old(memory.entries), old(store.files), memory.entries, store.files, id, Expires())
      ensures ok ==> StillThere(Some(KeptOf(snapshot)), Lookup(id), Expires())
      ensures !ok && FindIn(old(memory.entries), id).None? ==>
        FindIn(memory.entries, id).None? && StillThere(old(Lookup(id)), Lookup(id), Expires())
      ensures store.writesWork && Writable(id, snapshot) ==> ok
      ensures store.removesWork && OneHome(old(memory.entries), old(store.files)) ==> OneHome(memory.entries, store.files)
      ensures Admits(old(memory.entries), id, snapshot) ==> ok && FindIn(memory.entries, id) == Some(snapshot)
      ensures ok && !Fits(snapshot) ==> FindIn(memory.entries, id).None?
      ensures ok && FindIn(memory.entries, id).Some? ==>
        exists n :: AdmittedAfter(old(memory.entries), memory.entries, id, snapshot, memoryBytes, n)
      ensures NewIn(old(memory.entries), memory.entries, {id})
    {
      hide Tidy, Sound;
      if snapshot.tokens == [] || snapshot.state.size < SEQ_MEMORY_PREFIX {
        return false;
      }
      var keep;
      ghost var n;
      keep, n := MakeRoom(id, snapshot);
      ghost var entries, files := memory.entries, store.files;
      AllIsOthers(old(memory.entries), old(store.files), entries, files, id, Expires());
      if keep {
        KeepInRam(id, snapshot);
        ok := true;
        assert AdmittedAfter(old(memory.entries), memory.entries, id, snapshot, memoryBytes, n);
      } else {
        ok := SaveToDisk(id, snapshot);
      }
      KeptInTurn(old(memory.entries), old(store.files), entries, files, memory.entries, store.files, id, Expires());
    }

    /** Stream the live sequence to the file of `id`. */
    method SaveLiveAs(id: string) returns (ok: bool)
      requires Valid()
      modifies store
      ensures Valid()
      ensures OthersKept(memory.entries, old(store.files), memory.entries, store.files, id, Expires())
      ensures ok && FindIn(memory.entries, id).None? ==> StillThere(Some(Live()), Lookup(id), Expires())
      ensures ok ==> Tidy()
      ensures !ok ==> store.files == old(store.files)
      ensures store.writesWork && ValidId(id) && 0 < |active| <= MAX_TOKENS ==> ok
      ensures FindIn(memory.entries, id).None? && OneHome(memory.entries, old(store.files)) ==> OneHome(memory.entries, store.files)
    {
      ok := store.Save(ctx, id, active);
      if ok {
        ghost var written := store.files;
        assert Written(old(store.files), written, id, Live());
        AddFile(memory.entries, old(store.files), written, id, Live(), ctx.hybrid, false);
        TrimSessionDisk();
        assert Written(old(store.files), written, id, Live()) && Trimmed(written, store.files, Expires());
        AddFile(memory.entries, old(store.files), store.files, id, Live(), ctx.hybrid, Expires());
      }
    }

    /** The same, forgetting what RAM holds for `id`. */
    method WriteLiveToDisk(id: string) returns (ok: bool)
      requires Valid()
      modifies memory, store
      ensures Valid() && FindIn(memory.entries, id).None?
      ensures OthersKept(old(memory.entries), old(store.files), memory.entries, store.files, id, Expires())
      ensures ok ==> StillThere(Some(Live()), Lookup(id), Expires()) && Tidy()
      ensures !ok ==> store.files == old(store.files)
      ensures store.writesWork && ValidId(id) && 0 < |active| <= MAX_TOKENS ==> ok
      ensures OneHome(old(memory.entries), old(store.files)) ==> OneHome(memory.entries, store.files)
      ensures NewIn(old(memory.entries), memory.entries, {})
    {
      memory.Erase(id);
      Forget(old(memory.entries), old(store.files), store.files, id, ctx.hybrid);
      ok := SaveLiveAs(id);
      KeptInTurn(old(memory.entries), old(store.files), memory.entries, old(store.files), memory.entries, store.files, id, Expires());
    }

    /** The live sequence as a snapshot would keep it. */
    ghost function Live(): Kept
      reads this, ctx
    {
      Kept(active, ctx.attention, ctx.recurrent)
    }

    /** Free the context for another session. Another id never loses its snapshot, and when disk
        writes succeed the parked session is found again as it was. It is captured into RAM when
        there is a budget, and stays there when it can. */
    method ParkActiveSession() returns (ghost captured: Option<Snapshot>)
      requires Valid()
      modifies memory, store
      ensures Valid()
      ensures OthersKept(old(memory.entries), old(store.files), memory.entries, store.files, activeId, Expires())
      ensures activeId == "" || active == [] ==> memory.entries == old(memory.entries) && store.files == old(store.files)
      ensures store.writesWork && ValidId(activeId) && 0 < |active| <= MAX_TOKENS ==> StillThere(Some(Live()), Lookup(activeId), Expires())
      ensures store.removesWork && OneHome(old(memory.entries), old(store.files)) ==> OneHome(memory.entries, store.files)
      ensures NewIn(old(memory.entries), memory.entries, {activeId})
      ensures captured.Some? ==> KeptOf(captured.value) == Live()
      ensures ctx.steady && activeId != "" && active != [] && memoryBytes > 0 ==> captured.Some?
      ensures captured.Some? && Admits(old(memory.entries), activeId, captured.value) ==> FindIn(memory.entries, activeId) == captured
      ensures activeId != "" && active != [] && (captured.None? || !Fits(captured.value)) ==> FindIn(memory.entries, activeId).None?
      ensures activeId != "" && active != [] && captured.None? && store.writesWork && Storable(activeId, Live()) ==> Tidy()
    {
      captured := None;
      if activeId == "" || active == [] {
        return;
      }
      if memoryBytes > 0 {
        var snapshot := CaptureLiveSequence();
        captured := snapshot;
        if snapshot.Some? {
          var stored := StoreSnapshot(activeId, snapshot.value);
          if stored {
            return;
          }
        }
      }
      ghost var entries, files := memory.entries, store.files;
      var ok := WriteLiveToDisk(activeId);
      KeptInTurn(old(memory.entries), old(store.files), entries, files, memory.entries, store.files, activeId, Expires());
    }

    /** Write one session to disk if RAM holds it. */
    method FlushOne(id: string)
      requires StoresValid()
      modifies memory, store
      ensures StoresValid()
      ensures store.writesWork ==> Stuck(memory.entries, id)
      ensures forall other :: Stuck(old(memory.entries), other) ==> Stuck(memory.entries, other)
      ensures Fewer(old(memory.entries), memory.entries)
      ensures AllKept(old(memory.entries), old(store.files), memory.entries, store.files, Expires())
      ensures OneHome(old(memory.entries), old(store.files)) ==> OneHome(memory.entries, store.files)
    {
      var parked := memory.Find(id);
      if parked.Some? {
        var saved := Spill(id);
        WithoutKeepsOthers(old(memory.entries), id);
      }
    }

    method FlushEach(ids: seq<string>)
      requires StoresValid()
      modifies memory, store
      ensures StoresValid() && Fewer(old(memory.entries), memory.entries)
      ensures store.writesWork ==> forall k :: 0 <= k < |ids| ==> Stuck(memory.entries, ids[k])
      ensures AllKept(old(memory.entries), old(store.files), memory.entries, store.files, Expires())
      ensures OneHome(old(memory.entries), old(store.files)) ==> OneHome(memory.entries, store.files)
    {
      hide FindIn, Found, Sound, OneHome, Stuck;
      for k := 0 to |ids|
        invariant StoresValid() && Fewer(old(memory.entries), memory.entries)
        invariant store.writesWork ==> forall j :: 0 <= j < k ==> Stuck(memory.entries, ids[j])
        invariant AllKept(old(memory.entries), old(store.files), memory.entries, store.files, Expires())
        invariant OneHome(old(memory.entries), old(store.files)) ==> OneHome(memory.entries, store.files)
      {
        ghost var entries, files := memory.entries, store.files;
        FlushOne(ids[k]);
        AllKeptInTurn(old(memory.entries), old(store.files), entries, files, memory.entries, store.files, Expires());
      }
    }

    /** Write every session in RAM to disk. Only a session whose write fails stays in RAM. */
    method FlushParkedSessions()
      requires Valid()
      modifies memory, store
      ensures Valid() && Tidy()
      ensures AllKept(old(memory.entries), old(store.files), memory.entries, store.files, Expires())
      ensures OneHome(old(memory.entries), old(store.files)) ==> OneHome(memory.entries, store.files)
      ensures store.writesWork && AllWritable(old(memory.entries)) ==> memory.entries == []
      ensures store.writesWork ==> forall id :: Stuck(memory.entries, id)
      ensures NewIn(old(memory.entries), memory.entries, {})
    {
      var ids := memory.IdsOldestFirst();
      FlushEach(ids);
      if store.writesWork {
        OnlyStuck(old(memory.entries), memory.entries, ids);
      }
      ghost var files := store.files;
      TrimSessionDisk();
      ExpiryKeeps(memory.entries, files, store.files, ctx.hybrid, Expires());
      AllKeptInTurn(old(memory.entries), old(store.files), memory.entries, files, memory.entries, store.files, Expires());
    }

    /** Forget everything kept for `id`. */
    method ReleaseSession(id: string)
      requires Valid()
      modifies this`active, this`messageEnds, ctx`attention, ctx`recurrent, memory, store
      ensures Valid()
      ensures OthersKept(old(memory.entries), old(store.files), memory.entries, store.files, id, false)
      ensures FindIn(memory.entries, id).None? && (store.removesWork ==> Lookup(id).None?)
      ensures if id == activeId then active == [] else active == old(active) && messageEnds == old(messageEnds)
      ensures OneHome(old(memory.entries), old(store.files)) ==> OneHome(memory.entries, store.files)
      ensures NewIn(old(memory.entries), memory.entries, {})
    {
      memory.Erase(id);
      store.Remove(id);
      Forget(old(memory.entries), old(store.files), store.files, id, ctx.hybrid);
      if activeId == id {
        var kept := TrimKvTo(0);
      }
    }

    /** Copy one session's snapshot under a new id. With a target id RAM does not hold, the target
        is left alone or becomes an exact copy of the source. Only a copy from file to file that
        fails, or that copies a broken file, may cost the target the file it had. */
    method CloneSession(source: string, target: string) returns (ghost captured: Option<Snapshot>)
      requires Valid()
      modifies memory, store
      ensures Valid()
      ensures OthersKept(old(memory.entries), old(store.files), memory.entries, store.files, target, Expires())
      ensures target == "" ==> memory.entries == old(memory.entries) && store.files == old(store.files)
      ensures FindIn(old(memory.entries), target).None? ==>
        || StillThere(old(Lookup(target)), Lookup(target), Expires())
        || StillThere(old(SourceOf(source)), Lookup(target), Expires())
        || (source != activeId && FindIn(old(memory.entries), source).None? && Lookup(target).None?)
      ensures (FindIn(old(memory.entries), target).None? && source != "" && source != target && ValidId(target) && store.writesWork
               && old(SourceOf(source)).Some? && 0 < |old(SourceOf(source)).value.tokens| <= MAX_TOKENS) ==>
        StillThere(old(SourceOf(source)), Lookup(target), Expires())
      ensures store.removesWork && FindIn(old(memory.entries), target).None? && OneHome(old(memory.entries), old(store.files)) ==>
        OneHome(memory.entries, store.files)
      ensures NewIn(old(memory.entries), memory.entries, {target})
      ensures captured.Some? ==> source != "" && old(SourceOf(source)) == Some(KeptOf(captured.value))
      ensures source != "" && target != "" && source != target && Capturable(source, old(memory.entries)) ==> captured.Some?
      ensures captured.Some? && Admits(old(memory.entries), target, captured.value) ==> FindIn(memory.entries, target) == captured
      ensures (source != activeId && source != target && store.writesWork && ValidId(target) && target != ""
               && FindIn(old(memory.entries), source).None? && source in old(store.files)) ==> Tidy()
    {
      captured := None;
      if source == "" || target == "" || source == target {
        return;
      }
      if source == activeId {
        captured := CloneLive(target);
        return;
      }
      var parked := memory.Find(source);
      captured := parked;
      if parked.Some? {
        var ok := StoreSnapshot(target, parked.value);
        return;
      }
      var ok := store.Copy(source, target);
      if !ok {
        LoseFile(memory.entries, old(store.files), store.files, target, ctx.hybrid);
      } else {
        ghost var files := store.files;
        if source in old(store.files) {
          assert Written(old(store.files), files, target, KeptOf(old(store.files)[source])) && Trimmed(files, files, false);
          AddFile(memory.entries, old(store.files), files, target, KeptOf(old(store.files)[source]), ctx.hybrid, false);
        } else {
          LoseFile(memory.entries, old(store.files), files, target, ctx.hybrid);
        }
        TrimSessionDisk();
        ExpiryKeeps(memory.entries, files, store.files, ctx.hybrid, Expires());
        AllIsOthers(memory.entries, files, memory.entries, store.files, target, Expires());
        KeptInTurn(memory.entries, old(store.files), memory.entries, files, memory.entries, store.files, target, Expires());
      }
    }

    /** A clone of `source` is made from a snapshot: of the live sequence, or the one in RAM. */
    ghost predicate Capturable(source: string, entries: seq<Entry>)
      reads this
    {
      if source == activeId then ctx.steady && active != [] && memoryBytes > 0 else FindIn(entries, source).Some?
    }

    /** What a clone of `id` copies: the live sequence when it is this session's. */
    ghost function SourceOf(id: string): Option<Kept>
      reads this, ctx, memory, store
    {
      if id == activeId then Some(Live()) else Lookup(id)
    }

    method CloneLive(target: string) returns (ghost captured: Option<Snapshot>)
      requires Valid()
      modifies memory, store
      ensures Valid()
      ensures OthersKept(old(memory.entries), old(store.files), memory.entries, store.files, target, Expires())
      ensures FindIn(old(memory.entries), target).None? ==>
        StillThere(old(Lookup(target)), Lookup(target), Expires()) || StillThere(Some(Live()), Lookup(target), Expires())
      ensures FindIn(old(memory.entries), target).None? && ValidId(target) && store.writesWork && 0 < |active| <= MAX_TOKENS ==>
        StillThere(Some(Live()), Lookup(target), Expires())
      ensures store.removesWork && FindIn(old(memory.entries), target).None? && OneHome(old(memory.entries), old(store.files)) ==>
        OneHome(memory.entries, store.files)
      ensures NewIn(old(memory.entries), memory.entries, {target})
      ensures captured.Some? ==> KeptOf(captured.value) == Live()
      ensures ctx.steady && active != [] && memoryBytes > 0 ==> captured.Some?
      ensures captured.Some? && Admits(old(memory.entries), target, captured.value) ==> FindIn(memory.entries, target) == captured
    {
      captured := None;
      if active == [] {
        return;
      }
      if memoryBytes > 0 {
        var snapshot := CaptureLiveSequence();
        captured := snapshot;
        if snapshot.Some? {
          var stored := StoreSnapshot(target, snapshot.value);
          if stored {
            return;
          }
        }
      }
      ghost var entries, files := memory.entries, store.files;
      var ok := SaveLiveAs(target);
      KeptInTurn(old(memory.entries), old(store.files), entries, files, memory.entries, store.files, target, Expires());
    }

    /** Load a parked session into the context, which the caller has given up. False leaves the
        stores as they were and the context in any state both parts agree on. */
    method UnparkSession(id: string) returns (ok: bool)
      requires active == [] && messageEnds == [] && ctx.InStep() && StoresValid()
      modifies this`active, this`messageEnds, ctx`attention, ctx`recurrent, memory
      ensures StoresValid() && messageEnds == []
      ensures ok ==> ctx.Holds(active) && old(Lookup(id)) == Some(Live())
      ensures !ok ==> active == [] && ctx.InStep()
      ensures ctx.steady && store.readsWork && old(Lookup(id)).Some? ==> ok
      ensures OthersKept(old(memory.entries), store.files, memory.entries, store.files, id, false)
      ensures !ok ==> Lookup(id) == old(Lookup(id))
      ensures forall other :: other != id ==> FindIn(memory.entries, other) == FindIn(old(memory.entries), other)
      ensures OneHome(old(memory.entries), store.files) ==> OneHome(memory.entries, store.files)
      ensures NewIn(old(memory.entries), memory.entries, {})
    {
      var snapshot := memory.Take(id);
      Forget(old(memory.entries), store.files, store.files, id, ctx.hybrid);
      if snapshot.Some? {
        ok := LoadFromRam(snapshot.value);
        if !ok {
          memory.Insert(id, snapshot.value);
          PutInRam(old(memory.entries), memory.entries, store.files, store.files, id, snapshot.value, ctx.hybrid);
        }
        return;
      }
      ok := LoadFromDisk(id);
    }

    method LoadFromRam(snapshot: Snapshot) returns (ok: bool)
      requires active == [] && messageEnds == [] && ctx.InStep() && Faithful(KeptOf(snapshot), ctx.hybrid)
      modifies this`active, this`messageEnds, ctx`attention, ctx`recurrent
      ensures messageEnds == []
      ensures ok ==> ctx.Holds(active) && KeptOf(snapshot) == Live()
      ensures ctx.steady ==> ok
      ensures !ok ==> active == [] && ctx.InStep()
    {
      var kept := TrimKvTo(0);
      ok := ctx.SeqSetData(snapshot.state);
      active := if ok then snapshot.tokens else [];
      messageEnds := [];
    }

    method LoadFromDisk(id: string) returns (ok: bool)
      requires active == [] && messageEnds == [] && ctx.InStep() && StoresValid()
      modifies this`active, this`messageEnds, ctx`attention, ctx`recurrent
      ensures messageEnds == []
      ensures ok ==> ctx.Holds(active) && id in store.files && KeptOf(store.files[id]) == Live()
      ensures ctx.steady && store.readsWork && id in store.files ==> ok
      ensures !ok ==> active == [] && ctx.InStep()
    {
      var count := store.TokenCount(id);
      if count.None? {
        return false;
      }
      var kept := TrimKvTo(0);
      var tokens;
      ok, tokens := store.Load(ctx, id);
      active := if ok then tokens else [];
      messageEnds := [];
    }

    /** Make `id` the live session. Its sequence comes back as it was parked, or starts empty. */
    method ActivateSession(id: string) returns (ghost captured: Option<Snapshot>)
      requires Valid()
      modifies this, ctx`attention, ctx`recurrent, memory, store
      ensures Valid() && activeId == id
      ensures id == old(activeId) ==> active == old(active) && messageEnds == old(messageEnds)
      ensures id == old(activeId) ==> memory.entries == old(memory.entries) && store.files == old(store.files)
      ensures id != old(activeId) ==> active == [] || old(Lookup(id)) == Some(Live())
      ensures id != old(activeId) && ctx.steady && store.readsWork && !Expires() && old(Lookup(id)).Some? ==> old(Lookup(id)) == Some(Live())
      ensures forall other :: other != id && other != old(activeId) ==> StillThere(old(Lookup(other)), Lookup(other), Expires())
      ensures id != old(activeId) && store.writesWork && ValidId(old(activeId)) && 0 < |old(active)| <= MAX_TOKENS ==>
        StillThere(Some(old(Live())), Lookup(old(activeId)), Expires())
      ensures store.removesWork && OneHome(old(memory.entries), old(store.files)) ==> OneHome(memory.entries, store.files)
      ensures NewIn(old(memory.entries), memory.entries, {old(activeId)})
      ensures id != old(activeId) ==> messageEnds == []
      ensures captured.Some? ==> KeptOf(captured.value) == old(Live())
      ensures id != old(activeId) && ctx.steady && old(activeId) != "" && old(active) != [] && memoryBytes > 0 ==> captured.Some?
      ensures captured.Some? && Admits(old(memory.entries), old(activeId), captured.value) ==>
        FindIn(memory.entries, old(activeId)) == captured
    {
      captured := None;
      if id == activeId {
        return;
      }
      captured := ParkActiveSession();
      ghost var entries, files := memory.entries, store.files;
      SwitchTo(id);
      assert forall other :: other != id && other != old(activeId) ==> StillThere(Found(entries, files, other), Lookup(other), false);
    }

    /** Take over the context for `id`, whose sequence is brought back or starts empty. */
    method SwitchTo(id: string)
      requires ctx.InStep() && StoresValid()
      modifies this, ctx`attention, ctx`recurrent, memory
      ensures Valid() && activeId == id && messageEnds == []
      ensures active == [] || old(Lookup(id)) == Some(Live())
      ensures ctx.steady && store.readsWork && old(Lookup(id)).Some? ==> old(Lookup(id)) == Some(Live())
      ensures OthersKept(old(memory.entries), store.files, memory.entries, store.files, id, false)
      ensures forall other :: other != id ==> FindIn(memory.entries, other) == FindIn(old(memory.entries), other)
      ensures OneHome(old(memory.entries), store.files) ==> OneHome(memory.entries, store.files)
      ensures NewIn(old(memory.entries), memory.entries, {})
    {
      activeId := id;
      active, messageEnds := [], [];
      var ok := UnparkSession(id);
      if !ok {
        var kept := TrimKvTo(0);
      }
    }

    /** Decode `tokens` onto the live sequence in batches. `Finished` means all went in; otherwise
        whole batches may have, and the context may hold cells `active` does not name. */
    method DecodeTokens(tokens: seq<Token>, request: Request) returns (end: TurnEnd, asked: nat)
      requires ctx.Holds(active)
      modifies this`active, ctx
      ensures end.Finished? ==> active == old(active) + tokens && ctx.Holds(active)
      ensures !end.Finished? ==> old(active) <= active <= old(active) + tokens && active <= ctx.attention && ctx.InStep()
      ensures |old(active)| + |tokens| <= ctx.nCtx ==> !end.ContextFull?
      ensures ctx.steady ==> ctx.Holds(active)
      ensures end.Finished? ==> ctx.decoded == old(ctx.decoded) + |tokens|
      ensures end.Finished? && tokens != [] ==> |active| <= ctx.nCtx
      ensures forall i :: 0 <= i < asked ==> !StopsAt(request, i)
      ensures end.Finished? ==> asked == Batches(|tokens|, ctx.BatchSize())
      ensures end.Aborted? ==> asked < Batches(|tokens|, ctx.BatchSize()) && StopsAt(request, asked)
      ensures ctx.refused == old(ctx.refused) + if end.RuntimeError? then 1 else 0
      ensures ctx.steady ==> !end.RuntimeError?
    {
      hide Batches, StopsAt;
      end, asked := Finished, 0;
      NoBatches(ctx.BatchSize());
      if tokens == [] {
        return;
      }
      var batchSize := if ctx.nBatch > 1 then ctx.nBatch else 1;
      var offset := 0;
      while offset < |tokens|
        invariant offset <= |tokens| && end.Finished?
        invariant active == old(active) + tokens[..offset] && ctx.Holds(active)
        invariant offset > 0 ==> |active| <= ctx.nCtx
        invariant ctx.decoded == old(ctx.decoded) + offset && ctx.refused == old(ctx.refused)
        invariant asked + Batches(|tokens| - offset, batchSize) == Batches(|tokens|, batchSize)
        invariant forall i :: 0 <= i < asked ==> !StopsAt(request, i)
      {
        var n := if batchSize < |tokens| - offset then batchSize else |tokens| - offset;
        BatchesNext(|tokens| - offset, batchSize, n);
        if StopsAt(request, asked) {
          return Aborted, asked;
        }
        asked := asked + 1;
        if |active| + n > ctx.nCtx {
          return ContextFull, asked;
        }
        var batch := tokens[offset..offset + n];
        var ok := ctx.Decode(batch);
        if !ok {
          return RuntimeError, asked;
        }
        assert tokens[..offset + n] == tokens[..offset] + batch;
        active := active + batch;
        offset := offset + n;
      }
    }

    /** The stored ends still describe unchanged messages: up to the last of them, the live
        sequence and the prompt agree. */
    predicate StillMatch(prompt: seq<Token>)
      reads this
    {
      messageEnds != [] && var last := messageEnds[|messageEnds| - 1];
      last <= |prompt| && last <= |active| && active[..last] == prompt[..last]
    }

    /** End offset of each rendered message inside the prompt. `rendered[i]` is the token form of
        the first `i + 1` messages. Stored ends are reused while they still match. */
    method MessageTokenEnds(rendered: seq<seq<Token>>, prompt: seq<Token>) returns (ends: seq<nat>)
      requires EndsFit(messageEnds, |active|)
      ensures EndsFit(ends, |prompt|)
      ensures if StillMatch(prompt) then messageEnds <= ends && Measured(ends, |messageEnds|, rendered, prompt)
        else Measured(ends, 0, rendered, prompt)
      ensures |ends| < |rendered| ==>
        !(rendered[|ends|] <= prompt) || (ends != [] && |rendered[|ends|]| < ends[|ends| - 1])
    {
      hide EndsFit, Measured;
      ends := [];
      if messageEnds != [] {
        var last := messageEnds[|messageEnds| - 1];
        if last <= |prompt| && last <= |active| && active[..last] == prompt[..last] {
          ends := messageEnds;
        }
      }
      var start := |ends|;
      var i := start;
      EndsStart(messageEnds, |active|, |prompt|, rendered, prompt);
      while i < |rendered|
        invariant start <= i == |ends|
        invariant start == (if StillMatch(prompt) then |messageEnds| else 0) && (StillMatch(prompt) ==> messageEnds <= ends)
        invariant EndsFit(ends, |prompt|) && Measured(ends, start, rendered, prompt)
      {
        var tokens := rendered[i];
        if |tokens| > |prompt| {
          break;
        }
        if tokens != prompt[..|tokens|] {
          break;
        }
        if ends != [] && |tokens| < ends[|ends| - 1] {
          break;
        }
        EndsAppend(ends, start, rendered, prompt);
        ends := ends + [|tokens|];
        i := i + 1;
      }
    }

    /** Sample until the model ends, the budget is used up, the context is full or the caller
        stops. Each accepted token is decoded before the next is drawn; the measure is the room
        left in the context, so the loop ends without a token budget too. */
    method SampleTokens(maxNew: int, asked: nat, request: Request) returns (end: TurnEnd, response: seq<Token>, ghost taken: nat)
      requires ctx.Holds(active)
      modifies this`active, ctx
      ensures taken <= |response| <= taken + 1 && active == old(active) + response[..taken]
      ensures AllGo(Sampling(request, maxNew, asked, |old(active)|, ctx.nCtx), taken) && Drawn(request.answers, response)
      ensures end.Finished? ==> active == old(active) + response && ctx.Holds(active)
      ensures end.Finished? ==> (response != [] ==> |active| <= ctx.nCtx) && (maxNew >= 0 ==> |response| <= maxNew)
      ensures end.Finished? ==> ctx.decoded == old(ctx.decoded) + |response|
      ensures !end.Finished? ==> active <= ctx.attention && ctx.InStep()
      ensures ctx.steady ==> ctx.Holds(active) && ctx.refused == old(ctx.refused)
      ensures ctx.refused == old(ctx.refused) ==> Ends(Sampling(request, maxNew, asked, |old(active)|, ctx.nCtx), taken, end, response)
      ensures ctx.refused == old(ctx.refused) || (ctx.refused == old(ctx.refused) + 1 && end.RuntimeError?)
    {
      hide AllGo, Drawn, Ends;
      ghost var t := Sampling(request, maxNew, asked, |active|, ctx.nCtx);
      NoneDrawn(t);
      response, taken := [], 0;
      var generated := 0;
      while maxNew < 0 || generated < maxNew
        invariant generated == taken == |response| && (maxNew >= 0 ==> generated <= maxNew)
        invariant active == old(active) + response && ctx.Holds(active)
        invariant response != [] ==> |active| <= ctx.nCtx
        invariant ctx.decoded == old(ctx.decoded) + |response| && ctx.refused == old(ctx.refused)
        invariant AllGo(t, generated) && Drawn(request.answers, response)
        decreases ctx.nCtx - |active|
      {
        assert response[..taken] == response;
        if StopsAt(request, asked + generated) {
          EndsHere(t, taken, response);
          return Aborted, response, taken;
        }
        if |active| >= ctx.nCtx {
          EndsHere(t, taken, response);
          return ContextFull, response, taken;
        }
        var sampled := request.answers.samples(generated);
        if sampled.None? {
          break;
        }
        if !request.answers.spells(generated) {
          EndsHere(t, taken, response);
          return RuntimeError, response, taken;
        }
        OneMore(t, taken, response, sampled.value);
        response := response + [sampled.value];
        assert response[..taken] + [sampled.value] == response;
        if request.streams && !request.answers.takes(generated) {
          EndsHere(t, taken, response);
          return Aborted, response, taken;
        }
        var ok := ctx.Decode([sampled.value]);
        if !ok {
          return RuntimeError, response, taken;
        }
        active := active + [sampled.value];
        generated := generated + 1;
        taken := taken + 1;
      }
      assert response[..taken] == response;
      EndsHere(t, taken, response);
      end := Finished;
    }

    /** One turn. A finished turn leaves exactly the prompt and the sampled tokens in the cache,
        whatever was cached before. Any other turn leaves the prefix it reused, or nothing. */
    method GenerateTokens(prompt: seq<Token>, ends: seq<nat>, request: Request)
      returns (end: TurnEnd, response: seq<Token>, ghost live: seq<Token>, ghost reused: nat)
      requires Valid() && EndsFit(ends, |prompt|)
      modifies this, ctx, memory, store
      ensures Valid() && activeId == request.sessionId
      ensures Switched(old(activeId), old(active), old(Lookup(request.sessionId)), request.sessionId, live)
      ensures forall other :: other != request.sessionId && other != old(activeId) ==>
        StillThere(old(Lookup(other)), Lookup(other), Expires())
      ensures store.removesWork && OneHome(old(memory.entries), old(store.files)) ==> OneHome(memory.entries, store.files)
      ensures request.sessionId != old(activeId) && store.writesWork && ValidId(old(activeId)) && 0 < |old(active)| <= MAX_TOKENS ==>
        StillThere(Some(old(Live())), Lookup(old(activeId)), Expires())
      ensures reused == CommonPrefix(live, prompt) || (reused == 0 && !ctx.steady && !(live <= prompt))
      ensures end.Finished? ==> ctx.decoded == old(ctx.decoded) + |prompt| - reused + |response|
      ensures request.sessionId == old(activeId) ==> memory.entries == old(memory.entries) && store.files == old(store.files)
      ensures prompt == [] ==> end.RuntimeError? && active == live
      ensures |prompt| >= ctx.nCtx && prompt != [] ==> end.ContextFull? && active == live
      ensures end.Finished? ==> prompt != [] && active == prompt + response && |active| <= ctx.nCtx
      ensures end.Finished? && ends != [] ==> messageEnds == ends
      ensures 0 < |prompt| < ctx.nCtx ==> RunsAsAnswered(request, maxTokens, |prompt| - reused, |prompt|, old(ctx.refused), end, response)
      ensures !end.Finished? && prompt != [] && |prompt| < ctx.nCtx ==>
        active == [] || active == live[..CommonPrefix(live, prompt)]
      ensures !end.Finished? && ctx.steady && prompt != [] && |prompt| < ctx.nCtx ==> active == live[..CommonPrefix(live, prompt)]
      ensures NewIn(old(memory.entries), memory.entries, {old(activeId)})
    {
      response := [];
      ghost var captured := ActivateSession(request.sessionId);
      live, reused := active, CommonPrefix(active, prompt);
      if prompt == [] {
        return RuntimeError, [], live, reused;
      }
      if |prompt| >= ctx.nCtx {
        return ContextFull, [], live, reused;
      }
      end, response, reused := RunTurn(prompt, ends, request);
    }

    /** Unless the library refuses a decode, and that ends the turn with an error, the turn ends as
        the answers of model, tokenizer and caller have it. A steady library refuses none. */
    ghost predicate RunsAsAnswered(request: Request, configured: int, tail: nat, prompt: nat, refused: nat,
                                   end: TurnEnd, response: seq<Token>)
      reads ctx`refused
    {
      var maxNew := if request.maxTokens >= 0 then request.maxTokens else configured;
      && (ctx.steady ==> ctx.refused == refused)
      && (ctx.refused == refused ==> TurnEnds(Whole(request, maxNew, tail, ctx.BatchSize(), prompt, ctx.nCtx), end, response))
      && (ctx.refused != refused ==> ctx.refused == refused + 1 && end.RuntimeError?)
    }

    /** Decode the rest of the prompt and sample. A turn that does not finish may leave surplus. */
    method DecodeAndSample(tail: seq<Token>, request: Request) returns (end: TurnEnd, response: seq<Token>)
      requires ctx.Holds(active) && 0 < |active| + |tail| < ctx.nCtx
      modifies this`active, ctx
      ensures end.Finished? ==> active == old(active) + tail + response && ctx.Holds(active) && |active| <= ctx.nCtx
      ensures end.Finished? ==> ctx.decoded == old(ctx.decoded) + |tail| + |response|
      ensures !end.Finished? ==> old(active) <= active && active <= ctx.attention && ctx.InStep()
      ensures ctx.steady ==> ctx.Holds(active)
      ensures RunsAsAnswered(request, maxTokens, |tail|, |old(active)| + |tail|, old(ctx.refused), end, response)
    {
      hide Ends, AllGo, Drawn, Batches, StopsAt, TurnEnds;
      ghost var w := Whole(request, if request.maxTokens >= 0 then request.maxTokens else maxTokens, |tail|, ctx.BatchSize(),
                           |active| + |tail|, ctx.nCtx);
      response := [];
      var asked;
      end, asked := DecodeTokens(tail, request);
      if end.Finished? {
        ghost var taken;
        end, response, taken := SampleTokens(BudgetOf(request), asked, request);
        if ctx.refused == old(ctx.refused) {
          SamplingEnds(w, taken, end, response);
        }
      } else if end.Aborted? {
        DecodingEnds(w, asked);
      }
    }

    /** The part of a turn that touches the live sequence: reuse, decode the tail, sample, and
        roll back unless all went well. */
    method RunTurn(prompt: seq<Token>, ends: seq<nat>, request: Request) returns (end: TurnEnd, response: seq<Token>, ghost reused: nat)
      requires ctx.Holds(active) && EndsFit(messageEnds, |active|)
      requires 0 < |prompt| < ctx.nCtx && EndsFit(ends, |prompt|)
      modifies this`active, this`messageEnds, ctx
      ensures ctx.Holds(active) && EndsFit(messageEnds, |active|)
      ensures reused == CommonPrefix(old(active), prompt) || (reused == 0 && !ctx.steady && !(old(active) <= prompt))
      ensures end.Finished? ==> active == prompt + response && |active| <= ctx.nCtx
      ensures end.Finished? ==> ctx.decoded == old(ctx.decoded) + |prompt| - reused + |response|
      ensures end.Finished? && ends != [] ==> messageEnds == ends
      ensures RunsAsAnswered(request, maxTokens, |prompt| - reused, |prompt|, old(ctx.refused), end, response)
      ensures !end.Finished? ==> active == [] || active == old(active)[..CommonPrefix(old(active), prompt)]
      ensures !end.Finished? && ctx.steady ==> active == old(active)[..CommonPrefix(old(active), prompt)]
    {
      hide EndsFit, RunsAsAnswered, CommonPrefix;
      response := [];
      var checkpoint := CheckpointFromOffsets(active, prompt, messageEnds);
      var kept := TrimKvTo(checkpoint);
      if !kept {
        checkpoint := 0;
      }
      reused := checkpoint;
      ghost var front := active;
      assert front == prompt[..checkpoint] && prompt == prompt[..checkpoint] + prompt[checkpoint..];
      end, response := DecodeAndSample(prompt[checkpoint..], request);
      EndsGrow(messageEnds, |front|, |active|);
      if end.Finished? {
        EndsGrow(ends, |prompt|, |active|);
        if ends != [] {
          messageEnds := ends;
        }
        return;
      }
      assert front <= active && |front| == checkpoint;
      kept := TrimKvTo(checkpoint);
      assert kept ==> active == front;
    }

    function BudgetOf(request: Request): int {
      if request.maxTokens >= 0 then request.maxTokens else maxTokens
    }

    /** A chat turn measures where its messages end in the prompt, then generates. */
    method Chat(rendered: seq<seq<Token>>, prompt: seq<Token>, request: Request)
      returns (end: TurnEnd, response: seq<Token>, ghost live: seq<Token>, ghost reused: nat, ghost ends: seq<nat>)
      requires Valid()
      modifies this, ctx, memory, store
      ensures Valid() && activeId == request.sessionId
      ensures end.Finished? && ends != [] ==> messageEnds == ends
      ensures if request.sessionId == old(activeId) && old(StillMatch(prompt)) then
          old(messageEnds) <= ends && Measured(ends, |old(messageEnds)|, rendered, prompt)
        else Measured(ends, 0, rendered, prompt)
      ensures |ends| < |rendered| ==>
        !(rendered[|ends|] <= prompt) || (ends != [] && |rendered[|ends|]| < ends[|ends| - 1])
      ensures Switched(old(activeId), old(active), old(Lookup(request.sessionId)), request.sessionId, live)
      ensures end.Finished? ==> prompt != [] && active == prompt + response && |active| <= ctx.nCtx
      ensures forall other :: other != request.sessionId && other != old(activeId) ==>
        StillThere(old(Lookup(other)), Lookup(other), Expires())
      ensures request.sessionId != old(activeId) && store.writesWork && ValidId(old(activeId)) && 0 < |old(active)| <= MAX_TOKENS ==>
        StillThere(Some(old(Live())), Lookup(old(activeId)), Expires())
      ensures !end.Finished? ==> active == live || active == [] || active == live[..CommonPrefix(live, prompt)]
      ensures !end.Finished? && ctx.steady && prompt != [] && |prompt| < ctx.nCtx ==> active == live[..CommonPrefix(live, prompt)]
      ensures reused == CommonPrefix(live, prompt) || (reused == 0 && !ctx.steady && !(live <= prompt))
      ensures 0 < |prompt| < ctx.nCtx ==> RunsAsAnswered(request, maxTokens, |prompt| - reused, |prompt|, old(ctx.refused), end, response)
      ensures prompt == [] ==> end.RuntimeError? && active == live
      ensures |prompt| >= ctx.nCtx && prompt != [] ==> end.ContextFull? && active == live
      ensures store.removesWork && OneHome(old(memory.entries), old(store.files)) ==> OneHome(memory.entries, store.files)
      ensures NewIn(old(memory.entries), memory.entries, {old(activeId)})
    {
      ghost var captured := ActivateSession(request.sessionId);
      ghost var switched := active;
      var measured := MessageTokenEnds(rendered, prompt);
      ends := measured;
      end, response, live, reused := GenerateTokens(prompt, measured, request);
      assert live == switched;
    }

    /** Leaving a session and coming back brings its live sequence back, token for token, when
        nothing fails on the way. */
    method LeaveAndReturn(other: string)
      requires Valid() && other != activeId
      requires ctx.steady && store.writesWork && store.readsWork && !Expires()
      requires ValidId(activeId) && 0 < |active| <= MAX_TOKENS
      modifies this, ctx`attention, ctx`recurrent, memory, store
      ensures Valid() && activeId == old(activeId) && active == old(active)
    {
      var id := activeId;
      ghost var captured := ActivateSession(other);
      captured := ActivateSession(id);
    }

    /** What the worker does last: everything worth keeping goes to disk. While writes work, every
        session that can be stored is in a file as it was, the live one included. */
    method Shutdown()
      requires Valid()
      modifies memory, store
      ensures Valid()
      ensures store.writesWork ==> forall id :: id != activeId && (old(Lookup(id)).Some? ==> Storable(id, old(Lookup(id)).value)) ==>
        StillThere(old(Lookup(id)), Found([], store.files, id), Expires())
      ensures store.writesWork && Storable(activeId, Live()) ==> StillThere(Some(Live()), Found([], store.files, activeId), Expires())
      ensures Tidy()
    {
      hide Sound, OneHome, NewIn, Stuck, Tidy;
      ghost var captured := ParkActiveSession();
      ghost var entries, files := memory.entries, store.files;
      FlushParkedSessions();
      if store.writesWork {
        forall id | id != activeId && (old(Lookup(id)).Some? ==> Storable(id, old(Lookup(id)).value))
          ensures StillThere(old(Lookup(id)), Found([], store.files, id), Expires())
        {
          FlushedToDisk(old(Lookup(id)), entries, files, memory.entries, store.files, id, ctx.hybrid, Expires());
        }
        if Storable(activeId, Live()) {
          FlushedToDisk(Some(Live()), entries, files, memory.entries, store.files, activeId, ctx.hybrid, Expires());
        }
      }
    }

    /** One call from the worker thread. */
    method Apply(op: Op)
      requires Valid()
      modifies this, ctx, memory, store
      ensures Valid()
      ensures (store.removesWork && OneHome(old(memory.entries), old(store.files))
               && (op.Clone? && op.target != "" ==> FindIn(old(memory.entries), op.target).None?)) ==>
        OneHome(memory.entries, store.files)
      ensures NewIn(old(memory.entries), memory.entries, Names(op) + {old(activeId)})
      ensures activeId in Names(op) + {old(activeId)}
      ensures forall id :: id !in Names(op) + {old(activeId)} ==> StillThere(old(Lookup(id)), Lookup(id), Expires())
    {
      match op {
        case Generate(prompt, request) =>
          var end, response;
          ghost var live, reused;
          end, response, live, reused := GenerateTokens(prompt, [], request);
        case Converse(rendered, prompt, request) =>
          var end, response;
          ghost var live, reused, ends;
          end, response, live, reused, ends := Chat(rendered, prompt, request);
        case Release(id) => ReleaseSession(id);
        case Clone(source, target) =>
          ghost var captured := CloneSession(source, target);
        case Park =>
          ghost var captured := ParkActiveSession();
        case Flush => FlushParkedSessions();
        case Drop => Reset();
      }
    }
  }

  datatype Op =
    | Generate(prompt: seq<Token>, request: Request)
    | Converse(rendered: seq<seq<Token>>, prompt: seq<Token>, request: Request)
    | Release(id: string)
    | Clone(source: string, target: string)
    | Park
    | Flush
    | Drop

  /** The session ids a call names. */
  function Names(op: Op): set<string> {
    match op
    case Generate(_, request) => {request.sessionId}
    case Converse(_, _, request) => {request.sessionId}
    case Release(id) => {id}
    case Clone(source, target) => {source, target}
    case _ => {}
  }

  function Named(ops: seq<Op>): set<string>
    decreases |ops|
  {
    if ops == [] then {} else Named(ops[..|ops| - 1]) + Names(ops[|ops| - 1])
  }

  /** No clone goes to an id an earlier call has named. */
  predicate FreshClones(ops: seq<Op>) {
    forall k :: 0 <= k < |ops| && ops[k].Clone? ==> ops[k].target !in Named(ops[..k])
  }

  /** After any run of calls on any directory, whatever the library and the disk answered, the live
      sequence is the one the engine believes in, every parked state encodes its tokens and the RAM
      budget is kept. Sessions that no call names are found as they were stored. While removals
      work and clones go to new ids, no id is in RAM and on disk at once. */
  method AnyRun(hybrid: bool, nCtx: nat, nBatch: int, steady: bool, removesWork: bool, writesWork: bool, readsWork: bool,
                files: map<string, Snapshot>, listing: DiskGc.Listing, memoryBytes: Bytes, diskMaxAgeDays: int, diskMaxBytes: Bytes,
                maxTokens: int, ops: seq<Op>) returns (engine: Engine)
    requires Loadable(files) && Sound([], files, hybrid)
    requires files.Keys <= listing.Keys && forall id :: id in listing ==> ValidId(id)
    ensures engine.Valid()
    ensures removesWork && FreshClones(ops) ==> OneHome(engine.memory.entries, engine.store.files)
    ensures forall id :: id !in Named(ops) + {""} ==> StillThere(Found([], files, id), engine.Lookup(id), diskMaxAgeDays >= 0)
  {
    var ctx := new Context(hybrid, nCtx, nBatch, steady);
    var store := new KvStore(removesWork, writesWork, readsWork, files, listing);
    engine := new Engine(ctx, store, memoryBytes, diskMaxAgeDays, diskMaxBytes, maxTokens);
    for k := 0 to |ops|
      invariant engine.Valid() && fresh(engine.ctx) && fresh(engine.memory) && fresh(engine.store) && fresh(engine)
      invariant engine.store.removesWork == removesWork && engine.diskMaxAgeDays == diskMaxAgeDays
      invariant engine.activeId in Named(ops[..k]) + {""}
      invariant NewIn([], engine.memory.entries, Named(ops[..k]) + {""})
      invariant forall id :: id !in Named(ops[..k]) + {""} ==> StillThere(Found([], files, id), engine.Lookup(id), diskMaxAgeDays >= 0)
      invariant removesWork && FreshClones(ops) ==> OneHome(engine.memory.entries, engine.store.files)
    {
      assert ops[..k + 1][..k] == ops[..k];
      engine.Apply(ops[k]);
    }
    assert ops[..|ops|] == ops;
  }

  /** Shutting down and starting again on the same directory: while writes work, every session that
      can be stored is found as it was, the live one included. */
  method Restart(engine: Engine, ctx: Context, memoryBytes: Bytes, diskMaxAgeDays: int, diskMaxBytes: Bytes, maxTokens: int)
    returns (next: Engine)
    requires engine.Valid() && ctx.Holds([]) && ctx.hybrid == engine.ctx.hybrid
    modifies engine.memory, engine.store
    ensures fresh(next) && fresh(next.memory) && next.ctx == ctx && next.store == engine.store && next.Valid()
    ensures next.activeId == "" && next.active == [] && next.diskMaxAgeDays == diskMaxAgeDays
    ensures engine.store.writesWork ==>
      forall id :: id != engine.activeId && (old(engine.Lookup(id)).Some? ==> Storable(id, old(engine.Lookup(id)).value)) ==>
        StillThere(old(engine.Lookup(id)), next.Lookup(id), engine.Expires() || next.Expires())
    ensures engine.store.writesWork && Storable(engine.activeId, old(engine.Live())) ==>
      StillThere(Some(old(engine.Live())), next.Lookup(engine.activeId), engine.Expires() || next.Expires())
  {
    engine.Shutdown();
    ghost var files := engine.store.files;
    assert Sound([], files, ctx.hybrid);
    next := new Engine(ctx, engine.store, memoryBytes, diskMaxAgeDays, diskMaxBytes, maxTokens);
    ExpiryKeeps([], files, next.store.files, ctx.hybrid, next.Expires());
    assert forall id :: StillThere(Found([], files, id), next.Lookup(id), next.Expires());
  }

  /** A conversation goes on after a restart with the same cache, token for token, when nothing
      fails on the way. */
  method RestartAndReturn(engine: Engine, ctx: Context, memoryBytes: Bytes, diskMaxAgeDays: int, diskMaxBytes: Bytes, maxTokens: int)
    returns (next: Engine)
    requires engine.Valid() && ctx.Holds([]) && ctx.hybrid == engine.ctx.hybrid && ctx != engine.ctx
    requires ctx.steady && engine.store.writesWork && engine.store.readsWork && !engine.Expires() && diskMaxAgeDays < 0
    requires Storable(engine.activeId, engine.Live())
    modifies engine.memory, engine.store, ctx`attention, ctx`recurrent
    ensures next.Valid() && next.activeId == engine.activeId && next.active == engine.active
  {
    next := Restart(engine, ctx, memoryBytes, diskMaxAgeDays, diskMaxBytes, maxTokens);
    ghost var captured := next.ActivateSession(engine.activeId);
  }

  /** The live tokens a turn starts from: those of the session if it was live, and otherwise
      nothing or what the session was parked with. */
  ghost predicate Switched(activeId: string, active: seq<Token>, parked: Option<Kept>, id: string, live: seq<Token>) {
    if id == activeId then live == active
    else live == [] || (parked.Some? && parked.value.tokens == live)
  }
}
