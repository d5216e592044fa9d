/** Which parked files are old enough to go when the directory outgrows its limit
    (`plan_session_disk_gc` in `src/server/llm/session_park.cpp`). Times count the ticks of the file
    clock and are unbounded. */
module DiskGc {
  import opened Ordering
  import opened SessionPark

  datatype Stat = Stat(id: string, bytes: Bytes, mtime: int)

  const TICKS_PER_DAY: nat := 24 * 3600 * 1_000_000_000

  function Size(files: seq<Stat>): nat {
    if files == [] then 0 else files[0].bytes + Size(files[1..])
  }

  /** A sum as 64 bits hold it. */
  function Saturated(n: nat): Bytes {
    if n <= U64_MAX then n else U64_MAX
  }

  predicate Expired(file: Stat, maxAgeDays: nat, now: int) {
    file.mtime < now && now - file.mtime > TICKS_PER_DAY * maxAgeDays
  }

  /** What the directory shows of a file. */
  datatype FileStat = FileStat(bytes: Bytes, mtime: int)

  type Listing = map<string, FileStat>

  function StatOf(id: string, file: FileStat): Stat {
    Stat(id, file.bytes, file.mtime)
  }

  /** The bytes of all files. */
  ghost function Used(listing: Listing): nat {
    if listing == map[] then 0
    else
      var id :| id in listing;
      listing[id].bytes + Used(listing - {id})
  }

  /** The order of adding up does not matter. */
  lemma {:induction false} UsedPick(listing: Listing, id: string)
    requires id in listing
    ensures Used(listing) == listing[id].bytes + Used(listing - {id})
    decreases |listing|
  {
    var first :| first in listing && Used(listing) == listing[first].bytes + Used(listing - {first});
    if first != id {
      assert |listing - {first}| == |listing| - 1 && |listing - {id}| == |listing| - 1;
      UsedPick(listing - {first}, id);
      UsedPick(listing - {id}, first);
      assert listing - {first} - {id} == listing - {id} - {first};
    }
  }

  /** The files fit, or none of them is old enough to go. */
  ghost predicate Tidy(listing: Listing, maxAgeDays: nat, maxBytes: nat, now: int) {
    Used(listing) <= maxBytes || forall id :: id in listing ==> !Expired(StatOf(id, listing[id]), maxAgeDays, now)
  }

  // ---------------------------------------------------------------------------------------
  // Oldest first
  // ---------------------------------------------------------------------------------------

  predicate LexLess(a: string, b: string) {
    b != "" && (a == "" || a[0] < b[0] || (a[0] == b[0] && LexLess(a[1..], b[1..])))
  }

  lemma {:induction false} LexOrder(a: string, b: string)
    ensures a == b || LexLess(a, b) || LexLess(b, a)
    ensures !(LexLess(a, b) && LexLess(b, a)) && !LexLess(a, a)
    decreases |a|
  {
    if a != "" {
      LexOrder(a[1..], if b == "" then "" else b[1..]);
      assert a == [a[0]] + a[1..] && (b != "" ==> b == [b[0]] + b[1..]);
    }
  }

  lemma {:induction false} LexTransitive(a: string, b: string, c: string)
    requires LexLess(a, b) && LexLess(b, c)
    ensures LexLess(a, c)
    decreases |a|
  {
    if a != "" && a[0] == b[0] == c[0] {
      LexTransitive(a[1..], b[1..], c[1..]);
    }
  }

  /** Older, or as old with the smaller id. */
  predicate Before(a: Stat, b: Stat) {
    a.mtime < b.mtime || (a.mtime == b.mtime && LexLess(a.id, b.id))
  }

  predicate DistinctFiles(files: seq<Stat>) {
    forall j, k :: 0 <= j < k < |files| ==> files[j].id != files[k].id
  }

  lemma BeforeIsStrict()
    ensures Strict(Before)
  {
    forall a, b | Before(a, b) ensures !Before(b, a) {
      LexOrder(a.id, b.id);
    }
    forall a, b, c | Before(a, b) && Before(b, c) ensures Before(a, c) {
      if a.mtime == b.mtime == c.mtime {
        LexTransitive(a.id, b.id, c.id);
      }
    }
  }

  lemma SortFiles(files: seq<Stat>)
    requires DistinctFiles(files)
    ensures Ascending(Before, Sorted(Before, files)) && Same(Sorted(Before, files), files)
  {
    BeforeIsStrict();
    forall j, k | 0 <= j < k < |files| ensures Before(files[j], files[k]) || Before(files[k], files[j]) {
      LexOrder(files[j].id, files[k].id);
    }
    SortSorts(Before, files);
  }

  // ---------------------------------------------------------------------------------------
  // The plan
  // ---------------------------------------------------------------------------------------

  /** `aged` lists the expired files, oldest first. */
  ghost predicate Lists(aged: seq<Stat>, files: seq<Stat>, maxAgeDays: nat, now: int) {
    Ascending(Before, aged) && forall f :: f in aged <==> f in files && Expired(f, maxAgeDays, now)
  }

  /** The bytes counted as left when the first `n` of `aged` are gone. */
  function Left(aged: seq<Stat>, n: nat, total: nat): int
    requires n <= |aged|
  {
    total - Size(aged[..n])
  }

  /** The first `n` aged files go: as few as will do, or all of them. */
  ghost predicate Enough(aged: seq<Stat>, n: nat, total: nat, maxBytes: nat) {
    && n <= |aged|
    && (Left(aged, n, total) <= maxBytes || n == |aged|)
    && forall m :: 0 <= m < n ==> Left(aged, m, total) > maxBytes
  }

  function FileIds(files: seq<Stat>): (ids: seq<string>)
    ensures |ids| == |files|
  {
    seq(|files|, k requires 0 <= k < |files| => files[k].id)
  }

  method TotalSize(files: seq<Stat>) returns (total: Bytes)
    ensures total == Saturated(Size(files))
  {
    total := 0;
    for k := 0 to |files|
      invariant total + Size(files[k..]) == Size(files)
    {
      assert files[k..][0] == files[k] && files[k..][1..] == files[k + 1..];
      if total > U64_MAX - files[k].bytes {
        return U64_MAX;
      }
      total := total + files[k].bytes;
    }
  }

  method ExpiredFiles(files: seq<Stat>, maxAgeDays: nat, now: int) returns (aged: seq<Stat>)
    requires DistinctFiles(files)
    ensures DistinctFiles(aged) && forall f :: f in aged <==> f in files && Expired(f, maxAgeDays, now)
  {
    aged := [];
    for k := 0 to |files|
      invariant DistinctFiles(aged) && forall f :: f in aged <==> f in files[..k] && Expired(f, maxAgeDays, now)
    {
      assert files[..k + 1] == files[..k] + [files[k]];
      forall j | 0 <= j < |aged| ensures aged[j].id != files[k].id {
        assert aged[j] in aged;
        var i :| 0 <= i < k && files[..k][i] == aged[j];
        assert files[i] == aged[j];
      }
      if files[k].mtime < now && now - files[k].mtime > TICKS_PER_DAY * maxAgeDays {
        aged := aged + [files[k]];
      }
    }
    assert files[..|files|] == files;
  }

  lemma {:induction false} SizeNext(aged: seq<Stat>, k: nat)
    requires k < |aged|
    ensures Size(aged[..k + 1]) == Size(aged[..k]) + aged[k].bytes
    decreases k
  {
    if k == 0 {
      assert aged[..1] == [aged[0]] && [aged[0]][1..] == [];
    } else {
      SizeNext(aged[1..], k - 1);
      assert aged[..k + 1][1..] == aged[1..][..k] && aged[..k][1..] == aged[1..][..k - 1];
    }
  }

  lemma SizeAppend(files: seq<Stat>, file: Stat)
    ensures Size(files + [file]) == Size(files) + file.bytes
  {
    var all := files + [file];
    assert all[..|files|] == files && all[..|files| + 1] == all;
    SizeNext(all, |files|);
  }

  /** Nothing goes while the files fit or expiry is off. Otherwise expired files go, oldest first, and
      no more than it takes; newer files stay even when the directory remains too large. */
  method PlanSessionDiskGc(files: seq<Stat>, maxAgeDays: int, maxBytes: Bytes, now: int)
    returns (drop: seq<string>, ghost aged: seq<Stat>)
    requires DistinctFiles(files)
    ensures maxAgeDays < 0 || Saturated(Size(files)) <= maxBytes ==> drop == []
    ensures maxAgeDays >= 0 && Saturated(Size(files)) > maxBytes ==>
      Lists(aged, files, maxAgeDays, now) && Enough(aged, |drop|, Saturated(Size(files)), maxBytes)
      && drop == FileIds(aged[..|drop|])
    ensures forall id :: id in drop ==> maxAgeDays >= 0 && exists f :: f in files && f.id == id && Expired(f, maxAgeDays, now)
  {
    drop, aged := [], [];
    if maxAgeDays < 0 {
      return;
    }
    var total := TotalSize(files);
    if total <= maxBytes {
      return;
    }
    var expired := ExpiredFiles(files, maxAgeDays, now);
    var order := Sorted(Before, expired);
    SortFiles(expired);
    aged := order;
    var whole := total;
    var index := 0;
    while index < |order| && total > maxBytes
      invariant index == |drop| <= |order| && drop == FileIds(order[..index])
      invariant total == if Left(order, index, whole) < 0 then 0 else Left(order, index, whole)
      invariant forall m :: 0 <= m < index ==> Left(order, m, whole) > maxBytes
    {
      var file := order[index];
      SizeNext(order, index);
      assert order[..index + 1] == order[..index] + [file];
      drop := drop + [file.id];
      total := if total >= file.bytes then total - file.bytes else 0;
      index := index + 1;
    }
    DropsExpired(order, |drop|, files, maxAgeDays, now);
  }

  lemma DropsExpired(aged: seq<Stat>, n: nat, files: seq<Stat>, maxAgeDays: nat, now: int)
    requires n <= |aged| && forall f :: f in aged ==> f in files && Expired(f, maxAgeDays, now)
    ensures forall id :: id in FileIds(aged[..n]) ==> exists f :: f in files && f.id == id && Expired(f, maxAgeDays, now)
  {
    forall id | id in FileIds(aged[..n]) ensures exists f :: f in files && f.id == id && Expired(f, maxAgeDays, now) {
      var k :| 0 <= k < n && FileIds(aged[..n])[k] == id;
      assert aged[k] in aged;
    }
  }

  lemma {:induction false} LeftFalls(aged: seq<Stat>, n: nat, m: nat, total: nat)
    requires m <= n <= |aged|
    ensures Left(aged, n, total) <= Left(aged, m, total)
    decreases n
  {
    if m < n {
      SizeNext(aged, n - 1);
      LeftFalls(aged, n - 1, m, total);
    }
  }

  /** The plan does not depend on the order the directory lists its files in. */
  lemma PlanIsDetermined(a: seq<Stat>, b: seq<Stat>, files: seq<Stat>, others: seq<Stat>, n: nat, m: nat,
                         maxAgeDays: nat, now: int, total: nat, maxBytes: nat)
    requires (forall f :: f in files <==> f in others) && Lists(a, files, maxAgeDays, now) && Lists(b, others, maxAgeDays, now)
    requires Enough(a, n, total, maxBytes) && Enough(b, m, total, maxBytes)
    ensures FileIds(a[..n]) == FileIds(b[..m])
  {
    BeforeIsStrict();
    OneOrder(Before, a, b);
  }

  // ---------------------------------------------------------------------------------------
  // What is left
  // ---------------------------------------------------------------------------------------

  /** `left` is `listing` without the first `n` of `aged`. */
  ghost predicate Without(listing: Listing, left: Listing, aged: seq<Stat>, n: nat)
    requires n <= |aged|
  {
    && (forall id :: id in left ==> id in listing && left[id] == listing[id])
    && (forall id :: id in listing && id !in left ==> exists k :: 0 <= k < n && aged[k].id == id)
    && forall k :: 0 <= k < n ==> aged[k].id !in left
  }

  ghost predicate Known(aged: seq<Stat>, listing: Listing) {
    forall k :: 0 <= k < |aged| ==> aged[k].id in listing && aged[k] == StatOf(aged[k].id, listing[aged[k].id])
  }

  lemma NoneGone(listing: Listing, left: Listing, aged: seq<Stat>)
    requires Without(listing, left, aged, 0)
    ensures left == listing
  {
  }

  /** One file back. */
  lemma OneBack(listing: Listing, left: Listing, aged: seq<Stat>, n: nat, more: Listing)
    requires 0 < n <= |aged| && DistinctFiles(aged) && Known(aged, listing) && Without(listing, left, aged, n)
    requires more == left[aged[n - 1].id := listing[aged[n - 1].id]]
    ensures Without(listing, more, aged, n - 1) && more - {aged[n - 1].id} == left && aged[n - 1].id in more
    ensures more[aged[n - 1].id].bytes == aged[n - 1].bytes
  {
  }

  lemma {:induction false} UsedWithout(listing: Listing, left: Listing, aged: seq<Stat>, n: nat)
    requires n <= |aged| && DistinctFiles(aged) && Known(aged, listing) && Without(listing, left, aged, n)
    ensures Used(left) + Size(aged[..n]) == Used(listing)
    decreases n
  {
    hide Without, DistinctFiles, Used;
    if n == 0 {
      NoneGone(listing, left, aged);
      assert aged[..0] == [];
    } else {
      var last := aged[n - 1];
      var more := left[last.id := listing[last.id]];
      OneBack(listing, left, aged, n, more);
      UsedWithout(listing, more, aged, n - 1);
      UsedPick(more, last.id);
      SizeNext(aged, n - 1);
    }
  }

  /** The expired files of a scan are files of the directory, each once. */
  lemma AgedShown(seen: seq<Stat>, aged: seq<Stat>, listing: Listing, maxAgeDays: nat, now: int)
    requires Lists(aged, seen, maxAgeDays, now)
    requires forall f :: f in seen ==> f.id in listing && f == StatOf(f.id, listing[f.id])
    ensures DistinctFiles(aged) && Known(aged, listing)
  {
    BeforeIsStrict();
    forall k | 0 <= k < |aged| ensures aged[k].id in listing && aged[k] == StatOf(aged[k].id, listing[aged[k].id]) {
      assert aged[k] in aged;
    }
    forall j, k | 0 <= j < k < |aged| ensures aged[j].id != aged[k].id {
      assert Before(aged[j], aged[k]);
    }
  }

  /** When every file was seen and every planned removal worked, the directory is tidy. */
  lemma TidyAfter(listing: Listing, left: Listing, aged: seq<Stat>, n: nat, maxAgeDays: nat, maxBytes: nat, now: int)
    requires n <= |aged| && DistinctFiles(aged) && Known(aged, listing) && Without(listing, left, aged, n)
    requires Enough(aged, n, Used(listing), maxBytes)
    requires forall id :: id in listing && Expired(StatOf(id, listing[id]), maxAgeDays, now) ==> StatOf(id, listing[id]) in aged
    ensures Tidy(left, maxAgeDays, maxBytes, now)
  {
    UsedWithout(listing, left, aged, n);
    if Used(left) > maxBytes {
      forall id | id in left ensures !Expired(StatOf(id, left[id]), maxAgeDays, now) {
      }
    }
  }

  // ---------------------------------------------------------------------------------------
  // The order and the age, written out
  // ---------------------------------------------------------------------------------------

  /** `a` is a front of `b`, or smaller at the first place where they differ. */
  ghost predicate Smaller(a: string, b: string) {
    exists k :: 0 <= k <= |a| && k < |b| && a[..k] == b[..k] && (k == |a| || a[k] < b[k])
  }

  lemma {:induction false} LexLessIs(a: string, b: string)
    ensures LexLess(a, b) <==> Smaller(a, b)
    decreases |a|
  {
    if a == "" || b == "" || a[0] != b[0] {
      assert b != "" ==> a[..0] == b[..0];
    } else {
      LexLessIs(a[1..], b[1..]);
      if k :| 0 <= k <= |a[1..]| && k < |b[1..]| && a[1..][..k] == b[1..][..k] && (k == |a[1..]| || a[1..][k] < b[1..][k]) {
        assert a[..k + 1] == [a[0]] + a[1..][..k] && b[..k + 1] == [b[0]] + b[1..][..k];
      }
      if k :| 0 <= k <= |a| && k < |b| && a[..k] == b[..k] && (k == |a| || a[k] < b[k]) {
        assert k > 0 && a[1..][..k - 1] == a[..k][1..] && b[1..][..k - 1] == b[..k][1..];
      }
    }
  }

  /** A file goes when it is older than so many days of 24 hours, in nanoseconds; the oldest first, and
      of two equally old ones the one with the smaller name. */
  lemma AgeIs(a: Stat, b: Stat, maxAgeDays: nat, now: int)
    ensures Expired(a, maxAgeDays, now) <==> now - a.mtime > 0 && now - a.mtime > maxAgeDays * 86_400_000_000_000
    ensures Before(a, b) <==> a.mtime < b.mtime || (a.mtime == b.mtime && Smaller(a.id, b.id))
  {
    LexLessIs(a.id, b.id);
  }
}
