/** Cleaning the cache of rendered streams. */
module StreamCache {
  type Path = string

  datatype File = File(size: nat, mtime: int)

  type Files = map<Path, File>

  function SizeOf(files: Files, p: Path): nat { if p in files then files[p].size else 0 }

  function TimeOf(files: Files, p: Path): int { if p in files then files[p].mtime else 0 }

  function Total(paths: seq<Path>, files: Files): nat {
    if paths == [] then 0 else SizeOf(files, paths[0]) + Total(paths[1..], files)
  }

  predicate OldestFirst(paths: seq<Path>, files: Files) {
    forall i, j :: 0 <= i < j < |paths| ==> TimeOf(files, paths[i]) <= TimeOf(files, paths[j])
  }

  predicate Distinct(paths: seq<Path>) { forall i, j :: 0 <= i < j < |paths| ==> paths[i] != paths[j] }

  /** The files among some paths. */
  function Only(files: Files, paths: seq<Path>): Files { map p | p in files && p in paths :: files[p] }

  // ----- Sorting by modification time -----

  /** Inserting after every entry that is as old or older keeps equal ages in their order. */
  function Insert(p: Path, sorted: seq<Path>, files: Files): (r: seq<Path>)
    ensures forall q :: q in r <==> q == p || q in sorted
  {
    if sorted == [] then [p]
    else if TimeOf(files, sorted[0]) <= TimeOf(files, p) then [sorted[0]] + Insert(p, sorted[1..], files)
    else [p] + sorted
  }

  function ByAge(paths: seq<Path>, files: Files): (r: seq<Path>)
    ensures forall p :: p in r <==> p in paths
  {
    if paths == [] then [] else Insert(paths[|paths| - 1], ByAge(paths[..|paths| - 1], files), files)
  }

  lemma {:induction false} InsertKeepsOrder(p: Path, sorted: seq<Path>, files: Files)
    requires OldestFirst(sorted, files)
    ensures OldestFirst(Insert(p, sorted, files), files)
  {
    if sorted != [] && TimeOf(files, sorted[0]) <= TimeOf(files, p) {
      InsertKeepsOrder(p, sorted[1..], files);
      var rest := Insert(p, sorted[1..], files);
      forall j | 0 <= j < |rest| ensures TimeOf(files, sorted[0]) <= TimeOf(files, rest[j]) {
        assert rest[j] in rest;
      }
    }
  }

  lemma {:induction false} InsertKeepsTotal(p: Path, sorted: seq<Path>, files: Files)
    ensures Total(Insert(p, sorted, files), files) == SizeOf(files, p) + Total(sorted, files)
  {
    if sorted != [] && TimeOf(files, sorted[0]) <= TimeOf(files, p) {
      InsertKeepsTotal(p, sorted[1..], files);
      assert Insert(p, sorted, files)[1..] == Insert(p, sorted[1..], files);
    }
  }

  lemma {:induction false} InsertKeepsDistinct(p: Path, sorted: seq<Path>, files: Files)
    requires p !in sorted && Distinct(sorted)
    ensures Distinct(Insert(p, sorted, files))
  {
    if sorted != [] && TimeOf(files, sorted[0]) <= TimeOf(files, p) {
      InsertKeepsDistinct(p, sorted[1..], files);
      var rest := Insert(p, sorted[1..], files);
      assert sorted[0] !in sorted[1..];
      assert forall j :: 0 <= j < |rest| ==> rest[j] in rest;
    }
  }

  lemma {:induction false} TotalAppend(front: seq<Path>, last: Path, files: Files)
    ensures Total(front + [last], files) == Total(front, files) + SizeOf(files, last)
  {
    if front == [] {
    } else {
      TotalAppend(front[1..], last, files);
      assert (front + [last])[1..] == front[1..] + [last];
    }
  }

  /** Sorting puts the oldest first, keeps the total and repeats nothing. */
  lemma {:induction false} ByAgeSorts(paths: seq<Path>, files: Files)
    ensures OldestFirst(ByAge(paths, files), files)
    ensures Total(ByAge(paths, files), files) == Total(paths, files)
    ensures Distinct(paths) ==> Distinct(ByAge(paths, files))
  {
    if paths == [] {
    } else {
      var front, last := paths[..|paths| - 1], paths[|paths| - 1];
      assert paths == front + [last];
      ByAgeSorts(front, files);
      InsertKeepsOrder(last, ByAge(front, files), files);
      InsertKeepsTotal(last, ByAge(front, files), files);
      TotalAppend(front, last, files);
      if Distinct(paths) {
        InsertKeepsDistinct(last, ByAge(front, files), files);
      }
    }
  }

  lemma OnlyWithoutFirst(files: Files, paths: seq<Path>, k: nat)
    requires Distinct(paths) && k < |paths|
    ensures Only(files, paths[k + 1..]) == Only(files, paths[k..]) - {paths[k]}
    ensures Total(paths[k..], files) == SizeOf(files, paths[k]) + Total(paths[k + 1..], files)
  {
  }

  lemma FirstIsThere(files: Files, paths: seq<Path>, k: nat)
    requires k < |paths| && paths[k] in files
    ensures paths[k] in Only(files, paths[k..]) && Only(files, paths[k..])[paths[k]].size == SizeOf(files, paths[k])
  {
  }

  // ----- Cleaning up -----

  /** `left` is what eviction makes of `files`: the paths by age, without their shortest prefix that makes
      the rest fit. */
  ghost predicate EvictedPrefix(files: Files, order: seq<Path>, maxBytes: int, evicted: nat, left: Files) {
    && evicted <= |order| && left == Only(files, order[evicted..])
    && (forall k :: 0 <= k < evicted ==> Total(order[k..], files) > maxBytes)
    && (evicted == |order| || Total(order[evicted..], files) <= maxBytes)
  }

  class Cache {
    var files: Files
    var lastRun: int

    constructor ()
      ensures files == map[]
    {
      files, lastRun := map[], 0;
    }

    /** Removes the files past the age limit and returns the others, in the order they were listed. */
    method DropExpired(listing: seq<Path>, cutoff: int) returns (kept: seq<Path>)
      requires Distinct(listing) && forall p :: p in listing <==> p in files
      modifies `files
      ensures files == map p | p in old(files) && old(files)[p].mtime >= cutoff :: old(files)[p]
      ensures Distinct(kept) && forall p :: p in kept <==> p in files
    {
      ghost var before := files;
      kept := [];
      for i := 0 to |listing|
        invariant forall p :: p in files <==> p in before && !(p in listing[..i] && before[p].mtime < cutoff)
        invariant forall p :: p in files ==> files[p] == before[p]
        invariant Distinct(kept) && forall p :: p in kept <==> p in listing[..i] && before[p].mtime >= cutoff
      {
        assert listing[..i + 1] == listing[..i] + [listing[i]];
        var p := listing[i];
        assert p !in listing[..i];
        if files[p].mtime < cutoff {
          files := files - {p};
        } else {
          kept := kept + [p];
        }
      }
      assert listing[..|listing|] == listing;
    }

    /** The eviction loop over the sorted paths. */
    method EvictInOrder(sorted: seq<Path>, total: int, maxBytes: int) returns (ghost evicted: nat)
      requires Distinct(sorted) && total == Total(sorted, files) > maxBytes
      requires files == Only(files, sorted) && forall p :: p in sorted ==> p in files
      modifies `files
      ensures EvictedPrefix(old(files), sorted, maxBytes, evicted, files)
    {
      hide Total, Distinct, Only, SizeOf;
      ghost var before := files;
      var left := total;
      evicted := 0;
      assert sorted[0..] == sorted;
      var k := 0;
      while k < |sorted|
        invariant 0 <= k <= |sorted| && evicted == k
        invariant files == Only(before, sorted[k..]) && left == Total(sorted[k..], before) > maxBytes
        invariant forall j :: 0 <= j < k ==> Total(sorted[j..], before) > maxBytes
      {
        OnlyWithoutFirst(before, sorted, k);
        FirstIsThere(before, sorted, k);
        left := left - files[sorted[k]].size;
        files := files - {sorted[k]};
        k := k + 1;
        evicted := k;
        if left <= maxBytes {
          break;
        }
      }
    }

    /** Evicts files, oldest first, until the rest fit. */
    method EvictOldest(kept: seq<Path>, maxBytes: int) returns (ghost evicted: nat)
      requires Distinct(kept) && forall p :: p in kept <==> p in files
      modifies `files
      ensures EvictedPrefix(old(files), ByAge(kept, old(files)), maxBytes, evicted, files)
    {
      var total: int := Total(kept, files);
      ByAgeSorts(kept, files);
      hide ByAge, Total, Distinct, OldestFirst;
      ghost var order := ByAge(kept, files);
      assert order[0..] == order && files == Only(files, order);
      evicted := 0;
      if total <= maxBytes {
        return;
      }
      evicted := EvictInOrder(ByAge(kept, files), total, maxBytes);
    }

    /** A cleanup, at most once an interval unless forced. What is left is the youngest part of the files
        within the age limit; it fits the byte limit, and would not with one more file. */
    method Cleanup(force: bool, now: int, interval: int, maxAge: int, maxBytes: int, listing: seq<Path>)
      returns (ran: bool, ghost order: seq<Path>, ghost evicted: nat)
      requires Distinct(listing) && forall p :: p in listing <==> p in files
      modifies this
      ensures ran <==> force || now - old(lastRun) >= interval
      ensures !ran ==> files == old(files) && lastRun == old(lastRun)
      ensures ran ==> lastRun == now
      ensures ran ==> forall p :: p in order <==> p in old(files) && old(files)[p].mtime >= now - maxAge
      ensures ran ==> Distinct(order) && OldestFirst(order, old(files))
      ensures ran ==> EvictedPrefix(old(files), order, maxBytes, evicted, files)
      ensures ran && maxBytes >= 0 ==> Total(order[evicted..], files) <= maxBytes
    {
      order, evicted := [], 0;
      if !force && now - lastRun < interval {
        return false, order, evicted;
      }
      lastRun := now;
      ghost var before := files;
      var kept := DropExpired(listing, now - maxAge);
      ghost var young := files;
      evicted := EvictOldest(kept, maxBytes);
      order := ByAge(kept, young);
      ByAgeSorts(kept, young);
      Widen(young, before, order, maxBytes, evicted, files);
      return true, order, evicted;
    }
  }

  lemma {:induction false} SameTotal(paths: seq<Path>, a: Files, b: Files)
    requires forall p :: p in paths ==> p in a && p in b && a[p] == b[p]
    ensures Total(paths, a) == Total(paths, b)
  {
    if paths == [] {
    } else {
      SameTotal(paths[1..], a, b);
    }
  }

  /** The expired files make no difference to what is said about the others. */
  lemma Widen(young: Files, all: Files, order: seq<Path>, maxBytes: int, evicted: nat, left: Files)
    requires forall p :: p in order ==> p in young && p in all && young[p] == all[p]
    requires OldestFirst(order, young) && EvictedPrefix(young, order, maxBytes, evicted, left)
    ensures OldestFirst(order, all) && EvictedPrefix(all, order, maxBytes, evicted, left)
    ensures maxBytes >= 0 ==> Total(order[evicted..], left) <= maxBytes
  {
    forall k | 0 <= k <= |order| ensures Total(order[k..], young) == Total(order[k..], all) {
      SameTotal(order[k..], young, all);
    }
    assert Only(young, order[evicted..]) == Only(all, order[evicted..]);
    SameTotal(order[evicted..], left, young);
    if evicted == |order| {
      assert order[evicted..] == [];
    }
  }
}
