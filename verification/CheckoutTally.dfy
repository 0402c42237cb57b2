/** What a checkout reports, counted over the regions it visits. */
module CheckoutTally {
  import opened Base
  import opened Scopes
  import opened Ingest
  import opened RebuildFile

  datatype CheckoutReport = CheckoutReport(filesWritten: nat, filesDeleted: nat, chunksRestored: nat)

  function FileIn(world: World, key: RegionKey): Option<seq<byte>> {
    if key in world then Some(world[key]) else None
  }

  /** Of these regions, those with chunks present at the commit. */
  ghost function Written(keys: set<RegionKey>, present: Chunks): set<RegionKey> {
    set k | k in keys && Touched(k, present.Keys)
  }

  /** Of these regions, those that had a file and have none now. */
  ghost function Deleted(keys: set<RegionKey>, before: World, after: World): set<RegionKey> {
    set k | k in keys && k in before && k !in after
  }

  /** What processing these regions amounts to: files written, files gone, chunks restored. */
  ghost function Tallied(keys: set<RegionKey>, before: World, after: World, present: Chunks,
                         blobs: BlobMap): CheckoutReport
  {
    CheckoutReport(|Written(keys, present)|, |Deleted(keys, before, after)|, |Available(present, keys, blobs)|)
  }

  function Plus(a: CheckoutReport, b: CheckoutReport): CheckoutReport {
    CheckoutReport(a.filesWritten + b.filesWritten, a.filesDeleted + b.filesDeleted,
                   a.chunksRestored + b.chunksRestored)
  }

  lemma NothingTallied(keys: set<RegionKey>, world: World, present: Chunks, blobs: BlobMap)
    requires keys == {}
    ensures Tallied(keys, world, world, present, blobs) == CheckoutReport(0, 0, 0)
  {
    assert Available(present, keys, blobs) == {} && Written(keys, present) == {} && Deleted(keys, world, world) == {};
  }

  /** The report of one file. */
  lemma OneIsTallied(key: RegionKey, before: World, after: World, present: Chunks, blobs: BlobMap)
    ensures Tallied({key}, before, after, present, blobs) == CheckoutReport(
      if Touched(key, present.Keys) then 1 else 0,
      if key in before && key !in after then 1 else 0,
      if Touched(key, present.Keys) then |Available(present, {key}, blobs)| else 0)
  {
    assert Written({key}, present) == if Touched(key, present.Keys) then {key} else {};
    assert Deleted({key}, before, after) == if key in before && key !in after then {key} else {};
    if !Touched(key, present.Keys) {
      forall c | c in present ensures RegionOf(c) != key {
        assert c in present.Keys;
      }
      assert Available(present, {key}, blobs) == {};
    }
  }

  lemma SplitSize<T>(all: set<T>, a: set<T>, b: set<T>)
    requires all == a + b && a !! b
    ensures |all| == |a| + |b|
  {
  }

  lemma WrittenSplits(past: set<RegionKey>, key: RegionKey, present: Chunks)
    requires key !in past
    ensures |Written(past + {key}, present)| == |Written(past, present)| + |Written({key}, present)|
  {
    SplitSize(Written(past + {key}, present), Written(past, present), Written({key}, present));
  }

  lemma AvailableSplits(past: set<RegionKey>, key: RegionKey, present: Chunks, blobs: BlobMap)
    requires key !in past
    ensures |Available(present, past + {key}, blobs)|
      == |Available(present, past, blobs)| + |Available(present, {key}, blobs)|
  {
    SplitSize(Available(present, past + {key}, blobs), Available(present, past, blobs),
              Available(present, {key}, blobs));
  }

  lemma DeletedSplits(past: set<RegionKey>, key: RegionKey, before: World, mid: World, after: World)
    requires key !in past && FileIn(mid, key) == FileIn(before, key)
    requires forall k | k != key :: FileIn(after, k) == FileIn(mid, k)
    ensures |Deleted(past + {key}, before, after)| == |Deleted(past, before, mid)| + |Deleted({key}, mid, after)|
  {
    forall k | k in past ensures k in after <==> k in mid {
      assert FileIn(after, k) == FileIn(mid, k);
    }
    SplitSize(Deleted(past + {key}, before, after), Deleted(past, before, mid), Deleted({key}, mid, after));
  }

  /** Tallies of separate regions add up. */
  lemma TalliesAdd(past: set<RegionKey>, key: RegionKey, before: World, mid: World, after: World, present: Chunks,
                   blobs: BlobMap)
    requires key !in past && FileIn(mid, key) == FileIn(before, key)
    requires forall k | k != key :: FileIn(after, k) == FileIn(mid, k)
    ensures Tallied(past + {key}, before, after, present, blobs)
      == Plus(Tallied(past, before, mid, present, blobs), Tallied({key}, mid, after, present, blobs))
  {
    WrittenSplits(past, key, present);
    DeletedSplits(past, key, before, mid, after);
    AvailableSplits(past, key, present, blobs);
  }

  /**
   The regions in scope with present chunks, the files in scope that are gone, the present chunks
   in scope that are stored.
   */
  ghost function Summary(scope: Scope, before: World, after: World, present: Chunks, blobs: BlobMap): CheckoutReport {
    CheckoutReport(
      |set c | c in present && scope.MatchesRegion(RegionOf(c)) :: RegionOf(c)|,
      |set k | k in before && k !in after && scope.MatchesRegion(k)|,
      |set c | c in present && scope.MatchesRegion(RegionOf(c)) && present[c] in blobs|)
  }

  /** Regions without a file or present chunks add nothing. */
  lemma TalliedIsSummary(keys: set<RegionKey>, scope: Scope, before: World, after: World, present: Chunks,
                         blobs: BlobMap)
    requires forall k | k in keys :: scope.MatchesRegion(k)
    requires forall k | scope.MatchesRegion(k) && (k in before || Touched(k, present.Keys)) :: k in keys
    ensures Tallied(keys, before, after, present, blobs) == Summary(scope, before, after, present, blobs)
  {
    forall c | c in present && scope.MatchesRegion(RegionOf(c)) ensures RegionOf(c) in keys {
      assert c in present.Keys && Touched(RegionOf(c), present.Keys);
    }
    assert Written(keys, present) == set c | c in present && scope.MatchesRegion(RegionOf(c)) :: RegionOf(c) by {
      forall k | k in keys && Touched(k, present.Keys)
        ensures exists c :: c in present && scope.MatchesRegion(RegionOf(c)) && RegionOf(c) == k
      {
        var c :| c in present.Keys && RegionOf(c) == k;
      }
    }
    assert Deleted(keys, before, after) == set k | k in before && k !in after && scope.MatchesRegion(k);
    assert Available(present, keys, blobs)
      == set c | c in present && scope.MatchesRegion(RegionOf(c)) && present[c] in blobs;
  }
}
