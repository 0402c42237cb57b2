/** Committing and checking out undo each other. */
module RoundTrip {
  import opened Base
  import opened History
  import opened Retire
  import opened Scopes
  import opened RegionLayout
  import opened RegionReader
  import opened Deltas
  import opened MemStore
  import opened CommitPlan
  import opened Cas
  import opened Gc
  import opened Ingest
  import opened IngestRun
  import opened WorldCommit
  import opened RebuildFile
  import opened CheckoutTally
  import opened CheckoutRun
  import Port

  /**
   After a strict checkout of the whole world a chunk is there exactly when the commit has it, with
   the stored bytes.
   */
  lemma StrictCheckoutShows(before: World, after: World, present: Chunks, dead: set<Coord>, blobs: BlobMap, c: Coord)
    requires CheckedOut(before, after, Scope.World, present, dead, STRICT, blobs)
    ensures c in present ==> present[c] in blobs
    ensures PayloadAt(after, c) == if c in present then Some(blobs[present[c]]) else None
  {
    var key := RegionOf(c);
    assert FileAfter(key, FileIn(before, key), FileIn(after, key), present, dead, STRICT, blobs);
    if c in present {
      assert c in present.Keys;
      assert Touched(key, present.Keys);
    }
  }

  /** Every file it leaves was built from the commit. */
  lemma StrictFilesAreRebuilt(before: World, after: World, present: Chunks, dead: set<Coord>, blobs: BlobMap,
                              key: RegionKey)
    requires CheckedOut(before, after, Scope.World, present, dead, STRICT, blobs) && key in after
    ensures Touched(key, present.Keys) && Intact(key, after[key])
  {
    assert FileAfter(key, FileIn(before, key), FileIn(after, key), present, dead, STRICT, blobs);
  }

  lemma {:induction false} ReadableStages(at: SlotReader, key: RegionKey, chosen: Selector, digest: Digester, k: nat)
    requires k <= TABLE_ENTRIES && forall s: nat | k <= s < TABLE_ENTRIES :: at(s).Ok?
    requires forall s: nat | k <= s < TABLE_ENTRIES && at(s).value.Some? ::
      digest(key.kind, at(s).value.value.payload).Some?
    ensures StageItems(WalkSlots(at, k), key, chosen, digest).Ok?
    decreases TABLE_ENTRIES - k
  {
    if k < TABLE_ENTRIES {
      ReadableStages(at, key, chosen, digest, k + 1);
      if at(k).value.Some? {
        assert WalkSlots(at, k)[1..] == WalkSlots(at, k + 1);
      }
    }
  }

  /** The checked-out world can be scanned again: nothing in it is corrupt or without a digest. */
  lemma RescanSucceeds(before: World, after: World, present: Chunks, dead: set<Coord>, blobs: BlobMap, digest: Digester,
                       scope: Scope, key: RegionKey)
    requires CheckedOut(before, after, Scope.World, present, dead, STRICT, blobs) && Restorable(blobs, digest, present)
    requires key in after
    ensures Stages(key, after[key], scope, digest)
  {
    StrictFilesAreRebuilt(before, after, present, dead, blobs, key);
    var image := Open(key, after[key]).value;
    if image.bytes != [] {
      var at := Slots(image);
      forall s: nat | s < TABLE_ENTRIES && at(s).value.Some? ensures digest(key.kind, at(s).value.value.payload).Some? {
        SlotHasDigest(before, after, present, dead, blobs, digest, key, s);
      }
      ReadableStages(at, key, Inside(scope), digest, 0);
    }
  }

  lemma SlotHasDigest(before: World, after: World, present: Chunks, dead: set<Coord>, blobs: BlobMap, digest: Digester,
                      key: RegionKey, s: nat)
    requires CheckedOut(before, after, Scope.World, present, dead, STRICT, blobs) && Restorable(blobs, digest, present)
    requires key in after && Open(key, after[key]).Ok? && s < TABLE_ENTRIES
    requires var at := Slots(Open(key, after[key]).value); at(s).Ok? && at(s).value.Some?
    ensures digest(key.kind, Slots(Open(key, after[key]).value)(s).value.value.payload).Some?
  {
    var image := Open(key, after[key]).value;
    ReadIsStageable(image, s);
    var chunk := Slots(image)(s).value.value;
    var c := CoordOf(key, chunk);
    SlotsAreCoordinates(image.loc, c.x, c.z);
    LookupIsWalk(image, c.x, c.z);
    assert RegionOf(c) == key && PayloadAt(after, c) == Some(chunk.payload);
    StrictCheckoutShows(before, after, present, dead, blobs, c);
    assert Holds(blobs, digest, c.kind, present[c]);
  }

  /** Scanning it gives back exactly what the commit shows. */
  lemma RescanIsCommit(before: World, after: World, present: Chunks, dead: set<Coord>, blobs: BlobMap, digest: Digester,
                       scan: Chunks)
    requires CheckedOut(before, after, Scope.World, present, dead, STRICT, blobs) && Restorable(blobs, digest, present)
    requires IsScan(after, after.Keys, Scope.World, digest, scan)
    ensures scan == present
  {
    forall c ensures c in scan <==> c in present {
      StrictCheckoutShows(before, after, present, dead, blobs, c);
    }
    forall c | c in scan ensures scan[c] == present[c] {
      StrictCheckoutShows(before, after, present, dead, blobs, c);
      assert Holds(blobs, digest, c.kind, present[c]);
    }
  }

  /** Every blob of an effective state can be restored when every row's blob can. */
  lemma StateIsRestorable(s: Store, blobs: BlobMap, digest: Digester, commit: CommitId)
    requires Valid(s) && Backed(s, blobs, digest)
    ensures Restorable(blobs, digest, PresentAt(s, commit)) && AllSupplied(PresentAt(s, commit), blobs)
  {
    forall p | p in PresentAt(s, commit) ensures Holds(blobs, digest, p.kind, PresentAt(s, commit)[p]) {}
  }

  /** Folding moves rows without changing what they name. */
  lemma RetiringKeepsBacked(s: Store, from: CommitId, into: CommitId, blobs: BlobMap, digest: Digester)
    requires Valid(s) && Retirable(s, from, into) && Backed(s, blobs, digest)
    ensures Backed(Retired(s, from, into), blobs, digest)
  {
    forall v | v in Retired(s, from, into).rows && v.blob.Some?
      ensures Holds(blobs, digest, v.coord.kind, v.blob.value)
    {
      var r := RowCameFrom(s, from, into, v);
    }
  }

  /** Collecting any plan, however old, takes nothing a checkout needs. */
  lemma CollectingKeepsBacked(s: Store, blobs: BlobMap, digest: Digester, planned: seq<ChunkHash>)
    requires Backed(s, blobs, digest)
    ensures Backed(s, blobs - Doomed(planned, blobs, Referenced(s)), digest)
  {
    forall r | r in s.rows && r.blob.Some?
      ensures Holds(blobs - Doomed(planned, blobs, Referenced(s)), digest, r.coord.kind, r.blob.value)
    {
      assert r.blob.value in Referenced(s);
    }
  }

  /**
   The round trip: whatever world the commit was checked out over, scanning the result
   finds the commit's state, and committing it again on that commit stages no row and
   reports no region gone.
   */
  lemma CheckoutThenCommitIsIdle(s: Store, commit: CommitId, blobs: BlobMap, digest: Digester, before: World,
                                 after: World, scan: Chunks, ingested: Ingested, entries: seq<Entry>)
    requires Valid(s) && Backed(s, blobs, digest)
    requires CheckedOut(before, after, Scope.World, PresentAt(s, commit), DeadIn(StateAt(s, commit)), STRICT, blobs)
    requires IsScan(after, after.Keys, Scope.World, digest, scan) && IsIngested(ingested, scan)
    requires var kept := Changed(ingested.entries, PresentAt(s, commit));
      kept <= entries && Buries(entries[|kept|..], Gone(PresentAt(s, commit), ingested.present, Scope.World))
    ensures scan == PresentAt(s, commit) && entries == []
    ensures forall c | c in PresentAt(s, commit) :: RegionOf(c) in after
    ensures forall key, scope | key in after :: Stages(key, after[key], scope, digest)
  {
    var present, dead := PresentAt(s, commit), DeadIn(StateAt(s, commit));
    StateIsRestorable(s, blobs, digest, commit);
    RescanIsCommit(before, after, present, dead, blobs, digest, scan);
    AssembledIsDelta(ingested, scan, present, Scope.World, entries);
    NothingChanged(present, scan, Scope.World);
    NoDeltaNoRows(entries);
    forall c | c in present ensures RegionOf(c) in after {
      StrictCheckoutShows(before, after, present, dead, blobs, c);
    }
    forall key, scope | key in after ensures Stages(key, after[key], scope, digest) {
      RescanSucceeds(before, after, present, dead, blobs, digest, scope, key);
    }
  }

  /** Commit a whole world, check it out over any other: scanning gives back the first world's chunks. */
  lemma CommittedWorldComesBack(s: Store, t: Store, id: CommitId, blobs: BlobMap, digest: Digester, before: World,
                                after: World, first: Chunks, scan: Chunks)
    requires Valid(s) && Valid(t) && Committed(s, t, id, first, Scope.World) && Backed(t, blobs, digest)
    requires CheckedOut(before, after, Scope.World, PresentAt(t, id), DeadIn(StateAt(t, id)), STRICT, blobs)
    requires IsScan(after, after.Keys, Scope.World, digest, scan)
    ensures scan == first
  {
    StateIsRestorable(t, blobs, digest, id);
    RescanIsCommit(before, after, PresentAt(t, id), DeadIn(StateAt(t, id)), blobs, digest, scan);
    WholeScanForgetsBase(Present(BaseState(s, BaseOf(s))), first);
  }

  lemma WholeScanForgetsBase(base: Chunks, scan: Chunks)
    ensures Updated(base, scan, Scope.World) == scan
  {
  }

  /** After a strict checkout of a commit of this store every file of the directory can be staged. */
  lemma CheckedOutStages(s: Store, commit: CommitId, blobs: BlobMap, digest: Digester, before: World, after: World)
    requires Valid(s) && Backed(s, blobs, digest)
    requires CheckedOut(before, after, Scope.World, PresentAt(s, commit), DeadIn(StateAt(s, commit)), STRICT, blobs)
    ensures forall k | k in after :: Stages(k, after[k], Scope.World, digest)
  {
    StateIsRestorable(s, blobs, digest, commit);
    forall k | k in after ensures Stages(k, after[k], Scope.World, digest) {
      RescanSucceeds(before, after, PresentAt(s, commit), DeadIn(StateAt(s, commit)), blobs, digest, Scope.World, k);
    }
  }

  /**
   Commit any world, check the commit out over any directory, scan that directory and
   assemble the next commit. It succeeds whenever the world can be committed; the scan is the
   first one, and nothing is left to record.
   */
  method CommitAndComeBack(world: World, listing: seq<RegionKey>, meta: MemMeta, cas: MemCas, digest: Digester,
                           createdAtMs: u64, dir: WorldDir)
    returns (r: Result<(CommitReport, Assembled), AppError>, ghost first: Chunks, ghost scan: Chunks)
    requires meta.Valid() && Elements(listing) == world.Keys && Distinct(listing)
    requires KindsAgree(digest) && CasSound(cas.blobs, digest) && Backed(meta.View(), cas.blobs, digest)
    modifies meta, cas, dir
    ensures r.Ok? <==>
      && (forall k | k in world :: Stages(k, world[k], Scope.World, digest))
      && Port.ActiveName(old(meta.View()).refs).Some?
    ensures r.Ok? ==>
      && IsScan(world, world.Keys, Scope.World, digest, first)
      && IsScan(dir.files, dir.files.Keys, Scope.World, digest, scan)
    ensures r.Ok? ==> r.value.1.entries == [] && r.value.1.removed == {}
    ensures r.Ok? && r.value.0.commit !in old(meta.View()).seqs ==> scan == first
  {
    ghost var s := meta.View();
    var committed;
    scan := map[];
    committed, first := CommitWorld(world, listing, meta, cas, digest, Scope.World, createdAtMs);
    if committed.Err? { return Err(committed.error), first, scan; }
    var id := committed.value.commit;
    ghost var t, blobs, before := meta.View(), cas.blobs, dir.files;
    BaseIsStored(t);
    var staged;
    staged, scan := ComeBack(meta, cas, digest, id, dir);
    if id !in s.seqs {
      CommittedWorldComesBack(s, t, id, blobs, digest, before, dir.files, first, scan);
    }
    r := Ok((committed.value, staged));
  }

  /** Check a commit out over whatever is in the directory and scan the result. */
  method ComeBack(meta: MemMeta, cas: MemCas, digest: Digester, id: CommitId, dir: WorldDir)
    returns (staged: Assembled, ghost scan: Chunks)
    requires meta.Valid() && BaseOf(meta.View()) == Some(id) && id in meta.View().seqs
    requires KindsAgree(digest) && CasSound(cas.blobs, digest) && Backed(meta.View(), cas.blobs, digest)
    modifies cas, dir
    ensures CheckedOut(old(dir.files), dir.files, Scope.World, PresentAt(meta.View(), id),
                       DeadIn(StateAt(meta.View(), id)), STRICT, old(cas.blobs))
    ensures IsScan(dir.files, dir.files.Keys, Scope.World, digest, scan)
    ensures staged.entries == [] && staged.removed == {}
  {
    ghost var blobs, before := cas.blobs, dir.files;
    StateIsRestorable(meta.View(), blobs, digest, id);
    var checked := Checkout(meta, cas, dir, id, STRICT, Scope.World);
    CheckedOutStages(meta.View(), id, blobs, digest, before, dir.files);
    staged, scan := ScanAgain(dir.files, meta, cas, digest, id, before, blobs);
  }

  /** Plan, ingest and assemble once more over the checked-out directory. */
  method ScanAgain(files: World, meta: MemMeta, cas: MemCas, digest: Digester, id: CommitId, ghost before: World,
                   ghost blobs: BlobMap)
    returns (staged: Assembled, ghost scan: Chunks)
    requires meta.Valid() && BaseOf(meta.View()) == Some(id) && Backed(meta.View(), blobs, digest)
    requires KindsAgree(digest) && CasSound(cas.blobs, digest)
    requires CheckedOut(before, files, Scope.World, PresentAt(meta.View(), id), DeadIn(StateAt(meta.View(), id)),
                        STRICT, blobs)
    requires forall k | k in files :: Stages(k, files[k], Scope.World, digest)
    modifies cas
    ensures IsScan(files, files.Keys, Scope.World, digest, scan)
    ensures staged.entries == [] && staged.removed == {}
  {
    var keys := ListKeys(files.Keys);
    var planned := PlanCommit(meta, keys, Scope.World);
    var (previous, plan) := planned.value;
    MatchingDiffer(keys, Scope.World);
    MatchingInWorld(files, keys, Scope.World);
    MatchingStage(files, keys, Scope.World, digest);
    var ingested;
    ingested, scan := IngestAll(files, plan.ingest, Scope.World, digest, cas);
    MatchingScanIsWhole(files, keys, Scope.World, digest, scan);
    staged := Deltas.Assemble(plan, previous, ingested.value, Scope.World);
    CheckoutThenCommitIsIdle(meta.View(), id, blobs, digest, before, files, scan, ingested.value, staged.entries);
    AllDiscovered(files, keys, plan.discovered);
  }

  lemma AllDiscovered(files: World, keys: seq<RegionKey>, discovered: set<RegionKey>)
    requires Elements(keys) == files.Keys && forall k :: k in discovered <==> k in keys && Scope.World.MatchesRegion(k)
    ensures discovered == files.Keys
  {
    forall k ensures k in discovered <==> k in files.Keys {
      assert k in Elements(keys) <==> k in keys;
    }
  }
}
