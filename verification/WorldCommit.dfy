/** The commit flow: plan, ingest, assemble, record, over one world and one store. */
module WorldCommit {
  import opened Base
  import opened History
  import opened Scopes
  import opened Deltas
  import opened MemStore
  import opened CommitPlan
  import opened Cas
  import opened Ingest
  import opened IngestRun
  import Port

  datatype AppError = Ingestion(cause: IngestError) | Metadata(reason: MetaError)

  /** Every blob a row names can be restored as a chunk of that row's family. */
  ghost predicate Backed(s: Store, blobs: BlobMap, digest: Digester) {
    forall r | r in s.rows && r.blob.Some? :: Holds(blobs, digest, r.coord.kind, r.blob.value)
  }

  /** The rows of a delta name only blobs of the scan. */
  lemma DeltaIsBacked(s: Store, id: CommitId, t: u64, parents: set<CommitId>, entries: seq<Entry>, base: Chunks,
                      scan: Chunks, scope: Scope, blobs: BlobMap, digest: Digester)
    requires Backed(s, blobs, digest) && Restorable(blobs, digest, scan)
    requires DistinctCoords(entries) && Delta(entries) == DeltaOf(base, scan, scope)
    ensures Backed(Port.Inserted(s, id, t, parents, entries), blobs, digest)
  {
    forall e | e in entries && e.blob.Some? ensures Holds(blobs, digest, e.coord.kind, e.blob.value) {
      assert e.coord in Delta(entries) && Delta(entries)[e.coord] == e.blob;
      assert e.coord in scan && scan[e.coord] == e.blob.value;
    }
  }

  lemma {:induction false} MatchingAre(keys: seq<RegionKey>, scope: Scope)
    ensures forall k :: k in Matching(keys, scope) <==> k in keys && scope.MatchesRegion(k)
    decreases |keys|
  {
    if keys != [] {
      MatchingAre(keys[..|keys| - 1], scope);
      assert keys == keys[..|keys| - 1] + [keys[|keys| - 1]];
    }
  }

  /** The listing is filtered in order, repeats and all. */
  lemma {:induction false} MatchingJoins(a: seq<RegionKey>, b: seq<RegionKey>, scope: Scope)
    ensures Matching(a + b, scope) == Matching(a, scope) + Matching(b, scope)
    decreases |b|
  {
    if b == [] {
      assert a + b == a;
    } else {
      var n := |b| - 1;
      MatchingJoins(a, b[..n], scope);
      assert (a + b)[..|a + b| - 1] == a + b[..n];
    }
  }

  lemma MatchingOne(k: RegionKey, scope: Scope)
    ensures Matching([k], scope) == if scope.MatchesRegion(k) then [k] else []
  {
    assert [k][..0] == [];
  }

  lemma {:induction false} MatchingDiffer(keys: seq<RegionKey>, scope: Scope)
    requires Distinct(keys)
    ensures Distinct(Matching(keys, scope))
    decreases |keys|
  {
    if keys != [] {
      var n := |keys| - 1;
      var front := Matching(keys[..n], scope);
      MatchingDiffer(keys[..n], scope);
      MatchingAre(keys[..n], scope);
      assert keys[n] !in keys[..n];
      forall i | 0 <= i < |front| ensures front[i] != keys[n] {
        assert front[i] in front;
      }
    }
  }

  /** Scanning the files the scope visits finds every chunk in scope. */
  lemma MatchingScanIsWhole(world: World, listing: seq<RegionKey>, scope: Scope, digest: Digester, scan: Chunks)
    requires Elements(listing) == world.Keys
    requires IsScan(world, Elements(Matching(listing, scope)), scope, digest, scan)
    ensures InScope(scan, scope) && IsScan(world, world.Keys, scope, digest, scan)
  {
    MatchingAre(listing, scope);
    forall c: Coord | RegionOf(c) in world.Keys && scope.Contains(c)
      ensures RegionOf(c) in Elements(Matching(listing, scope))
    {
      ContainedIsMatched(scope, c);
      assert RegionOf(c) in Elements(listing);
    }
    forall k | k in Elements(Matching(listing, scope)) ensures k in world.Keys {
      assert k in Elements(listing);
    }
  }

  /**
   Commit the world: the new commit shows the scan inside the scope and its base outside it,
   other commits show what they showed, and everything they show can be restored.
   */
  method CommitWorld(world: World, listing: seq<RegionKey>, meta: MemMeta, cas: MemCas, digest: Digester, scope: Scope,
                     createdAtMs: u64)
    returns (r: Result<CommitReport, AppError>, ghost scan: Chunks)
    requires meta.Valid() && Elements(listing) == world.Keys && Distinct(listing)
    requires KindsAgree(digest) && CasSound(cas.blobs, digest) && Backed(meta.View(), cas.blobs, digest)
    modifies meta, cas
    ensures meta.Valid() && CasSound(cas.blobs, digest) && Backed(meta.View(), cas.blobs, digest)
    ensures Extends(cas.blobs, old(cas.blobs))
    ensures r.Err? ==> meta.View() == old(meta.View())
    ensures r.Err? && r.error.Metadata? ==> r.error == Metadata(NoActiveRef)
    ensures r.Err? && r.error.Ingestion? ==> exists k ::
      k in world && scope.MatchesRegion(k) && NotStaged(r.error.cause, k, world[k], scope, digest)
    ensures r.Ok? <==>
      && (forall k | k in world && scope.MatchesRegion(k) :: Stages(k, world[k], scope, digest))
      && Port.ActiveName(old(meta.View()).refs).Some?
    ensures r.Ok? ==> IsScan(world, world.Keys, scope, digest, scan)
    ensures r.Ok? ==> BaseOf(meta.View()) == Some(r.value.commit)
    ensures r.Ok? ==> r.value.chunks == |scan| && r.value.newBlobs + |old(cas.blobs)| == |cas.blobs|
    ensures r.Ok? ==>
      r.value.tombstones == |Gone(Present(BaseState(old(meta.View()), BaseOf(old(meta.View())))), scan.Keys, scope)|
    ensures r.Ok? ==> Port.ActiveMoves(old(meta.refs), meta.refs, r.value.commit)
    ensures r.Ok? && r.value.commit !in old(meta.View()).seqs ==>
      && Committed(old(meta.View()), meta.View(), r.value.commit, scan, scope)
      && Port.StoredAs(meta.View(), r.value.commit, BaseSet(BaseOf(old(meta.View()))), createdAtMs)
  {
    scan := map[];
    ghost var s, blobs := meta.View(), cas.blobs;
    var planned := PlanCommit(meta, listing, scope);
    var (previous, plan) := planned.value;
    MatchingDiffer(listing, scope);
    MatchingInWorld(world, listing, scope);
    MatchingStage(world, listing, scope, digest);
    var ingested;
    ingested, scan := IngestAll(world, plan.ingest, scope, digest, cas);
    if ingested.Err? {
      MatchingAre(listing, scope);
      return Err(Ingestion(ingested.error)), scan;
    }
    MatchingScanIsWhole(world, listing, scope, digest, scan);
    var staged := Assemble(plan, previous, ingested.value, scope);
    AssembledIsDelta(ingested.value, scan, previous.state, scope, staged.entries);
    ghost var base := BaseOf(s);
    var recorded := Record(meta, previous, staged, createdAtMs, s, base, scan, scope);
    if recorded.Err? { return Err(Metadata(recorded.error)), scan; }
    DeltaIsBacked(s, recorded.value.commit, createdAtMs, BaseSet(base), staged.entries, previous.state, scan, scope,
                  cas.blobs, digest);
    r := Ok(recorded.value);
  }

  lemma MatchingStage(world: World, listing: seq<RegionKey>, scope: Scope, digest: Digester)
    requires Elements(listing) == world.Keys
    ensures AllStage(world, Matching(listing, scope), scope, digest)
      <==> forall k | k in world && scope.MatchesRegion(k) :: Stages(k, world[k], scope, digest)
  {
    AllStageEach(world, Matching(listing, scope), scope, digest);
    MatchingAre(listing, scope);
    forall k ensures k in listing <==> k in world {
      assert k in Elements(listing) <==> k in world.Keys;
    }
  }

  /**
   Committing the same world again on the new commit, in the same scope, stages no row:
   a scan is determined by the world, and the commit shows it.
   */
  lemma RecommitIsIdle(s: Store, t: Store, id: CommitId, world: World, scope: Scope, digest: Digester, first: Chunks,
                       scan: Chunks, ingested: Ingested, entries: seq<Entry>)
    requires Valid(s) && Valid(t) && Committed(s, t, id, first, scope)
    requires IsScan(world, world.Keys, scope, digest, first) && IsScan(world, world.Keys, scope, digest, scan)
    requires IsIngested(ingested, scan)
    requires var kept := Changed(ingested.entries, PresentAt(t, id));
      kept <= entries && Buries(entries[|kept|..], Gone(PresentAt(t, id), ingested.present, scope))
    ensures entries == []
  {
    ScanIsUnique(world, world.Keys, scope, digest, first, scan);
    AssembledIsDelta(ingested, scan, PresentAt(t, id), scope, entries);
    UpdatedIsSettled(Present(BaseState(s, BaseOf(s))), scan, scope);
    NoDeltaNoRows(entries);
  }

  lemma MatchingInWorld(world: World, listing: seq<RegionKey>, scope: Scope)
    requires Elements(listing) == world.Keys
    ensures forall i | 0 <= i < |Matching(listing, scope)| :: Matching(listing, scope)[i] in world
  {
    MatchingAre(listing, scope);
    forall i | 0 <= i < |Matching(listing, scope)| ensures Matching(listing, scope)[i] in world {
      assert Matching(listing, scope)[i] in Elements(listing);
    }
  }
}
