/** Ingesting a whole world and committing what was found. */
module IngestRun {
  import opened Base
  import opened Scopes
  import opened RegionWriter
  import opened RegionLayout
  import opened RegionReader
  import opened Deltas
  import opened Cas
  import opened Ingest

  // ----- what the blob store holds -----

  /**
   A payload with the digest of another one's family has that digest in that family too: no
   collisions across families.
   */
  ghost predicate KindsAgree(digest: Digester) {
    forall k: Kind, p: seq<byte>, l: Kind, q: seq<byte> :: SameInBoth(digest, k, p, l, q)
  }

  ghost predicate SameInBoth(digest: Digester, k: Kind, p: seq<byte>, l: Kind, q: seq<byte>) {
    digest(k, p).Some? && digest(k, p) == digest(l, q) ==> digest(l, p) == digest(l, q)
  }

  /** A blob hashes to its key in some family, and fits a region file. */
  ghost predicate GoodBlob(digest: Digester, h: ChunkHash, blob: seq<byte>) {
    Storable(blob) && exists k :: digest(k, blob) == Some(h)
  }

  ghost predicate CasSound(blobs: BlobMap, digest: Digester) {
    forall h | h in blobs :: GoodBlob(digest, h, blobs[h])
  }

  /** A chunk of this family named by `h` can be restored with that very digest. */
  ghost predicate Holds(blobs: BlobMap, digest: Digester, kind: Kind, h: ChunkHash) {
    h in blobs && digest(kind, blobs[h]) == Some(h) && Storable(blobs[h])
  }

  /** Blobs are only added, and none is rewritten. */
  ghost predicate Extends(after: BlobMap, before: BlobMap) {
    forall h | h in before :: h in after && after[h] == before[h]
  }

  /** A chunk as staging finds it: storable, under its own digest. */
  ghost predicate Puttable(digest: Digester, f: Found) {
    Storable(f.payload) && digest(f.coord.kind, f.payload) == Some(f.hash)
  }

  ghost predicate AllPuttable(digest: Digester, found: seq<Found>) {
    forall f | f in found :: Puttable(digest, f)
  }

  /** Every one of these chunks can be restored. */
  ghost predicate AllHeld(blobs: BlobMap, digest: Digester, found: seq<Found>) {
    forall f | f in found :: Holds(blobs, digest, f.coord.kind, f.hash)
  }

  function PutOne(blobs: BlobMap, f: Found): BlobMap {
    if f.hash in blobs then blobs else blobs[f.hash := f.payload]
  }

  function PutAll(blobs: BlobMap, found: seq<Found>): BlobMap {
    if found == [] then blobs else PutOne(PutAll(blobs, found[..|found| - 1]), found[|found| - 1])
  }

  lemma PutOneHolds(blobs: BlobMap, digest: Digester, f: Found)
    requires KindsAgree(digest) && CasSound(blobs, digest) && Puttable(digest, f)
    ensures CasSound(PutOne(blobs, f), digest) && Extends(PutOne(blobs, f), blobs)
    ensures Holds(PutOne(blobs, f), digest, f.coord.kind, f.hash)
  {
    if f.hash in blobs {
      assert GoodBlob(digest, f.hash, blobs[f.hash]);
      var k :| digest(k, blobs[f.hash]) == Some(f.hash);
      assert SameInBoth(digest, k, blobs[f.hash], f.coord.kind, f.payload);
    } else {
      assert GoodBlob(digest, f.hash, f.payload);
    }
  }

  lemma HeldStays(before: BlobMap, after: BlobMap, digest: Digester, found: seq<Found>)
    requires Extends(after, before) && AllHeld(before, digest, found)
    ensures AllHeld(after, digest, found)
  {
  }

  lemma ExtendsFurther(after: BlobMap, mid: BlobMap, before: BlobMap)
    requires Extends(after, mid) && Extends(mid, before)
    ensures Extends(after, before)
  {
  }

  /** After the store pass every staged chunk can be restored, deduplicated ones included. */
  lemma {:induction false} PutAllHolds(blobs: BlobMap, digest: Digester, found: seq<Found>)
    requires KindsAgree(digest) && CasSound(blobs, digest) && AllPuttable(digest, found)
    ensures CasSound(PutAll(blobs, found), digest) && Extends(PutAll(blobs, found), blobs)
    ensures AllHeld(PutAll(blobs, found), digest, found)
    decreases |found|
  {
    if found != [] {
      var front, last := found[..|found| - 1], found[|found| - 1];
      var mid := PutAll(blobs, front);
      PutAllHolds(blobs, digest, front);
      PutOneHolds(mid, digest, last);
      HeldStays(mid, PutOne(mid, last), digest, front);
      ExtendsFurther(PutOne(mid, last), mid, blobs);
      assert found == front + [last];
    }
  }

  function HashesOf(found: seq<Found>): set<ChunkHash> {
    set f | f in found :: f.hash
  }

  lemma {:induction false} PutAllKeys(blobs: BlobMap, found: seq<Found>)
    ensures PutAll(blobs, found).Keys == blobs.Keys + HashesOf(found)
    decreases |found|
  {
    if found != [] {
      var front, last := found[..|found| - 1], found[|found| - 1];
      PutAllKeys(blobs, front);
      assert found == front + [last];
      assert HashesOf(found) == HashesOf(front) + {last.hash};
    }
  }

  /**
   Workers put concurrently. However their puts interleave, the store ends up with the same
   hashes, so as many blobs are new, and every chunk found can be restored from it.
   */
  lemma PutsInAnyOrder(blobs: BlobMap, digest: Digester, a: seq<Found>, b: seq<Found>)
    requires KindsAgree(digest) && CasSound(blobs, digest) && multiset(a) == multiset(b) && AllPuttable(digest, a)
    ensures PutAll(blobs, a).Keys == PutAll(blobs, b).Keys && |PutAll(blobs, a)| == |PutAll(blobs, b)|
    ensures CasSound(PutAll(blobs, b), digest) && Extends(PutAll(blobs, b), blobs)
    ensures AllHeld(PutAll(blobs, b), digest, a)
  {
    SameElements(a, b);
    PutAllKeys(blobs, a);
    PutAllKeys(blobs, b);
    SameSize(PutAll(blobs, a), PutAll(blobs, b));
    PutAllHolds(blobs, digest, b);
  }

  lemma SameElements(a: seq<Found>, b: seq<Found>)
    requires multiset(a) == multiset(b)
    ensures (forall f :: f in a <==> f in b) && HashesOf(a) == HashesOf(b)
  {
    forall f ensures f in a <==> f in b {
      assert f in multiset(a) <==> f in multiset(b);
    }
  }

  lemma SameSize(a: BlobMap, b: BlobMap)
    requires a.Keys == b.Keys
    ensures |a| == |b|
  {
    assert |a| == |a.Keys| && |b| == |b.Keys|;
  }

  /** Put every staged payload, counting the new ones. */
  method StoreAll(cas: MemCas, found: seq<Found>) returns (newBlobs: nat)
    modifies cas
    ensures cas.blobs == PutAll(old(cas.blobs), found)
    ensures newBlobs + |old(cas.blobs)| == |cas.blobs|
  {
    newBlobs := 0;
    ghost var before := cas.blobs;
    for i := 0 to |found|
      invariant cas.blobs == PutAll(before, found[..i])
      invariant newBlobs + |before| == |cas.blobs|
    {
      assert found[..i + 1][..i] == found[..i];
      var stored := cas.Put(found[i].hash, found[i].payload);
      newBlobs := newBlobs + if stored then 1 else 0;
    }
    assert found[..|found|] == found;
  }

  // ----- merging files -----

  function EntriesOf(found: seq<Found>): seq<Entry> {
    seq(|found|, i requires 0 <= i < |found| => Entry(found[i].coord, Some(found[i].hash)))
  }

  function CoordsOf(found: seq<Found>): set<Coord> {
    set f | f in found :: f.coord
  }

  ghost function ScanMap(found: seq<Found>): (scan: Chunks)
    requires FoundOnce(found)
    ensures forall f | f in found :: f.coord in scan && scan[f.coord] == f.hash
    ensures forall c | c in scan :: exists f :: f in found && f.coord == c
  {
    map c | c in CoordsOf(found) :: FoundFor(found, c).hash
  }

  ghost function FoundFor(found: seq<Found>, c: Coord): (f: Found)
    requires exists f :: f in found && f.coord == c
    ensures f in found && f.coord == c
  {
    var f :| f in found && f.coord == c;
    f
  }

  lemma OneFileScanned(found: seq<Found>, n: nat)
    requires FoundOnce(found)
    ensures IsIngested(Ingested(EntriesOf(found), CoordsOf(found), n), ScanMap(found))
  {
    var entries, scan := EntriesOf(found), ScanMap(found);
    forall e | e in entries ensures e.coord in scan && e.blob == Some(scan[e.coord]) {
      var i :| 0 <= i < |found| && e == entries[i];
      assert found[i] in found;
    }
    forall c | c in scan ensures Entry(c, Some(scan[c])) in entries {
      var f :| f in found && f.coord == c;
      var i :| 0 <= i < |found| && found[i] == f;
      assert entries[i] == Entry(c, Some(scan[c]));
    }
  }

  function Merge(a: Ingested, b: Ingested): Ingested {
    Ingested(a.entries + b.entries, a.present + b.present, a.newBlobs + b.newBlobs)
  }

  /** Files hold different coordinates, so their rows simply add up. */
  lemma ScansJoin(a: Ingested, s: Chunks, b: Ingested, t: Chunks)
    requires IsIngested(a, s) && IsIngested(b, t) && s.Keys !! t.Keys
    ensures IsIngested(Merge(a, b), s + t)
  {
    var all := a.entries + b.entries;
    assert forall e :: e in all <==> e in a.entries || e in b.entries;
    DistinctParts(a.entries, b.entries);
  }

  /** What a scan of these files of the world is. */
  ghost predicate IsScan(world: World, keys: set<RegionKey>, scope: Scope, digest: Digester, scan: Chunks) {
    && (forall c :: c in scan <==> RegionOf(c) in keys && scope.Contains(c) && PayloadAt(world, c).Some?)
    && forall c | c in scan :: digest(c.kind, PayloadAt(world, c).value) == Some(scan[c])
  }

  /** A scan is determined by the world. */
  lemma ScanIsUnique(world: World, keys: set<RegionKey>, scope: Scope, digest: Digester, s: Chunks, t: Chunks)
    requires IsScan(world, keys, scope, digest, s) && IsScan(world, keys, scope, digest, t)
    ensures s == t
  {
  }

  lemma ScanGrows(world: World, keys: set<RegionKey>, scope: Scope, digest: Digester, scan: Chunks, key: RegionKey,
                  found: seq<Found>)
    requires IsScan(world, keys, scope, digest, scan) && key in world && key !in keys
    requires FileFound(key, world[key], Inside(scope), digest, found)
    ensures scan.Keys !! ScanMap(found).Keys
    ensures IsScan(world, keys + {key}, scope, digest, scan + ScanMap(found))
  {
    forall c ensures c in ScanMap(found) <==> RegionOf(c) == key && scope.Contains(c) && PayloadAt(world, c).Some? {
      if c in ScanMap(found) {
        var f :| f in found && f.coord == c;
        assert Genuine(key, world[key], Inside(scope), digest, f);
      }
    }
    forall c | c in ScanMap(found) ensures digest(c.kind, PayloadAt(world, c).value) == Some(ScanMap(found)[c]) {
      var f :| f in found && f.coord == c;
      assert Genuine(key, world[key], Inside(scope), digest, f);
    }
  }

  /** Every chunk of the scan can be restored from the store. */
  ghost predicate Restorable(blobs: BlobMap, digest: Digester, scan: Chunks) {
    forall c | c in scan :: Holds(blobs, digest, c.kind, scan[c])
  }

  /** The file can be read, and every in-scope chunk of it hashed. */
  ghost predicate Stages(key: RegionKey, bytes: seq<byte>, scope: Scope, digest: Digester) {
    Open(key, bytes).Ok? && StageItems(Items(Open(key, bytes).value), key, Inside(scope), digest).Ok?
  }

  /** Why a file does not stage: it does not open, or this is what its first bad slot says. */
  ghost predicate NotStaged(error: IngestError, key: RegionKey, bytes: seq<byte>, scope: Scope, digest: Digester) {
    match Open(key, bytes)
    case Err(e) => error == Anvil(e)
    case Ok(image) => exists s: nat :: StopsFirst(Slots(image), key, Inside(scope), digest, 0, s, error)
  }

  /** The slot can be read, and a chunk of the scope in it has a digest. */
  ghost predicate Passes(image: RegionImage, key: RegionKey, scope: Scope, digest: Digester, s: nat) {
    match image.ChunkAt(s)
    case Err(_) => false
    case Ok(None) => true
    case Ok(Some(c)) => scope.Contains(CoordOf(key, c)) ==> digest(key.kind, c.payload).Some?
  }

  lemma SlotPasses(image: RegionImage, key: RegionKey, scope: Scope, digest: Digester, s: nat)
    ensures Passes(image, key, scope, digest, s) <==> Unstopped(Slots(image), key, Inside(scope), digest, s)
  {
    var at := Slots(image);
    match image.ChunkAt(s)
    case Err(e) => assert Stops(at, key, Inside(scope), digest, s, Anvil(e));
    case Ok(None) =>
    case Ok(Some(c)) => assert Passes(image, key, scope, digest, s)
                               || Stops(at, key, Inside(scope), digest, s, Unhashable(CoordOf(key, c)));
  }

  /** A file stages exactly when it opens, every slot can be read and every chunk in scope has a digest. */
  lemma StagesIsExact(key: RegionKey, bytes: seq<byte>, scope: Scope, digest: Digester)
    ensures Stages(key, bytes, scope, digest) <==>
      && Open(key, bytes).Ok?
      && forall s: nat | s < TABLE_ENTRIES :: Passes(Open(key, bytes).value, key, scope, digest, s)
  {
    if Open(key, bytes).Ok? {
      ItemsPass(Open(key, bytes).value, key, scope, digest);
    }
  }

  lemma ItemsPass(image: RegionImage, key: RegionKey, scope: Scope, digest: Digester)
    ensures StageItems(Items(image), key, Inside(scope), digest).Ok? <==>
      forall s: nat | s < TABLE_ENTRIES :: Passes(image, key, scope, digest, s)
  {
    if image.bytes != [] {
      StagesUnstopped(Slots(image), key, Inside(scope), digest, 0);
      forall s: nat | s < TABLE_ENTRIES
        ensures Passes(image, key, scope, digest, s) <==> Unstopped(Slots(image), key, Inside(scope), digest, s)
      {
        SlotPasses(image, key, scope, digest, s);
      }
    }
  }

  /** Read, hash and store one file. */
  method IngestFile(key: RegionKey, bytes: seq<byte>, scope: Scope, digest: Digester, cas: MemCas)
    returns (r: Result<Ingested, IngestError>, ghost found: seq<Found>)
    requires KindsAgree(digest) && CasSound(cas.blobs, digest)
    modifies cas
    ensures CasSound(cas.blobs, digest) && Extends(cas.blobs, old(cas.blobs))
    ensures r.Ok? <==> Stages(key, bytes, scope, digest)
    ensures r.Ok? ==> FileFound(key, bytes, Inside(scope), digest, found) && IsIngested(r.value, ScanMap(found))
    ensures r.Ok? ==> AllHeld(cas.blobs, digest, found)
    ensures r.Ok? ==> r.value.newBlobs + |old(cas.blobs)| == |cas.blobs|
    ensures r.Err? ==> NotStaged(r.error, key, bytes, scope, digest)
  {
    found := [];
    var image := Open(key, bytes);
    if image.Err? { return Err(Anvil(image.error)), found; }
    var staged := StageFile(image.value, key, Inside(scope), digest);
    if staged.Err? {
      FailsAtFirst(Slots(image.value), key, Inside(scope), digest, 0, staged.error);
      return Err(staged.error), found;
    }
    found := staged.value;
    FileIsFound(key, bytes, Inside(scope), digest);
    FoundArePuttable(key, bytes, scope, digest, found);
    PutAllHolds(cas.blobs, digest, found);
    var newBlobs := StoreAll(cas, staged.value);
    OneFileScanned(found, newBlobs);
    r := Ok(Ingested(EntriesOf(staged.value), CoordsOf(staged.value), newBlobs));
  }

  lemma FoundArePuttable(key: RegionKey, bytes: seq<byte>, scope: Scope, digest: Digester, found: seq<Found>)
    requires FileFound(key, bytes, Inside(scope), digest, found)
    ensures AllPuttable(digest, found)
  {
    forall f | f in found ensures Puttable(digest, f) {
      assert Genuine(key, bytes, Inside(scope), digest, f);
    }
  }

  ghost predicate AllStage(world: World, keys: seq<RegionKey>, scope: Scope, digest: Digester) {
    keys == [] ||
    (var last := keys[|keys| - 1];
     AllStage(world, keys[..|keys| - 1], scope, digest) && last in world && Stages(last, world[last], scope, digest))
  }

  lemma AllStageGrows(world: World, keys: seq<RegionKey>, i: nat, scope: Scope, digest: Digester)
    requires i < |keys| && AllStage(world, keys[..i], scope, digest) && keys[i] in world
    requires Stages(keys[i], world[keys[i]], scope, digest)
    ensures AllStage(world, keys[..i + 1], scope, digest)
  {
    assert keys[..i + 1][..i] == keys[..i];
  }

  lemma {:induction false} SomeFails(world: World, keys: seq<RegionKey>, i: nat, scope: Scope, digest: Digester)
    requires i < |keys| && keys[i] in world && !Stages(keys[i], world[keys[i]], scope, digest)
    ensures !AllStage(world, keys, scope, digest)
    decreases |keys|
  {
    if i < |keys| - 1 {
      SomeFails(world, keys[..|keys| - 1], i, scope, digest);
    }
  }

  lemma {:induction false} AllStageEach(world: World, keys: seq<RegionKey>, scope: Scope, digest: Digester)
    ensures AllStage(world, keys, scope, digest) <==>
      forall k | k in keys :: k in world && Stages(k, world[k], scope, digest)
    decreases |keys|
  {
    if keys != [] {
      AllStageEach(world, keys[..|keys| - 1], scope, digest);
      assert keys == keys[..|keys| - 1] + [keys[|keys| - 1]];
    }
  }

  /**
   The first `i` files are merged: their chunks are scanned, staged and stored; `before` blobs were
   there at the start.
   */
  ghost predicate Walked(world: World, keys: seq<RegionKey>, i: nat, scope: Scope, digest: Digester, blobs: BlobMap,
                         before: nat, walk: Ingested, scan: Chunks)
    requires i <= |keys|
  {
    && CasSound(blobs, digest) && Restorable(blobs, digest, scan) && walk.newBlobs + before == |blobs|
    && IsScan(world, Elements(keys[..i]), scope, digest, scan) && IsIngested(walk, scan)
  }

  /** Ingest the listed files; the outcomes are merged in the order the files complete. */
  method IngestAll(world: World, keys: seq<RegionKey>, scope: Scope, digest: Digester, cas: MemCas)
    returns (r: Result<Ingested, IngestError>, ghost scan: Chunks)
    requires Distinct(keys) && forall i | 0 <= i < |keys| :: keys[i] in world
    requires KindsAgree(digest) && CasSound(cas.blobs, digest)
    modifies cas
    ensures CasSound(cas.blobs, digest) && Extends(cas.blobs, old(cas.blobs))
    ensures r.Ok? <==> AllStage(world, keys, scope, digest)
    ensures r.Ok? ==>
      && IsScan(world, Elements(keys), scope, digest, scan)
      && IsIngested(r.value, scan)
      && Restorable(cas.blobs, digest, scan)
    ensures r.Ok? ==> r.value.newBlobs + |old(cas.blobs)| == |cas.blobs|
    ensures r.Err? ==> exists i ::
      0 <= i < |keys| && NotStaged(r.error, keys[i], world[keys[i]], scope, digest)
      && AllStage(world, keys[..i], scope, digest)
  {
    var walk := Ingested([], {}, 0);
    scan := map[];
    ghost var before := |cas.blobs|;
    for i := 0 to |keys|
      invariant Extends(cas.blobs, old(cas.blobs)) && AllStage(world, keys[..i], scope, digest)
      invariant Walked(world, keys, i, scope, digest, cas.blobs, before, walk, scan)
    {
      ghost var next;
      var merged;
      merged, next := IngestNext(world, keys, i, scope, digest, cas, walk, scan, before);
      if merged.Err? {
        SomeFails(world, keys, i, scope, digest);
        return Err(merged.error), scan;
      }
      AllStageGrows(world, keys, i, scope, digest);
      walk, scan := merged.value, next;
    }
    assert keys[..|keys|] == keys;
    r := Ok(walk);
  }

  method IngestNext(world: World, keys: seq<RegionKey>, i: nat, scope: Scope, digest: Digester, cas: MemCas,
                    walk: Ingested, ghost scan: Chunks, ghost before: nat)
    returns (r: Result<Ingested, IngestError>, ghost next: Chunks)
    requires i < |keys| && keys[i] in world && Distinct(keys) && KindsAgree(digest)
    requires Walked(world, keys, i, scope, digest, cas.blobs, before, walk, scan)
    modifies cas
    ensures CasSound(cas.blobs, digest) && Extends(cas.blobs, old(cas.blobs))
    ensures r.Ok? <==> Stages(keys[i], world[keys[i]], scope, digest)
    ensures r.Err? ==> NotStaged(r.error, keys[i], world[keys[i]], scope, digest)
    ensures r.Ok? ==> Walked(world, keys, i + 1, scope, digest, cas.blobs, before, r.value, next)
  {
    ghost var blobs, found := cas.blobs, [];
    var file;
    next := scan;
    file, found := IngestFile(keys[i], world[keys[i]], scope, digest, cas);
    if file.Err? { return Err(file.error), scan; }
    next := scan + ScanMap(found);
    FileMerges(world, keys, i, scope, digest, blobs, cas.blobs, before, walk, scan, file.value, found);
    r := Ok(Merge(walk, file.value));
  }

  lemma FileMerges(world: World, keys: seq<RegionKey>, i: nat, scope: Scope, digest: Digester, blobs: BlobMap,
                   after: BlobMap, before: nat, walk: Ingested, scan: Chunks, file: Ingested, found: seq<Found>)
    requires i < |keys| && keys[i] in world && Distinct(keys)
    requires Walked(world, keys, i, scope, digest, blobs, before, walk, scan)
    requires FileFound(keys[i], world[keys[i]], Inside(scope), digest, found) && IsIngested(file, ScanMap(found))
    requires CasSound(after, digest) && Extends(after, blobs) && AllHeld(after, digest, found)
    requires file.newBlobs + |blobs| == |after|
    ensures Walked(world, keys, i + 1, scope, digest, after, before, Merge(walk, file), scan + ScanMap(found))
  {
    assert keys[..i + 1] == keys[..i] + [keys[i]];
    assert Elements(keys[..i + 1]) == Elements(keys[..i]) + {keys[i]};
    ScanGrows(world, Elements(keys[..i]), scope, digest, scan, keys[i], found);
    ScansJoin(walk, scan, file, ScanMap(found));
    RestorableGrows(blobs, after, digest, scan, found);
  }

  lemma RestorableGrows(blobs: BlobMap, after: BlobMap, digest: Digester, scan: Chunks, found: seq<Found>)
    requires Restorable(blobs, digest, scan) && Extends(after, blobs) && FoundOnce(found)
    requires AllHeld(after, digest, found)
    ensures Restorable(after, digest, scan + ScanMap(found))
  {
  }
}
