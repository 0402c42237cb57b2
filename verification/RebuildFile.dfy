/** Checkout: rebuild the region files of a world from a commit. */
module RebuildFile {
  import opened Base
  import opened SlotTable
  import opened RegionLayout
  import opened RegionWriter
  import opened RegionReader
  import opened Cas
  import opened Ingest

  /** One chunk to restore. */
  datatype Restore = Restore(coord: Coord, hash: ChunkHash)

  datatype CheckoutError =
    | NoSuchCommit(id: CommitId)
    | BlobMissing(hash: ChunkHash)
    | UnknownRegionPath(key: RegionKey)
    | BadRegion(error: AnvilError)
    | BadFile(cause: IngestError)

  /** What checkout keeps and forgives; all `false` is the strict default. */
  datatype Options = Options(
    keepPostCommitFiles: bool, keepPostCommitChunks: bool, keepTombstonedChunks: bool,
    skipMissingBlobs: bool, failOnMissingFile: bool)

  const STRICT: Options := Options(false, false, false, false, false)

  // ----- what a rebuilt file holds -----

  function Lookup(m: map<Coord, seq<byte>>, c: Coord): Option<seq<byte>> {
    if c in m then Some(m[c]) else None
  }

  /** Live bytes of a coordinate the commit does not restore are kept by the policy for its kind of absence. */
  predicate KeepsLive(dead: set<Coord>, options: Options, c: Coord) {
    if c in dead then options.keepTombstonedChunks else options.keepPostCommitChunks
  }

  /** What a coordinate of a rebuilt file ends with. */
  function Expected(key: RegionKey, before: Option<seq<byte>>, present: Chunks, dead: set<Coord>, options: Options,
                    blobs: BlobMap, c: Coord): Option<seq<byte>>
  {
    if c in present && present[c] in blobs then Some(blobs[present[c]])
    else
      var keep := if c in dead then options.keepTombstonedChunks else options.keepPostCommitChunks;
      if keep && before.Some? then PayloadIn(key, before.value, c) else None
  }

  /** Every slot of the file can be read. */
  ghost predicate Intact(key: RegionKey, bytes: seq<byte>) {
    Open(key, bytes).Ok? && forall s: nat | s < TABLE_ENTRIES :: Slots(Open(key, bytes).value)(s).Ok?
  }

  /** A readable file with exactly the expected chunks; without leave to skip, no blob was missing. */
  ghost predicate Rebuilt(key: RegionKey, after: seq<byte>, before: Option<seq<byte>>, present: Chunks,
                          dead: set<Coord>, options: Options, blobs: BlobMap)
  {
    && Intact(key, after)
    && (options.skipMissingBlobs || NoneMissing(key, present, blobs))
    && forall c: Coord | RegionOf(c) == key ::
         PayloadIn(key, after, c) == Expected(key, before, present, dead, options, blobs, c)
  }

  ghost predicate NoneMissing(key: RegionKey, present: Chunks, blobs: BlobMap) {
    forall c | c in present && RegionOf(c) == key :: present[c] in blobs
  }

  /** Some chunk of the region is in the set. */
  ghost predicate Touched(key: RegionKey, coords: set<Coord>) {
    exists c :: c in coords && RegionOf(c) == key
  }

  /** The whole contract for one in-scope file. */
  ghost predicate FileAfter(key: RegionKey, before: Option<seq<byte>>, after: Option<seq<byte>>, present: Chunks,
                            dead: set<Coord>, options: Options, blobs: BlobMap)
  {
    if Touched(key, present.Keys) then after.Some? && Rebuilt(key, after.value, before, present, dead, options, blobs)
    else
      var keep := if Touched(key, dead) then options.keepTombstonedChunks else options.keepPostCommitFiles;
      after == if keep then before else None
  }

  // ----- the builder as a map -----

  ghost predicate ForRegion(loc: RegionLoc, key: RegionKey) {
    loc.Valid() && loc.regionX == key.rx && loc.regionZ == key.rz
  }

  /** The slots hold exactly `goal`, as far as this region goes. */
  ghost predicate Holding(loc: RegionLoc, held: map<nat, seq<byte>>, key: RegionKey, goal: map<Coord, seq<byte>>) {
    forall c: Coord | RegionOf(c) == key :: PayloadOf(loc, held, c.x, c.z) == Lookup(goal, c)
  }

  lemma StagingSets(loc: RegionLoc, held: map<nat, seq<byte>>, key: RegionKey, goal: map<Coord, seq<byte>>, c: Coord,
                    payload: seq<byte>)
    requires ForRegion(loc, key) && RegionOf(c) == key && Holding(loc, held, key, goal)
    ensures loc.SlotOf(c.x, c.z).Ok?
    ensures Holding(loc, held[loc.SlotOf(c.x, c.z).value := payload], key, goal[c := payload])
  {
    SlotsAreCoordinates(loc, c.x, c.z);
    var slot := loc.SlotOf(c.x, c.z).value;
    forall d: Coord | RegionOf(d) == key
      ensures PayloadOf(loc, held[slot := payload], d.x, d.z) == Lookup(goal[c := payload], d)
    {
      SlotsAreCoordinates(loc, d.x, d.z);
      assert PayloadOf(loc, held, d.x, d.z) == Lookup(goal, d);
    }
  }

  method StageInto(builder: RegionBuilder, key: RegionKey, c: Coord, payload: seq<byte>,
                   ghost goal: map<Coord, seq<byte>>)
    returns (r: Result<(), AnvilError>, ghost next: map<Coord, seq<byte>>)
    requires builder.Valid() && ForRegion(builder.loc, key) && RegionOf(c) == key
    requires Holding(builder.loc, Contents(builder.staged), key, goal)
    modifies builder
    ensures builder.Valid()
    ensures r.Ok? <==> Storable(payload)
    ensures r.Err? ==> r.error == if payload == [] then EmptyPayload else ChunkTooLarge(|payload|)
    ensures r.Ok? ==> next == goal[c := payload] && Holding(builder.loc, Contents(builder.staged), key, next)
  {
    StagingSets(builder.loc, Contents(builder.staged), key, goal, c, payload);
    r := builder.StageChunk(c.x, c.z, payload);
    next := goal[c := payload];
  }

  // ----- restoring -----

  /** The chunks of one region, each once. */
  ghost predicate RowsOfRegion(rows: seq<Restore>, key: RegionKey, present: Chunks) {
    && (forall i, j | 0 <= i < j < |rows| :: rows[i].coord != rows[j].coord)
    && (forall e | e in rows :: RegionOf(e.coord) == key && e.coord in present && present[e.coord] == e.hash)
    && forall c | c in present && RegionOf(c) == key :: Restore(c, present[c]) in rows
  }

  ghost function Fetched(rows: seq<Restore>, blobs: BlobMap): map<Coord, seq<byte>> {
    if rows == [] then map[]
    else
      var front := Fetched(rows[..|rows| - 1], blobs);
      var last := rows[|rows| - 1];
      if last.hash in blobs then front[last.coord := blobs[last.hash]] else front
  }

  lemma {:induction false} FetchedAre(rows: seq<Restore>, blobs: BlobMap, c: Coord)
    requires forall i, j | 0 <= i < j < |rows| :: rows[i].coord != rows[j].coord
    ensures forall e | e in rows && e.coord == c ::
      Lookup(Fetched(rows, blobs), c) == if e.hash in blobs then Some(blobs[e.hash]) else None
    ensures (forall e | e in rows :: e.coord != c) ==> c !in Fetched(rows, blobs)
    decreases |rows|
  {
    if rows != [] {
      var n := |rows| - 1;
      FetchedAre(rows[..n], blobs, c);
      assert rows == rows[..n] + [rows[n]];
      assert forall e | e in rows[..n] :: e.coord != rows[n].coord;
    }
  }

  /** What restoring a region's rows stages. */
  lemma FetchedIsPresent(rows: seq<Restore>, key: RegionKey, present: Chunks, blobs: BlobMap, c: Coord)
    requires RowsOfRegion(rows, key, present)
    ensures Lookup(Fetched(rows, blobs), c) ==
      if RegionOf(c) == key && c in present && present[c] in blobs then Some(blobs[present[c]]) else None
  {
    FetchedAre(rows, blobs, c);
    if c in present && RegionOf(c) == key {
      assert Restore(c, present[c]) in rows;
    }
  }

  /** The commit's chunks of these regions whose blob is stored. */
  ghost function Available(present: Chunks, keys: set<RegionKey>, blobs: BlobMap): set<Coord> {
    set c | c in present && RegionOf(c) in keys && present[c] in blobs
  }

  lemma FetchedAreAvailable(rows: seq<Restore>, key: RegionKey, present: Chunks, blobs: BlobMap)
    requires RowsOfRegion(rows, key, present)
    ensures Fetched(rows, blobs).Keys == Available(present, {key}, blobs)
  {
    forall c ensures c in Fetched(rows, blobs) <==> c in Available(present, {key}, blobs) {
      FetchedIsPresent(rows, key, present, blobs, c);
    }
  }

  /** A missing blob that may not be skipped, or one no region file can hold. */
  predicate Unrestorable(hash: ChunkHash, blobs: BlobMap, skipMissing: bool) {
    if hash in blobs then !Storable(blobs[hash]) else !skipMissing
  }

  /** A row is to blame for this error: its blob is missing and may not be, or no region file can hold it. */
  predicate Blames(error: CheckoutError, hash: ChunkHash, blobs: BlobMap, skipMissing: bool) {
    match error
    case BlobMissing(h) => h == hash && hash !in blobs && !skipMissing
    case BadRegion(EmptyPayload) => hash in blobs && blobs[hash] == []
    case BadRegion(ChunkTooLarge(len)) => hash in blobs && |blobs[hash]| == len && !Storable(blobs[hash])
    case _ => false
  }

  /** Stage every row whose blob is there; a missing one aborts or is skipped. */
  method RestoreRows(cas: MemCas, key: RegionKey, rows: seq<Restore>, builder: RegionBuilder, skipMissing: bool)
    returns (r: Result<set<Coord>, CheckoutError>)
    requires builder.Valid() && ForRegion(builder.loc, key) && Contents(builder.staged) == map[]
    requires forall i | 0 <= i < |rows| :: RegionOf(rows[i].coord) == key
    modifies builder
    ensures builder.Valid()
    ensures r.Ok? ==>
      && Holding(builder.loc, Contents(builder.staged), key, Fetched(rows, cas.blobs))
      && r.value == Fetched(rows, cas.blobs).Keys
    ensures r.Err? ==> exists i ::
      && 0 <= i < |rows| && Unrestorable(rows[i].hash, cas.blobs, skipMissing)
      && Blames(r.error, rows[i].hash, cas.blobs, skipMissing)
    ensures r.Ok? && !skipMissing ==> forall i | 0 <= i < |rows| :: rows[i].hash in cas.blobs
  {
    var restored: set<Coord> := {};
    ghost var goal: map<Coord, seq<byte>> := map[];
    for i := 0 to |rows|
      invariant builder.Valid() && Holding(builder.loc, Contents(builder.staged), key, goal)
      invariant goal == Fetched(rows[..i], cas.blobs) && restored == goal.Keys
      invariant !skipMissing ==> forall j | 0 <= j < i :: rows[j].hash in cas.blobs
    {
      assert rows[..i + 1][..i] == rows[..i];
      var blob := cas.FetchInto(rows[i].hash);
      match blob {
        case None =>
          if !skipMissing { return Err(BlobMissing(rows[i].hash)); }
        case Some(bytes) =>
          var staged;
          staged, goal := StageInto(builder, key, rows[i].coord, bytes, goal);
          if staged.Err? { return Err(BadRegion(staged.error)); }
          restored := restored + {rows[i].coord};
      }
    }
    assert rows[..|rows|] == rows;
    r := Ok(restored);
  }

  // ----- merging live chunks -----

  function Merged(goal: map<Coord, seq<byte>>, found: seq<Found>): map<Coord, seq<byte>> {
    if found == [] then goal
    else Merged(goal, found[..|found| - 1])[found[|found| - 1].coord := found[|found| - 1].payload]
  }

  lemma {:induction false} MergedAre(goal: map<Coord, seq<byte>>, found: seq<Found>, c: Coord)
    requires FoundOnce(found)
    ensures forall f | f in found && f.coord == c :: Lookup(Merged(goal, found), c) == Some(f.payload)
    ensures (forall f | f in found :: f.coord != c) ==> Lookup(Merged(goal, found), c) == Lookup(goal, c)
    decreases |found|
  {
    if found != [] {
      var n := |found| - 1;
      MergedAre(goal, found[..n], c);
      assert found == found[..n] + [found[n]];
      assert forall f | f in found[..n] :: f.coord != found[n].coord;
    }
  }

  function Survivors(restored: set<Coord>, dead: set<Coord>, options: Options): Selector {
    (c: Coord) => c !in restored && KeepsLive(dead, options, c)
  }

  function WithLive(key: RegionKey, bytes: seq<byte>, chosen: Selector, goal: map<Coord, seq<byte>>,
                    c: Coord): Option<seq<byte>>
  {
    if chosen(c) && PayloadIn(key, bytes, c).Some? then PayloadIn(key, bytes, c) else Lookup(goal, c)
  }

  function NoDigest(): Digester {
    (kind: Kind, payload: seq<byte>) => Some(0)
  }

  /** The live file is to blame: it does not open, or a slot of it cannot be read. */
  ghost predicate Unreadable(error: CheckoutError, key: RegionKey, bytes: seq<byte>) {
    match error
    case BadRegion(e) => Open(key, bytes) == Err(e)
    case BadFile(Anvil(e)) => Open(key, bytes).Ok? && Err(e) in Items(Open(key, bytes).value)
    case _ => false
  }

  /** Where everything has a digest, only an unreadable slot stops the staging of a file. */
  lemma {:induction false} StopsAtBadSlot(items: seq<Result<Chunk, AnvilError>>, key: RegionKey, chosen: Selector)
    requires StageItems(items, key, chosen, NoDigest()).Err?
    ensures var cause := StageItems(items, key, chosen, NoDigest()).error;
      cause.Anvil? && Err(cause.error) in items
  {
    if items[0].Ok? {
      StopsAtBadSlot(items[1..], key, chosen);
    }
  }

  /** Stage the live chunks the commit does not restore and the policy keeps. */
  method MergeLive(key: RegionKey, bytes: seq<byte>, restored: set<Coord>, dead: set<Coord>, options: Options,
                   builder: RegionBuilder, ghost goal: map<Coord, seq<byte>>)
    returns (r: Result<(), CheckoutError>, ghost next: map<Coord, seq<byte>>)
    requires builder.Valid() && ForRegion(builder.loc, key) && Holding(builder.loc, Contents(builder.staged), key, goal)
    modifies builder
    ensures builder.Valid()
    ensures r.Ok? <==>
      && Open(key, bytes).Ok?
      && StageItems(Items(Open(key, bytes).value), key, Survivors(restored, dead, options), NoDigest()).Ok?
    ensures r.Err? ==> Unreadable(r.error, key, bytes)
    ensures r.Ok? ==> Holding(builder.loc, Contents(builder.staged), key, next)
    ensures r.Ok? ==>
      forall c: Coord | RegionOf(c) == key ::
        Lookup(next, c) == WithLive(key, bytes, Survivors(restored, dead, options), goal, c)
  {
    next := goal;
    var image := Open(key, bytes);
    if image.Err? { return Err(BadRegion(image.error)), next; }
    var found := StageFile(image.value, key, Survivors(restored, dead, options), NoDigest());
    if found.Err? {
      StopsAtBadSlot(Items(image.value), key, Survivors(restored, dead, options));
      return Err(BadFile(found.error)), next;
    }
    FileIsFound(key, bytes, Survivors(restored, dead, options), NoDigest());
    next := StageLive(key, bytes, found.value, Survivors(restored, dead, options), builder, goal);
    forall c: Coord | RegionOf(c) == key
      ensures Lookup(next, c) == WithLive(key, bytes, Survivors(restored, dead, options), goal, c)
    {
      LiveMerged(key, bytes, found.value, Survivors(restored, dead, options), goal, c);
    }
    r := Ok(());
  }

  lemma LiveMerged(key: RegionKey, bytes: seq<byte>, found: seq<Found>, chosen: Selector, goal: map<Coord, seq<byte>>,
                   c: Coord)
    requires FileFound(key, bytes, chosen, NoDigest(), found) && RegionOf(c) == key
    ensures Lookup(Merged(goal, found), c) == WithLive(key, bytes, chosen, goal, c)
  {
    MergedAre(goal, found, c);
    if chosen(c) && PayloadIn(key, bytes, c).Some? {
      var f :| f in found && f.coord == c;
      assert Genuine(key, bytes, chosen, NoDigest(), f);
    } else {
      forall f | f in found ensures f.coord != c {
        assert Genuine(key, bytes, chosen, NoDigest(), f);
      }
    }
  }

  method StageLive(key: RegionKey, ghost bytes: seq<byte>, found: seq<Found>, ghost chosen: Selector,
                   builder: RegionBuilder, ghost goal: map<Coord, seq<byte>>)
    returns (ghost next: map<Coord, seq<byte>>)
    requires builder.Valid() && ForRegion(builder.loc, key) && Holding(builder.loc, Contents(builder.staged), key, goal)
    requires FileFound(key, bytes, chosen, NoDigest(), found)
    modifies builder
    ensures builder.Valid()
    ensures next == Merged(goal, found) && Holding(builder.loc, Contents(builder.staged), key, next)
  {
    next := goal;
    for i := 0 to |found|
      invariant builder.Valid() && next == Merged(goal, found[..i])
      invariant Holding(builder.loc, Contents(builder.staged), key, next)
    {
      assert found[..i + 1][..i] == found[..i];
      assert found[i] in found && Genuine(key, bytes, chosen, NoDigest(), found[i]);
      var staged;
      staged, next := StageInto(builder, key, found[i].coord, found[i].payload, next);
    }
    assert found[..|found|] == found;
  }

  // ----- one file -----

  /** The file an image of these slots makes. */
  lemma ImageShows(key: RegionKey, loc: RegionLoc, staged: seq<Staged>, timestamp: u32, bytes: seq<byte>,
                   goal: map<Coord, seq<byte>>)
    requires ForRegion(loc, key) && Stageable(staged) && Laid(bytes, staged, timestamp)
    requires Holding(loc, Contents(staged), key, goal)
    ensures Intact(key, bytes)
    ensures forall c: Coord | RegionOf(c) == key :: PayloadIn(key, bytes, c) == Lookup(goal, c)
  {
    LocatedIsNameable(key.rx, key.rz);
    var image := RegionImage(loc, key.kind, bytes);
    assert Open(key, bytes) == Ok(image);
    forall s: nat | s < TABLE_ENTRIES ensures image.ChunkAt(s).Ok? {
      BuiltSlot(image, staged, timestamp, s);
    }
    forall c: Coord | RegionOf(c) == key ensures PayloadIn(key, bytes, c) == Lookup(goal, c) {
      LookupIsRoundTrip(image, staged, timestamp, c.x, c.z);
      assert PayloadOf(loc, Contents(staged), c.x, c.z) == Lookup(goal, c);
    }
  }

  predicate KeepsSome(options: Options) {
    options.keepPostCommitChunks || options.keepTombstonedChunks
  }

  /** Nothing live is read and no file is required: only the blobs matter. */
  predicate Strict(options: Options) {
    !KeepsSome(options) && !options.failOnMissingFile
  }

  /** The tombstoned coordinates of one region. */
  ghost predicate TombsOfRegion(tombs: seq<Coord>, key: RegionKey, dead: set<Coord>) {
    forall c: Coord | RegionOf(c) == key :: c in tombs <==> c in dead
  }

  /** Every blob the region needs is there and fits. */
  ghost predicate Supplied(key: RegionKey, present: Chunks, blobs: BlobMap) {
    forall c | c in present && RegionOf(c) == key :: present[c] in blobs && Storable(blobs[present[c]])
  }

  /** What the rebuilt file has to hold, in terms of the plan's rows and tombstones. */
  ghost predicate IsGoal(key: RegionKey, rows: seq<Restore>, tombs: seq<Coord>, live: Option<seq<byte>>,
                         options: Options, blobs: BlobMap, goal: map<Coord, seq<byte>>)
  {
    if KeepsSome(options) && live.Some? then
      forall c: Coord | RegionOf(c) == key ::
        Lookup(goal, c) == WithLive(key, live.value, Survivors(Fetched(rows, blobs).Keys, Elements(tombs), options),
                                    Fetched(rows, blobs), c)
    else goal == Fetched(rows, blobs)
  }

  /** Restore the rows, then merge the live chunks a policy keeps. */
  method Fill(cas: MemCas, key: RegionKey, rows: seq<Restore>, tombs: seq<Coord>, live: Option<seq<byte>>,
              options: Options, builder: RegionBuilder)
    returns (r: Result<nat, CheckoutError>, ghost goal: map<Coord, seq<byte>>)
    requires builder.Valid() && ForRegion(builder.loc, key) && Contents(builder.staged) == map[]
    requires forall i | 0 <= i < |rows| :: RegionOf(rows[i].coord) == key
    modifies builder
    ensures builder.Valid()
    ensures r.Ok? ==>
      && Holding(builder.loc, Contents(builder.staged), key, goal)
      && IsGoal(key, rows, tombs, live, options, cas.blobs, goal)
    ensures r.Ok? ==> r.value == |Fetched(rows, cas.blobs).Keys|
    ensures r.Ok? && !options.skipMissingBlobs ==> forall i | 0 <= i < |rows| :: rows[i].hash in cas.blobs
    ensures r.Err? && !KeepsSome(options) ==>
      exists i :: 0 <= i < |rows| && Unrestorable(rows[i].hash, cas.blobs, options.skipMissingBlobs)
    ensures r.Err? ==>
      || (exists i :: 0 <= i < |rows| && Blames(r.error, rows[i].hash, cas.blobs, options.skipMissingBlobs))
      || (KeepsSome(options) && live.Some? && Unreadable(r.error, key, live.value))
  {
    goal := Fetched(rows, cas.blobs);
    var fetched := RestoreRows(cas, key, rows, builder, options.skipMissingBlobs);
    if fetched.Err? { return Err(fetched.error), goal; }
    if KeepsSome(options) && live.Some? {
      var merged;
      merged, goal := MergeLive(key, live.value, fetched.value, Elements(tombs), options, builder, goal);
      if merged.Err? { return Err(merged.error), goal; }
    }
    r := Ok(|fetched.value|);
  }

  /** Why a region could not be rebuilt: a row of it, or the live file a policy wanted to keep from. */
  ghost predicate BuildRefused(error: CheckoutError, key: RegionKey, live: Option<seq<byte>>, present: Chunks,
                               options: Options, blobs: BlobMap)
  {
    || (exists c :: c in present && RegionOf(c) == key && Blames(error, present[c], blobs, options.skipMissingBlobs))
    || ((options.keepPostCommitChunks || options.keepTombstonedChunks)
        && live.Some? && Unreadable(error, key, live.value))
  }

  lemma RowIsToBlame(error: CheckoutError, rows: seq<Restore>, i: nat, key: RegionKey, live: Option<seq<byte>>,
                     present: Chunks, options: Options, blobs: BlobMap)
    requires RowsOfRegion(rows, key, present) && i < |rows|
    requires Blames(error, rows[i].hash, blobs, options.skipMissingBlobs)
    ensures BuildRefused(error, key, live, present, options, blobs)
  {
    assert rows[i] in rows;
  }

  /** Build the new image of a region with present chunks. */
  method BuildFile(cas: MemCas, key: RegionKey, rows: seq<Restore>, tombs: seq<Coord>, live: Option<seq<byte>>,
                   options: Options, timestamp: u32, ghost present: Chunks, ghost dead: set<Coord>)
    returns (r: Result<seq<byte>, CheckoutError>, restored: nat)
    requires Touched(key, present.Keys) && RowsOfRegion(rows, key, present) && TombsOfRegion(tombs, key, dead)
    ensures r.Ok? ==> Rebuilt(key, r.value, live, present, dead, options, cas.blobs)
    ensures r.Ok? ==> restored == |Available(present, {key}, cas.blobs)|
    ensures Supplied(key, present, cas.blobs) && !KeepsSome(options) ==> r.Ok?
    ensures r.Ok? ==> Stamped(r.value, timestamp)
    ensures r.Err? ==> BuildRefused(r.error, key, live, present, options, cas.blobs)
  {
    restored := 0;
    RegionHasBuilder(key, present);
    RowsInRegion(rows, key, present, cas.blobs, options.skipMissingBlobs);
    var made := RegionBuilder.Create(key.rx, key.rz, timestamp);
    var builder;
    match made {
      case Err(e) => return Err(BadRegion(e)), restored;
      case Ok(b) => builder := b;
    }
    var filled;
    ghost var goal;
    filled, goal := Fill(cas, key, rows, tombs, live, options, builder);
    if filled.Err? {
      if i :| 0 <= i < |rows| && Blames(filled.error, rows[i].hash, cas.blobs, options.skipMissingBlobs) {
        RowIsToBlame(filled.error, rows, i, key, live, present, options, cas.blobs);
      }
      return Err(filled.error), restored;
    }
    FetchedAreAvailable(rows, key, present, cas.blobs);
    var image := builder.Image();
    ImageShows(key, builder.loc, builder.staged, builder.timestamp, image.value, goal);
    GoalIsExpected(key, rows, tombs, live, options, cas.blobs, present, dead, goal, image.value);
    LaidIsStamped(image.value, builder.staged, timestamp);
    return Ok(image.value), filled.value;
  }

  lemma RowsInRegion(rows: seq<Restore>, key: RegionKey, present: Chunks, blobs: BlobMap, skipMissing: bool)
    requires RowsOfRegion(rows, key, present)
    ensures forall i | 0 <= i < |rows| :: RegionOf(rows[i].coord) == key
    ensures Supplied(key, present, blobs) ==>
      forall i | 0 <= i < |rows| :: !Unrestorable(rows[i].hash, blobs, skipMissing)
    ensures (forall i | 0 <= i < |rows| :: rows[i].hash in blobs) ==> NoneMissing(key, present, blobs)
  {
    forall i | 0 <= i < |rows|
      ensures RegionOf(rows[i].coord) == key
      ensures Supplied(key, present, blobs) ==> !Unrestorable(rows[i].hash, blobs, skipMissing)
    {
      assert rows[i] in rows;
    }
    forall c | (forall i | 0 <= i < |rows| :: rows[i].hash in blobs) && c in present && RegionOf(c) == key
      ensures present[c] in blobs
    {
      assert Restore(c, present[c]) in rows;
    }
  }

  lemma RegionHasBuilder(key: RegionKey, present: Chunks)
    requires Touched(key, present.Keys)
    ensures Locate(key.rx, key.rz).Ok? && Locate(key.rx, key.rz).value.Valid()
  {
    var c :| c in present.Keys && RegionOf(c) == key;
    LocatedIsNameable(key.rx, key.rz);
  }

  lemma GoalIsExpected(key: RegionKey, rows: seq<Restore>, tombs: seq<Coord>, live: Option<seq<byte>>, options: Options,
                       blobs: BlobMap, present: Chunks, dead: set<Coord>, goal: map<Coord, seq<byte>>, bytes: seq<byte>)
    requires RowsOfRegion(rows, key, present) && TombsOfRegion(tombs, key, dead)
    requires IsGoal(key, rows, tombs, live, options, blobs, goal)
    requires Intact(key, bytes) && forall c: Coord | RegionOf(c) == key :: PayloadIn(key, bytes, c) == Lookup(goal, c)
    requires options.skipMissingBlobs || NoneMissing(key, present, blobs)
    ensures Rebuilt(key, bytes, live, present, dead, options, blobs)
  {
    forall c: Coord | RegionOf(c) == key
      ensures PayloadIn(key, bytes, c) == Expected(key, live, present, dead, options, blobs, c)
    {
      FetchedIsPresent(rows, key, present, blobs, c);
      assert c in Elements(tombs) <==> c in dead;
      assert KeepsLive(Elements(tombs), options, c) == KeepsLive(dead, options, c);
    }
  }
}
