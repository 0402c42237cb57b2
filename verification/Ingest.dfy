/** The ingest pass: read region files, hash their chunks, store the payloads. */
module Ingest {
  import opened Base
  import opened Scopes
  import opened RegionLayout
  import opened RegionWriter
  import opened RegionReader

  /** Region files by identity. */
  type World = map<RegionKey, seq<byte>>

  /** The normalized digest of a payload of some family; a payload that cannot be read has none. */
  type Digester = (Kind, seq<byte>) -> Option<ChunkHash>

  /** Which chunks a pass takes up. */
  type Selector = Coord -> bool

  function Inside(scope: Scope): Selector {
    (c: Coord) => scope.Contains(c)
  }

  datatype IngestError = Anvil(error: AnvilError) | Unhashable(coord: Coord)

  /** A chunk read from a file, with the key it is stored under. */
  datatype Found = Found(coord: Coord, hash: ChunkHash, payload: seq<byte>)

  function CoordOf(key: RegionKey, chunk: Chunk): Coord {
    Coord(key.dim, key.kind, chunk.x, chunk.z)
  }

  function Open(key: RegionKey, bytes: seq<byte>): Result<RegionImage, AnvilError> {
    FromBytes(bytes, key.rx, key.rz, key.kind)
  }

  /** The stored payload of a chunk of a world. */
  function PayloadAt(world: World, c: Coord): Option<seq<byte>> {
    if RegionOf(c) !in world then None
    else PayloadIn(RegionOf(c), world[RegionOf(c)], c)
  }

  function PayloadIn(key: RegionKey, bytes: seq<byte>, c: Coord): Option<seq<byte>> {
    match Open(key, bytes)
    case Err(_) => None
    case Ok(image) => match image.ChunkPayload(c.x, c.z) case Ok(p) => p case Err(_) => None
  }

  // ----- one file -----

  /** Hash and stage every chosen chunk, stopping at the first that is corrupt or has no digest. */
  function StageItems(items: seq<Result<Chunk, AnvilError>>, key: RegionKey, chosen: Selector, digest: Digester)
    : Result<seq<Found>, IngestError>
  {
    if items == [] then Ok([])
    else
      match items[0]
      case Err(e) => Err(Anvil(e))
      case Ok(chunk) =>
        match StageOne(chunk, key, chosen, digest)
        case Err(e) => Err(e)
        case Ok(row) => Prepend(row, StageItems(items[1..], key, chosen, digest))
  }

  function Prepend(found: seq<Found>, rest: Result<seq<Found>, IngestError>): Result<seq<Found>, IngestError> {
    match rest case Err(e) => Err(e) case Ok(more) => Ok(found + more)
  }

  lemma PrependJoins(a: seq<Found>, b: seq<Found>, rest: Result<seq<Found>, IngestError>)
    ensures Prepend(a, Prepend(b, rest)) == Prepend(a + b, rest)
    ensures Prepend([], rest) == rest
  {
    if rest.Ok? {
      assert a + (b + rest.value) == a + b + rest.value;
      assert [] + rest.value == rest.value;
    }
  }

  /** Hash one chunk: nothing for one not chosen, one row for one chosen, an error without a digest. */
  function StageOne(chunk: Chunk, key: RegionKey, chosen: Selector, digest: Digester): Result<seq<Found>, IngestError> {
    var c := CoordOf(key, chunk);
    if !chosen(c) then Ok([])
    else
      match digest(key.kind, chunk.payload)
      case None => Err(Unhashable(c))
      case Some(h) => Ok([Found(c, h, chunk.payload)])
  }

  method StageFile(image: RegionImage, key: RegionKey, chosen: Selector, digest: Digester)
    returns (r: Result<seq<Found>, IngestError>)
    ensures r == StageItems(Items(image), key, chosen, digest)
  {
    var iter := new RegionImageIter(image);
    var staged: seq<Found> := [];
    ghost var left := iter.Remaining();
    PrependJoins([], [], StageItems(left, key, chosen, digest));
    while true
      invariant left == iter.Remaining()
      invariant StageItems(Items(image), key, chosen, digest) == Prepend(staged, StageItems(left, key, chosen, digest))
      decreases |left|
    {
      ghost var before := left;
      var item;
      item, left := Pull(iter);
      if item.None? {
        assert staged + [] == staged && before == [];
        return Ok(staged);
      }
      var row := StageItem(item.value, before, left, key, chosen, digest);
      if row.Err? { return Err(row.error); }
      PrependJoins(staged, row.value, StageItems(left, key, chosen, digest));
      staged := staged + row.value;
    }
  }

  method Pull(iter: RegionImageIter)
    returns (item: Option<Result<Chunk, AnvilError>>, ghost left: seq<Result<Chunk, AnvilError>>)
    modifies iter
    ensures left == iter.Remaining()
    ensures item.None? ==> old(iter.Remaining()) == []
    ensures item.Some? ==> old(iter.Remaining()) == [item.value] + left
  {
    item := iter.Next();
    left := iter.Remaining();
  }

  method StageItem(item: Result<Chunk, AnvilError>, ghost before: seq<Result<Chunk, AnvilError>>,
                   ghost left: seq<Result<Chunk, AnvilError>>, key: RegionKey, chosen: Selector, digest: Digester)
    returns (row: Result<seq<Found>, IngestError>)
    requires before == [item] + left
    ensures row.Err? ==> StageItems(before, key, chosen, digest) == Err(row.error)
    ensures row.Ok? ==>
      StageItems(before, key, chosen, digest) == Prepend(row.value, StageItems(left, key, chosen, digest))
  {
    assert before[0] == item && before[1..] == left;
    match item
    case Err(e) => row := Err(Anvil(e));
    case Ok(chunk) => row := StageOne(chunk, key, chosen, digest);
  }

  // ----- what one file stages -----

  /** `f` is the chosen chunk in slot `s`. */
  ghost predicate FoundAt(at: SlotReader, key: RegionKey, chosen: Selector, digest: Digester, s: nat, f: Found) {
    && at(s).Ok? && at(s).value.Some?
    && f.coord == CoordOf(key, at(s).value.value) && f.payload == at(s).value.value.payload
    && chosen(f.coord) && digest(key.kind, f.payload) == Some(f.hash)
  }

  ghost predicate Wanted(at: SlotReader, key: RegionKey, chosen: Selector, s: nat) {
    at(s).Ok? && at(s).value.Some? && chosen(CoordOf(key, at(s).value.value))
  }

  predicate FoundOnce(found: seq<Found>) {
    forall i, j | 0 <= i < j < |found| :: found[i].coord != found[j].coord
  }

  /** Exactly the chosen chunks from slot `k` on were found. */
  ghost predicate Covers(at: SlotReader, key: RegionKey, chosen: Selector, digest: Digester, k: nat, found: seq<Found>)
  {
    && FoundOnce(found)
    && (forall f | f in found :: exists s: nat :: k <= s < TABLE_ENTRIES && FoundAt(at, key, chosen, digest, s, f))
    && (forall s: nat | k <= s < TABLE_ENTRIES && Wanted(at, key, chosen, s) ::
          exists f :: f in found && FoundAt(at, key, chosen, digest, s, f))
  }

  /** Different slots hold different coordinates. */
  ghost predicate SlotsApart(at: SlotReader, key: RegionKey) {
    forall s: nat, t: nat | s < t < TABLE_ENTRIES && at(s).Ok? && at(s).value.Some? && at(t).Ok? && at(t).value.Some? ::
      CoordOf(key, at(s).value.value) != CoordOf(key, at(t).value.value)
  }

  lemma CoversOneMore(at: SlotReader, key: RegionKey, chosen: Selector, digest: Digester, k: nat, rest: seq<Found>,
                      f: Found)
    requires SlotsApart(at, key) && k < TABLE_ENTRIES
    requires Covers(at, key, chosen, digest, k + 1, rest) && FoundAt(at, key, chosen, digest, k, f)
    ensures Covers(at, key, chosen, digest, k, [f] + rest)
  {
    var found := [f] + rest;
    assert f == found[0] && forall g :: g in found <==> g == f || g in rest;
    forall g | g in rest ensures f.coord != g.coord {
      var s: nat :| k + 1 <= s < TABLE_ENTRIES && FoundAt(at, key, chosen, digest, s, g);
    }
    forall s: nat | k <= s < TABLE_ENTRIES && Wanted(at, key, chosen, s)
      ensures exists g :: g in found && FoundAt(at, key, chosen, digest, s, g)
    {
      if s == k {
        assert f in found;
      } else {
        var g :| g in rest && FoundAt(at, key, chosen, digest, s, g);
        assert g in found;
      }
    }
  }

  lemma CoversSkip(at: SlotReader, key: RegionKey, chosen: Selector, digest: Digester, k: nat, rest: seq<Found>)
    requires k < TABLE_ENTRIES && Covers(at, key, chosen, digest, k + 1, rest) && !Wanted(at, key, chosen, k)
    ensures Covers(at, key, chosen, digest, k, rest)
  {
  }

  /** Staging a walk that succeeds finds every chosen chunk once and nothing else. */
  lemma {:induction false} StagedCovers(at: SlotReader, key: RegionKey, chosen: Selector, digest: Digester, k: nat)
    requires SlotsApart(at, key) && k <= TABLE_ENTRIES && StageItems(WalkSlots(at, k), key, chosen, digest).Ok?
    ensures Covers(at, key, chosen, digest, k, StageItems(WalkSlots(at, k), key, chosen, digest).value)
    decreases TABLE_ENTRIES - k
  {
    if k < TABLE_ENTRIES {
      match at(k)
      case Err(_) =>
      case Ok(None) =>
        StagedCovers(at, key, chosen, digest, k + 1);
        CoversSkip(at, key, chosen, digest, k, StageItems(WalkSlots(at, k), key, chosen, digest).value);
      case Ok(Some(c)) =>
        StagedUnfolds(at, key, chosen, digest, k, c);
        StagedCovers(at, key, chosen, digest, k + 1);
        var rest := StageItems(WalkSlots(at, k + 1), key, chosen, digest).value;
        if chosen(CoordOf(key, c)) {
          CoversOneMore(at, key, chosen, digest, k, rest, FoundFrom(key, c, digest));
        } else {
          CoversSkip(at, key, chosen, digest, k, rest);
        }
    }
  }

  /** The row staged for a chunk with a digest. */
  function FoundFrom(key: RegionKey, c: Chunk, digest: Digester): Found
    requires digest(key.kind, c.payload).Some?
  {
    Found(CoordOf(key, c), digest(key.kind, c.payload).value, c.payload)
  }

  /** Staging a walk that starts with a chunk. */
  lemma StagedUnfolds(at: SlotReader, key: RegionKey, chosen: Selector, digest: Digester, k: nat, c: Chunk)
    requires k < TABLE_ENTRIES && at(k) == Ok(Some(c)) && StageItems(WalkSlots(at, k), key, chosen, digest).Ok?
    ensures StageItems(WalkSlots(at, k + 1), key, chosen, digest).Ok?
    ensures var rest := StageItems(WalkSlots(at, k + 1), key, chosen, digest).value;
      if chosen(CoordOf(key, c)) then
        && digest(key.kind, c.payload).Some?
        && StageItems(WalkSlots(at, k), key, chosen, digest).value == [FoundFrom(key, c, digest)] + rest
      else StageItems(WalkSlots(at, k), key, chosen, digest).value == rest
  {
    var items := WalkSlots(at, k);
    assert items[0] == Ok(c) && items[1..] == WalkSlots(at, k + 1);
  }

  /** A slot that stops a pass: it cannot be read, or its chunk is chosen and has no digest. */
  ghost predicate Stops(at: SlotReader, key: RegionKey, chosen: Selector, digest: Digester, s: nat, error: IngestError)
  {
    match at(s)
    case Err(e) => error == Anvil(e)
    case Ok(None) => false
    case Ok(Some(c)) =>
      chosen(CoordOf(key, c)) && digest(key.kind, c.payload).None? && error == Unhashable(CoordOf(key, c))
  }

  /** Of the slots from `k` on, `s` is the first that stops a pass. */
  ghost predicate StopsFirst(at: SlotReader, key: RegionKey, chosen: Selector, digest: Digester, k: nat, s: nat,
                             error: IngestError)
  {
    && k <= s < TABLE_ENTRIES && Stops(at, key, chosen, digest, s, error)
    && forall t: nat, e | k <= t < s :: !Stops(at, key, chosen, digest, t, e)
  }

  /** Staging fails exactly at the first slot that stops it. */
  lemma {:induction false} FailsAtFirst(at: SlotReader, key: RegionKey, chosen: Selector, digest: Digester, k: nat,
                                        error: IngestError)
    requires k <= TABLE_ENTRIES
    ensures StageItems(WalkSlots(at, k), key, chosen, digest) == Err(error) <==>
      exists s: nat :: StopsFirst(at, key, chosen, digest, k, s, error)
    decreases TABLE_ENTRIES - k
  {
    if k < TABLE_ENTRIES {
      FailsAtFirst(at, key, chosen, digest, k + 1, error);
      if e :| Stops(at, key, chosen, digest, k, e) {
        FailsHere(at, key, chosen, digest, k, e);
        assert StopsFirst(at, key, chosen, digest, k, k, e);
        forall s: nat | StopsFirst(at, key, chosen, digest, k, s, error) ensures error == e {
          assert s <= k;
        }
      } else {
        FailsLater(at, key, chosen, digest, k, k + 1, error);
        StopsLater(at, key, chosen, digest, k, k + 1, error);
      }
    }
  }

  ghost predicate Unstopped(at: SlotReader, key: RegionKey, chosen: Selector, digest: Digester, s: nat) {
    forall e :: !Stops(at, key, chosen, digest, s, e)
  }

  /** So staging succeeds exactly when no slot stops it. */
  lemma {:induction false} StagesUnstopped(at: SlotReader, key: RegionKey, chosen: Selector, digest: Digester, k: nat)
    requires k <= TABLE_ENTRIES
    ensures StageItems(WalkSlots(at, k), key, chosen, digest).Ok? <==>
      forall s: nat | k <= s < TABLE_ENTRIES :: Unstopped(at, key, chosen, digest, s)
    decreases TABLE_ENTRIES - k
  {
    if k < TABLE_ENTRIES {
      StagesUnstopped(at, key, chosen, digest, k + 1);
      if e :| Stops(at, key, chosen, digest, k, e) {
        FailsHere(at, key, chosen, digest, k, e);
        assert !Unstopped(at, key, chosen, digest, k);
      } else {
        OkLater(at, key, chosen, digest, k, k + 1);
        assert Unstopped(at, key, chosen, digest, k);
      }
    }
  }

  lemma OkLater(at: SlotReader, key: RegionKey, chosen: Selector, digest: Digester, k: nat, n: nat)
    requires k < TABLE_ENTRIES && n == k + 1 && forall e :: !Stops(at, key, chosen, digest, k, e)
    ensures StageItems(WalkSlots(at, k), key, chosen, digest).Ok? <==>
      StageItems(WalkSlots(at, n), key, chosen, digest).Ok?
  {
    var items := StageItems(WalkSlots(at, n), key, chosen, digest);
    if items.Err? {
      FailsLater(at, key, chosen, digest, k, n, items.error);
    }
    var here := StageItems(WalkSlots(at, k), key, chosen, digest);
    if here.Err? {
      FailsLater(at, key, chosen, digest, k, n, here.error);
    }
  }

  lemma StopsLater(at: SlotReader, key: RegionKey, chosen: Selector, digest: Digester, k: nat, n: nat,
                   error: IngestError)
    requires n == k + 1 && forall e :: !Stops(at, key, chosen, digest, k, e)
    ensures (exists s: nat :: StopsFirst(at, key, chosen, digest, k, s, error)) <==>
      (exists s: nat :: StopsFirst(at, key, chosen, digest, n, s, error))
  {
    if s: nat :| StopsFirst(at, key, chosen, digest, k, s, error) {
      assert StopsFirst(at, key, chosen, digest, n, s, error);
    }
    if s: nat :| StopsFirst(at, key, chosen, digest, n, s, error) {
      assert StopsFirst(at, key, chosen, digest, k, s, error);
    }
  }

  lemma FailsHere(at: SlotReader, key: RegionKey, chosen: Selector, digest: Digester, k: nat, e: IngestError)
    requires k < TABLE_ENTRIES && Stops(at, key, chosen, digest, k, e)
    ensures StageItems(WalkSlots(at, k), key, chosen, digest) == Err(e)
    ensures forall f | Stops(at, key, chosen, digest, k, f) :: f == e
  {
    var items := WalkSlots(at, k);
    if at(k).Err? {
      assert items[0] == Err(at(k).error);
    } else {
      assert items[0] == Ok(at(k).value.value);
    }
  }

  lemma FailsLater(at: SlotReader, key: RegionKey, chosen: Selector, digest: Digester, k: nat, n: nat,
                   error: IngestError)
    requires k < TABLE_ENTRIES && n == k + 1 && forall e :: !Stops(at, key, chosen, digest, k, e)
    ensures StageItems(WalkSlots(at, k), key, chosen, digest) == Err(error) <==>
      StageItems(WalkSlots(at, n), key, chosen, digest) == Err(error)
  {
    match at(k)
    case Err(e) => assert Stops(at, key, chosen, digest, k, Anvil(e));
    case Ok(None) =>
    case Ok(Some(c)) =>
      var items := WalkSlots(at, k);
      assert items[0] == Ok(c) && items[1..] == WalkSlots(at, n);
      assert !Stops(at, key, chosen, digest, k, Unhashable(CoordOf(key, c)));
  }

  lemma ImageSlotsApart(image: RegionImage, key: RegionKey)
    requires image.Valid()
    ensures SlotsApart(Slots(image), key)
  {
    forall s: nat, t: nat | s < t < TABLE_ENTRIES ensures image.loc.CoordAt(s) != image.loc.CoordAt(t) {
      CoordinatesAreSlots(image.loc, s);
      CoordinatesAreSlots(image.loc, t);
    }
  }

  /** A file's chunk, as found: where it belongs, what it holds, its digest. */
  ghost predicate Genuine(key: RegionKey, bytes: seq<byte>, chosen: Selector, digest: Digester, f: Found) {
    && RegionOf(f.coord) == key && chosen(f.coord) && PayloadIn(key, bytes, f.coord) == Some(f.payload)
    && digest(key.kind, f.payload) == Some(f.hash) && Storable(f.payload)
  }

  /** Exactly the chosen chunks of the file, each once. */
  ghost predicate FileFound(key: RegionKey, bytes: seq<byte>, chosen: Selector, digest: Digester, found: seq<Found>) {
    && FoundOnce(found)
    && (forall f | f in found :: Genuine(key, bytes, chosen, digest, f))
    && forall c: Coord | RegionOf(c) == key && chosen(c) && PayloadIn(key, bytes, c).Some? ::
         exists f :: f in found && f.coord == c
  }

  lemma FoundIsGenuine(key: RegionKey, bytes: seq<byte>, chosen: Selector, digest: Digester, s: nat, f: Found)
    requires Open(key, bytes).Ok? && s < TABLE_ENTRIES
    requires FoundAt(Slots(Open(key, bytes).value), key, chosen, digest, s, f)
    ensures Genuine(key, bytes, chosen, digest, f)
  {
    var image := Open(key, bytes).value;
    ReadIsStageable(image, s);
    SlotsAreCoordinates(image.loc, f.coord.x, f.coord.z);
    LookupIsWalk(image, f.coord.x, f.coord.z);
  }

  lemma PresentIsWanted(key: RegionKey, bytes: seq<byte>, chosen: Selector, c: Coord) returns (s: nat)
    requires Open(key, bytes).Ok? && RegionOf(c) == key && chosen(c) && PayloadIn(key, bytes, c).Some?
    ensures var at := Slots(Open(key, bytes).value);
      s < TABLE_ENTRIES && Wanted(at, key, chosen, s) && CoordOf(key, at(s).value.value) == c
  {
    var image := Open(key, bytes).value;
    SlotsAreCoordinates(image.loc, c.x, c.z);
    LookupIsWalk(image, c.x, c.z);
    s := image.loc.SlotOf(c.x, c.z).value;
  }

  /** A file that stages without an error yields exactly its chosen chunks, each with its digest. */
  lemma FileIsFound(key: RegionKey, bytes: seq<byte>, chosen: Selector, digest: Digester)
    requires Open(key, bytes).Ok? && StageItems(Items(Open(key, bytes).value), key, chosen, digest).Ok?
    ensures FileFound(key, bytes, chosen, digest, StageItems(Items(Open(key, bytes).value), key, chosen, digest).value)
  {
    var image := Open(key, bytes).value;
    if bytes != [] {
      var at := Slots(image);
      var found := StageItems(Items(image), key, chosen, digest).value;
      ImageSlotsApart(image, key);
      StagedCovers(at, key, chosen, digest, 0);
      forall f | f in found ensures Genuine(key, bytes, chosen, digest, f) {
        var s: nat :| s < TABLE_ENTRIES && FoundAt(at, key, chosen, digest, s, f);
        FoundIsGenuine(key, bytes, chosen, digest, s, f);
      }
      forall c: Coord | RegionOf(c) == key && chosen(c) && PayloadIn(key, bytes, c).Some?
        ensures exists f :: f in found && f.coord == c
      {
        var s := PresentIsWanted(key, bytes, chosen, c);
        var f :| f in found && FoundAt(at, key, chosen, digest, s, f);
      }
    }
  }
}
