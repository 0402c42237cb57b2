/** Read-side parsing of region images. */
module RegionReader {
  import opened Base
  import opened Bytes
  import opened RegionLayout
  import opened SlotTable
  import opened RegionWriter

  /** A chunk as read: its family, global coordinates and stored bytes. */
  datatype Chunk = Chunk(kind: Kind, x: i32, z: i32, payload: seq<byte>)

  /** A parsed image. Nothing in the bytes but their number is trusted. */
  datatype RegionImage = RegionImage(loc: RegionLoc, kind: Kind, bytes: seq<byte>) {

    predicate Valid() {
      loc.Valid() && CheckImageLen(|bytes|).Ok?
    }

    /** Sector offset and count of a table slot. */
    function Entry(index: nat): Result<(nat, nat), AnvilError> {
      if 4 * index + 4 > |bytes| then Err(CorruptEntry(index, 0, 0))
      else
        var entry := Word(bytes, 4 * index);
        Ok((entry / 0x100, entry % 0x100))
    }

    function SectorPayload(index: nat, offset: nat, count: nat): Result<seq<byte>, AnvilError> {
      var base := offset * SECTOR_LEN;
      if base + 4 > |bytes| then Err(CorruptChunk(index, 0))
      else
        var len := Word(bytes, base);
        if len == 0 || len + 4 > count * SECTOR_LEN then Err(CorruptChunk(index, len))
        else if base + 4 + len > |bytes| then Err(CorruptChunk(index, len))
        else Ok(bytes[base + 4..base + 4 + len])
    }

    /** What the table walk reports for one slot; an empty slot and an empty image hold nothing. */
    function ChunkAt(index: nat): Result<Option<Chunk>, AnvilError> {
      if bytes == [] then Ok(None)
      else
        match Entry(index)
        case Err(e) => Err(e)
        case Ok((offset, count)) =>
          if offset == 0 && count == 0 then Ok(None)
          else if offset < FIRST_DATA_SECTOR || count == 0 then Err(CorruptEntry(index, offset, count))
          else if offset * SECTOR_LEN >= |bytes| then Err(CorruptEntry(index, offset, count))
          else
            match SectorPayload(index, offset, count)
            case Err(e) => Err(e)
            case Ok(payload) => Ok(Some(Chunk(kind, loc.CoordAt(index).0, loc.CoordAt(index).1, payload)))
    }

    /** The payload of one chunk; a coordinate of another region holds nothing. */
    function ChunkPayload(x: i32, z: i32): Result<Option<seq<byte>>, AnvilError> {
      if bytes == [] then Ok(None)
      else
        match loc.SlotOf(x, z)
        case Err(_) => Ok(None)
        case Ok(index) =>
          match Entry(index)
          case Err(e) => Err(e)
          case Ok((offset, count)) =>
            if offset == 0 && count == 0 then Ok(None)
            else if offset < FIRST_DATA_SECTOR || count == 0 || offset * SECTOR_LEN >= |bytes| then
              Err(CorruptEntry(index, offset, count))
            else
              match SectorPayload(index, offset, count)
              case Err(e) => Err(e)
              case Ok(payload) => Ok(Some(payload))
    }
  }

  function FromBytes(bytes: seq<byte>, regionX: i32, regionZ: i32, kind: Kind): Result<RegionImage, AnvilError> {
    match CheckImageLen(|bytes|)
    case Err(e) => Err(e)
    case Ok(_) =>
      match Locate(regionX, regionZ)
      case Err(e) => Err(e)
      case Ok(loc) => Ok(RegionImage(loc, kind, bytes))
  }

  type SlotReader = nat -> Result<Option<Chunk>, AnvilError>

  /** What a walk over slots `k` and up yields: present chunks in table order, up to the first corrupt slot. */
  function WalkSlots(at: SlotReader, k: nat): seq<Result<Chunk, AnvilError>>
    decreases TABLE_ENTRIES - k
  {
    if k >= TABLE_ENTRIES then []
    else
      match at(k)
      case Err(e) => [Err(e)]
      case Ok(None) => WalkSlots(at, k + 1)
      case Ok(Some(c)) => [Ok(c)] + WalkSlots(at, k + 1)
  }

  function Slots(image: RegionImage): SlotReader {
    (index: nat) => image.ChunkAt(index)
  }

  function Walk(image: RegionImage, k: nat): seq<Result<Chunk, AnvilError>> {
    WalkSlots(Slots(image), k)
  }

  /** Everything an iterator over the image yields; an empty image has no table to walk. */
  function Items(image: RegionImage): seq<Result<Chunk, AnvilError>> {
    if image.bytes == [] then [] else Walk(image, 0)
  }

  /** Yields the present chunks of an image and fuses after the last one or the first error. */
  class RegionImageIter {
    const inner: RegionImage
    var nextIndex: nat
    var done: bool

    /** Everything still to come. */
    function Remaining(): seq<Result<Chunk, AnvilError>>
      reads this
    {
      if done || inner.bytes == [] then [] else Walk(inner, nextIndex)
    }

    constructor (inner: RegionImage)
      ensures this.inner == inner && Remaining() == Items(inner)
    {
      this.inner := inner;
      this.nextIndex := 0;
      this.done := false;
    }

    /** The next item; once there is none there never is one again. */
    method Next() returns (item: Option<Result<Chunk, AnvilError>>)
      modifies this
      ensures item.None? ==> old(Remaining()) == [] && done
      ensures item.Some? ==> old(Remaining()) == [item.value] + Remaining()
      ensures item.Some? && item.value.Err? ==> done
      ensures done ==> Remaining() == []
    {
      if done { return None; }
      if inner.bytes == [] {
        done := true;
        return None;
      }
      while nextIndex < TABLE_ENTRIES
        invariant !done && Walk(inner, nextIndex) == old(Walk(inner, nextIndex))
      {
        var index := nextIndex;
        nextIndex := nextIndex + 1;
        match inner.ChunkAt(index) {
          case Ok(None) =>
          case Ok(Some(chunk)) => return Some(Ok(chunk));
          case Err(err) =>
            done := true;
            return Some(Err(err));
        }
      }
      done := true;
      return None;
    }
  }

  // ----- any bytes -----

  /** The single lookup agrees with the walk on every image, corrupt ones included. */
  lemma LookupIsWalk(image: RegionImage, x: i32, z: i32)
    requires image.Valid()
    ensures image.loc.SlotOf(x, z).Err? ==> image.ChunkPayload(x, z) == Ok(None)
    ensures image.loc.SlotOf(x, z).Ok? ==>
      match image.ChunkAt(image.loc.SlotOf(x, z).value)
      case Err(e) => image.ChunkPayload(x, z) == Err(e)
      case Ok(None) => image.ChunkPayload(x, z) == Ok(None)
      case Ok(Some(c)) => image.ChunkPayload(x, z) == Ok(Some(c.payload)) && (c.x, c.z) == (x, z)
  {
    if image.loc.SlotOf(x, z).Ok? {
      SlotsAreCoordinates(image.loc, x, z);
    }
  }

  /** A file opens exactly when its region can be named and it is empty or long enough for both tables. */
  lemma OpensOnLengthAlone(bytes: seq<byte>, regionX: i32, regionZ: i32, kind: Kind)
    ensures FromBytes(bytes, regionX, regionZ, kind).Ok? <==>
      (bytes == [] || HEADER_LEN <= |bytes|) && Locate(regionX, regionZ).Ok?
    ensures 0 < |bytes| < HEADER_LEN ==> FromBytes(bytes, regionX, regionZ, kind) == Err(TruncatedFile(|bytes|))
    ensures FromBytes(bytes, regionX, regionZ, kind).Err? && (bytes == [] || HEADER_LEN <= |bytes|) ==>
      FromBytes(bytes, regionX, regionZ, kind) == Err(CoordinateOverflow(regionX, regionZ))
    ensures FromBytes(bytes, regionX, regionZ, kind).Ok? ==>
      var image := FromBytes(bytes, regionX, regionZ, kind).value;
      image.Valid() && image.bytes == bytes && image.kind == kind && Ok(image.loc) == Locate(regionX, regionZ)
  {
    LocatedIsNameable(regionX, regionZ);
  }

  /** The stored bytes a slot with this entry stands for lie inside the file and its sectors. */
  predicate RunStands(bytes: seq<byte>, offset: nat, count: nat) {
    && FIRST_DATA_SECTOR <= offset && 0 < count && offset * SECTOR_LEN + 4 <= |bytes|
    && 0 < Word(bytes, offset * SECTOR_LEN) <= count * SECTOR_LEN - 4
    && offset * SECTOR_LEN + 4 + Word(bytes, offset * SECTOR_LEN) <= |bytes|
  }

  /** What any bytes read as, slot by slot: nothing, a run that stands, or one of two errors. */
  lemma SlotIsReadExactly(image: RegionImage, index: nat)
    requires image.Valid() && index < TABLE_ENTRIES && image.bytes != []
    ensures var entry := Word(image.bytes, 4 * index);
      var offset, count, at := entry / 0x100, entry % 0x100, entry / 0x100 * SECTOR_LEN;
      && (image.ChunkAt(index) == Ok(None) <==> entry == 0)
      && (image.ChunkAt(index).Ok? && image.ChunkAt(index).value.Some? <==> RunStands(image.bytes, offset, count))
      && (RunStands(image.bytes, offset, count) ==>
            image.ChunkAt(index).value.value.payload == image.bytes[at + 4..at + 4 + Word(image.bytes, at)])
      && (image.ChunkAt(index) == Err(CorruptEntry(index, offset, count)) <==>
            entry != 0 && (offset < FIRST_DATA_SECTOR || count == 0 || |image.bytes| <= at))
      && (image.ChunkAt(index).Err? && image.ChunkAt(index).error.CorruptChunk? ==>
            image.ChunkAt(index).error ==
              CorruptChunk(index, if at + 4 <= |image.bytes| then Word(image.bytes, at) else 0))
      && (image.ChunkAt(index).Err? ==>
            image.ChunkAt(index).error.CorruptEntry? || image.ChunkAt(index).error.CorruptChunk?)
  {
  }

  /** Whatever the bytes, a chunk that is read is accepted again by a builder of the same region, in its slot. */
  lemma ReadIsStageable(image: RegionImage, index: nat)
    requires image.Valid() && index < TABLE_ENTRIES && image.ChunkAt(index).Ok? && image.ChunkAt(index).value.Some?
    ensures var c := image.ChunkAt(index).value.value;
      Storable(c.payload) && image.loc.SlotOf(c.x, c.z) == Ok(index)
  {
    CoordinatesAreSlots(image.loc, index);
    SectorsFit(|image.ChunkAt(index).value.value.payload|);
  }

  // ----- what a builder wrote -----

  lemma LocationReads(offset: nat, sectors: nat)
    requires sectors < 0x100
    ensures Location(offset, sectors) / 0x100 == offset && Location(offset, sectors) % 0x100 == sectors
  {
  }

  lemma SubSlice(s: seq<byte>, at: nat, n: nat, lo: nat, hi: nat)
    requires at + n <= |s| && lo <= hi <= n
    ensures s[at..at + n][lo..hi] == s[at + lo..at + hi]
  {
    var t := s[at..at + n];
    forall i | 0 <= i < hi - lo ensures t[lo..hi][i] == s[at + lo..at + hi][i] {
      assert t[lo + i] == s[at + lo + i];
    }
  }

  lemma Parts(a: seq<byte>, b: seq<byte>, c: seq<byte>)
    ensures (a + b + c)[0..|a|] == a && (a + b + c)[|a|..|a| + |b|] == b
  {
    assert a + b + c == a + (b + c);
    assert (a + (b + c))[|a|..] == b + c;
    SubSlice(a + (b + c), |a|, |b| + |c|, 0, |b|);
    assert (a + (b + c))[0..|a|] == a;
    assert (b + c)[0..|b|] == b;
  }

  lemma RunReads(image: seq<byte>, sector: nat, payload: seq<byte>)
    requires RunAt(image, sector, payload) && Storable(payload)
    ensures sector * SECTOR_LEN + 4 + |payload| <= |image|
    ensures Word(image, sector * SECTOR_LEN) == |payload|
    ensures image[sector * SECTOR_LEN + 4..sector * SECTOR_LEN + 4 + |payload|] == payload
  {
    var at, n := sector * SECTOR_LEN, |Run(payload)|;
    SectorsFit(|payload|);
    Spans();
    NumberOfBigEndian(|payload|, 4);
    SubSlice(image, at, n, 0, 4);
    SubSlice(image, at, n, 4, 4 + |payload|);
    Parts(BigEndian(|payload|, 4), payload, Zeros(Sectors(|payload|) * SECTOR_LEN - 4 - |payload|));
  }

  /** A laid-out chunk is read back from its slot. */
  lemma LaidIsRead(image: RegionImage, c: Staged, sector: nat, timestamp: u32)
    requires ChunkLaid(image.bytes, c, sector, timestamp) && Fits(c)
    ensures image.ChunkAt(c.key)
      == Ok(Some(Chunk(image.kind, image.loc.CoordAt(c.key).0, image.loc.CoordAt(c.key).1, c.value)))
  {
    SectorsFit(|c.value|);
    LocationReads(sector, Sectors(|c.value|));
    RunReads(image.bytes, sector, c.value);
    assert image.Entry(c.key) == Ok((sector, Sectors(|c.value|)));
    assert image.SectorPayload(c.key, sector, Sectors(|c.value|)) == Ok(c.value);
  }

  /** A built slot reads as what was staged for it. */
  lemma BuiltSlot(image: RegionImage, staged: seq<Staged>, timestamp: u32, slot: nat)
    requires Stageable(staged) && Laid(image.bytes, staged, timestamp) && slot < TABLE_ENTRIES
    ensures var (x, z) := image.loc.CoordAt(slot);
      image.ChunkAt(slot) == Ok(
        if slot in Contents(staged) then Some(Chunk(image.kind, x, z, Contents(staged)[slot])) else None)
  {
    VacantIsAbsent(staged, slot);
    if slot in Contents(staged) {
      var i :| 0 <= i < |staged| && staged[i].key == slot;
      HeldAt(staged, i);
      assert Fits(staged[i]) && ChunkLaid(image.bytes, staged[i], End(staged[..i]), timestamp);
      LaidIsRead(image, staged[i], End(staged[..i]), timestamp);
    } else {
      assert EntryAt(image.bytes, slot, 0, 0);
    }
  }

  /** Looking up any coordinate gives what its slot holds, and nothing outside the region. */
  lemma LookupIsRoundTrip(image: RegionImage, staged: seq<Staged>, timestamp: u32, x: i32, z: i32)
    requires image.Valid() && Stageable(staged) && Laid(image.bytes, staged, timestamp)
    ensures image.ChunkPayload(x, z) == Ok(PayloadOf(image.loc, Contents(staged), x, z))
  {
    LookupIsWalk(image, x, z);
    if image.loc.SlotOf(x, z).Ok? {
      SlotsAreCoordinates(image.loc, x, z);
      BuiltSlot(image, staged, timestamp, image.loc.SlotOf(x, z).value);
    }
  }

  /** The payload held for a coordinate; a coordinate of another region has none. */
  function PayloadOf(loc: RegionLoc, held: map<nat, seq<byte>>, x: i32, z: i32): Option<seq<byte>> {
    match loc.SlotOf(x, z)
    case Ok(slot) => if slot in held then Some(held[slot]) else None
    case Err(_) => None
  }

  // ----- from calls to reads -----

  /** The chunks held in slots `k` and up, in slot order, at their global coordinates. */
  function HeldChunks(image: RegionImage, held: map<nat, seq<byte>>, k: nat): seq<Result<Chunk, AnvilError>>
    decreases TABLE_ENTRIES - k
  {
    if k >= TABLE_ENTRIES then []
    else
      (if k in held then [Ok(Chunk(image.kind, image.loc.CoordAt(k).0, image.loc.CoordAt(k).1, held[k]))] else [])
      + HeldChunks(image, held, k + 1)
  }

  /** Walking a built image yields exactly the staged payloads, in slot order, at their global coordinates. */
  lemma {:induction false} WalkIsRoundTrip(image: RegionImage, staged: seq<Staged>, timestamp: u32, k: nat)
    requires Stageable(staged) && Laid(image.bytes, staged, timestamp)
    ensures Walk(image, k) == HeldChunks(image, Contents(staged), k)
    decreases TABLE_ENTRIES - k
  {
    if k < TABLE_ENTRIES {
      WalkIsRoundTrip(image, staged, timestamp, k + 1);
      BuiltSlot(image, staged, timestamp, k);
    }
  }

  /**
   Build a region by any calls and read the image back: the walk yields exactly the chunks
   the calls left, in slot order, and the lookup agrees for every coordinate.
   */
  method BuildAndRead(regionX: i32, regionZ: i32, kind: Kind, timestamp: u32, ops: seq<BuildOp>)
    returns (r: Result<RegionImage, AnvilError>)
    ensures r.Err? <==> Locate(regionX, regionZ).Err?
    ensures r.Err? ==> r.error == CoordinateOverflow(regionX, regionZ)
    ensures r.Ok? ==> r.value.loc == Locate(regionX, regionZ).value && r.value.kind == kind
    ensures r.Ok? ==> Items(r.value) == HeldChunks(r.value, Replayed(r.value.loc, ops), 0)
    ensures r.Ok? ==>
      forall x, z :: r.value.ChunkPayload(x, z) == Ok(PayloadOf(r.value.loc, Replayed(r.value.loc, ops), x, z))
  {
    var builder := RegionBuilder.Create(regionX, regionZ, timestamp);
    if builder.Err? { return Err(builder.error); }
    var b := builder.value;
    Replay(b, ops);
    var bytes := b.Image();
    r := FromBytes(bytes.value, regionX, regionZ, kind);
    WalkIsRoundTrip(r.value, b.staged, timestamp, 0);
    forall x, z ensures r.value.ChunkPayload(x, z) == Ok(PayloadOf(r.value.loc, Replayed(r.value.loc, ops), x, z)) {
      LookupIsRoundTrip(r.value, b.staged, timestamp, x, z);
    }
  }
}
