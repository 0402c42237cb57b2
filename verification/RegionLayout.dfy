/** Shared region-file layout: sector sizes, slots and global coordinates. */
module RegionLayout {
  import opened Base

  const SECTOR_LEN: nat := 4096
  const HEADER_LEN: nat := 8192
  const TABLE_ENTRIES: nat := 1024
  const ROW_WIDTH: nat := 32
  const FIRST_DATA_SECTOR: nat := 2
  const MAX_SECTORS_PER_CHUNK: nat := 255
  const MAX_SECTOR_OFFSET: nat := 0xFF_FFFF

  datatype AnvilError =
    | CoordinateOverflow(regionX: i32, regionZ: i32)
    | TruncatedFile(len: nat)
    | CorruptEntry(index: nat, offset: nat, sectors: nat)
    | CorruptChunk(index: nat, len: nat)
    | EmptyPayload
    | ChunkTooLarge(len: nat)
    | ImageTooLarge(sectors: nat)
    | WrongRegion(regionX: i32, regionZ: i32, x: i32, z: i32)

  predicate InI32(n: int) {
    -0x8000_0000 <= n < 0x8000_0000
  }

  /** 32-bit addition wraps; for table slots it never does. */
  function Wrap(n: int): i32 {
    (n + 0x8000_0000) % 0x1_0000_0000 - 0x8000_0000
  }

  /** First chunk coordinate of a region, when all 32 columns can be named. */
  function Origin(region: i32): Option<i32> {
    if InI32(region * 32) && InI32(region * 32 + 31) then Some(region * 32) else None
  }

  /** Where a region lies, and the coordinates of its first chunk. */
  datatype RegionLoc = RegionLoc(regionX: i32, regionZ: i32, baseX: i32, baseZ: i32) {

    predicate Valid() {
      Origin(regionX) == Some(baseX) && Origin(regionZ) == Some(baseZ)
    }

    /** The table slot of a global chunk coordinate; a difference that overflows is outside as well. */
    function SlotOf(x: i32, z: i32): Result<nat, AnvilError> {
      var dx := x - baseX;
      var dz := z - baseZ;
      if !InI32(dx) || !InI32(dz) || !(0 <= dx < ROW_WIDTH) || !(0 <= dz < ROW_WIDTH) then
        Err(WrongRegion(regionX, regionZ, x, z))
      else Ok(dx + ROW_WIDTH * dz)
    }

    function CoordAt(index: nat): (i32, i32) {
      (Wrap(baseX + index % ROW_WIDTH), Wrap(baseZ + index / ROW_WIDTH))
    }
  }

  function Locate(regionX: i32, regionZ: i32): Result<RegionLoc, AnvilError> {
    if Origin(regionX).None? || Origin(regionZ).None? then Err(CoordinateOverflow(regionX, regionZ))
    else Ok(RegionLoc(regionX, regionZ, Origin(regionX).value, Origin(regionZ).value))
  }

  /** A region is accepted exactly when every one of its chunks can be named. */
  lemma LocatedIsNameable(regionX: i32, regionZ: i32)
    ensures Locate(regionX, regionZ).Ok? <==>
      forall x, z | x / 32 == regionX && z / 32 == regionZ :: InI32(x) && InI32(z)
    ensures Locate(regionX, regionZ).Ok? ==> Locate(regionX, regionZ).value.Valid()
    ensures Locate(regionX, regionZ).Ok? <==>
      -67_108_864 <= regionX <= 67_108_863 && -67_108_864 <= regionZ <= 67_108_863
  {
    if Locate(regionX, regionZ).Err? {
      var x := if InI32(regionX * 32) then regionX * 32 + 31 else regionX * 32;
      var z := if InI32(regionZ * 32) then regionZ * 32 + 31 else regionZ * 32;
      assert x / 32 == regionX && z / 32 == regionZ && !(InI32(x) && InI32(z));
    }
  }

  /** Slots and the region's coordinates correspond one to one; every other coordinate is refused. */
  lemma SlotsAreCoordinates(loc: RegionLoc, x: i32, z: i32)
    requires loc.Valid()
    ensures loc.SlotOf(x, z).Ok? <==> x / 32 == loc.regionX && z / 32 == loc.regionZ
    ensures loc.SlotOf(x, z).Ok? ==>
      loc.SlotOf(x, z).value < TABLE_ENTRIES && loc.CoordAt(loc.SlotOf(x, z).value) == (x, z)
  {
    if x / 32 == loc.regionX && z / 32 == loc.regionZ {
      assert x - loc.baseX == x % 32 && z - loc.baseZ == z % 32;
    }
  }

  lemma CoordinatesAreSlots(loc: RegionLoc, index: nat)
    requires loc.Valid() && index < TABLE_ENTRIES
    ensures loc.CoordAt(index) == (loc.baseX + index % ROW_WIDTH, loc.baseZ + index / ROW_WIDTH)
    ensures loc.CoordAt(index).0 / 32 == loc.regionX && loc.CoordAt(index).1 / 32 == loc.regionZ
    ensures loc.SlotOf(loc.CoordAt(index).0, loc.CoordAt(index).1) == Ok(index)
  {
    assert 0 <= index % 32 < 32 && 0 <= index / 32 < 32;
    assert index == index % 32 + 32 * (index / 32);
  }

  /** An image is empty, or long enough for both tables. */
  function CheckImageLen(len: nat): Result<(), AnvilError> {
    if len == 0 then Ok(()) else if len < HEADER_LEN then Err(TruncatedFile(len)) else Ok(())
  }

  /** Sectors a stored payload takes with its four length bytes. */
  function SectorsFor(payloadLen: nat): Result<nat, AnvilError> {
    var sectors := (payloadLen + 4 + SECTOR_LEN - 1) / SECTOR_LEN;
    if sectors > MAX_SECTORS_PER_CHUNK then Err(ChunkTooLarge(payloadLen)) else Ok(sectors)
  }

  /** The sector count is the least that holds the payload; only what 255 sectors cannot hold is refused. */
  lemma SectorsFit(payloadLen: nat)
    ensures SectorsFor(payloadLen).Ok? <==> payloadLen + 4 <= 255 * SECTOR_LEN
    ensures SectorsFor(payloadLen).Ok? ==>
      var n := SectorsFor(payloadLen).value;
      1 <= n <= 255 && (n - 1) * SECTOR_LEN < payloadLen + 4 <= n * SECTOR_LEN
  {
  }
}
