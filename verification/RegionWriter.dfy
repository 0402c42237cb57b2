/** Write-side construction of region images. */
module RegionWriter {
  import opened Base
  import opened Bytes
  import opened RegionLayout
  import opened SlotTable

  /** A payload under its table slot. */
  type Staged = Slot<seq<byte>>

  predicate Storable(payload: seq<byte>) {
    payload != [] && SectorsFor(|payload|).Ok?
  }

  predicate Fits(c: Staged) {
    c.key < TABLE_ENTRIES && Storable(c.value)
  }

  /** Staged chunks: strictly ascending table slots, storable payloads. */
  predicate Stageable(staged: seq<Staged>) {
    Ascending(staged) && forall i | 0 <= i < |staged| :: Fits(staged[i])
  }

  // ----- layout -----

  function Sectors(len: nat): nat {
    match SectorsFor(len) case Ok(n) => n case Err(_) => 0
  }

  /** First sector behind the runs of these chunks. */
  function End(staged: seq<Staged>): nat {
    if staged == [] then FIRST_DATA_SECTOR else End(staged[..|staged| - 1]) + Sectors(|staged[|staged| - 1].value|)
  }

  function Zeros(n: int): seq<byte> {
    seq(if n < 0 then 0 else n, _ => 0)
  }

  /** The stored form of a payload: length, bytes, padding to whole sectors. */
  function Run(payload: seq<byte>): seq<byte> {
    BigEndian(|payload|, 4) + payload + Zeros(Sectors(|payload|) * SECTOR_LEN - 4 - |payload|)
  }

  function Word(image: seq<byte>, at: nat): nat
    requires at + 4 <= |image|
  {
    Number(image[at..at + 4])
  }

  /** Location-table entry: 24 bits of sector offset, 8 bits of sector count. */
  function Location(offset: nat, sectors: nat): nat {
    offset * 0x100 + sectors
  }

  predicate EntryAt(image: seq<byte>, slot: nat, location: nat, timestamp: nat) {
    && HEADER_LEN <= |image| && slot < TABLE_ENTRIES
    && Word(image, 4 * slot) == location && Word(image, SECTOR_LEN + 4 * slot) == timestamp
  }

  predicate RunAt(image: seq<byte>, sector: nat, payload: seq<byte>) {
    var at := sector * SECTOR_LEN;
    HEADER_LEN <= at && at + |Run(payload)| <= |image| && image[at..at + |Run(payload)|] == Run(payload)
  }

  /** A chunk stands in the image: its table entries and, at `sector`, its run. */
  predicate ChunkLaid(image: seq<byte>, c: Staged, sector: nat, timestamp: u32) {
    RunAt(image, sector, c.value) && EntryAt(image, c.key, Location(sector, Sectors(|c.value|)), timestamp)
  }

  /** Every byte of the image: both tables, and the runs back to back from sector 2 to the end. */
  ghost predicate Laid(image: seq<byte>, staged: seq<Staged>, timestamp: u32) {
    && |image| == End(staged) * SECTOR_LEN && HEADER_LEN <= |image|
    && (forall i | 0 <= i < |staged| :: ChunkLaid(image, staged[i], End(staged[..i]), timestamp))
    && forall slot: nat | slot < TABLE_ENTRIES && Vacant(staged, slot) :: EntryAt(image, slot, 0, 0)
  }

  /** Every slot in use carries this time; a free one carries none. */
  predicate Stamped(image: seq<byte>, timestamp: u32) {
    && HEADER_LEN <= |image|
    && forall slot: nat | slot < TABLE_ENTRIES ::
         Word(image, SECTOR_LEN + 4 * slot) == if Word(image, 4 * slot) == 0 then 0 else timestamp
  }

  lemma LaidIsStamped(image: seq<byte>, staged: seq<Staged>, timestamp: u32)
    requires Stageable(staged) && Laid(image, staged, timestamp)
    ensures Stamped(image, timestamp)
  {
    forall slot: nat | slot < TABLE_ENTRIES
      ensures Word(image, SECTOR_LEN + 4 * slot) == if Word(image, 4 * slot) == 0 then 0 else timestamp
    {
      if i :| 0 <= i < |staged| && staged[i].key == slot {
        SlotIsUsed(image, staged, timestamp, i);
      } else {
        assert Vacant(staged, slot);
      }
    }
  }

  lemma SlotIsUsed(image: seq<byte>, staged: seq<Staged>, timestamp: u32, i: nat)
    requires Stageable(staged) && Laid(image, staged, timestamp) && i < |staged|
    ensures EntryAt(image, staged[i].key, Location(End(staged[..i]), Sectors(|staged[i].value|)), timestamp)
    ensures Location(End(staged[..i]), Sectors(|staged[i].value|)) != 0
  {
    RunBounds(staged, i);
    RunsFit(staged[..i]);
    assert ChunkLaid(image, staged[i], End(staged[..i]), timestamp);
  }

  // ----- bounds -----

  lemma {:induction false} RunsFit(staged: seq<Staged>)
    requires Stageable(staged)
    ensures FIRST_DATA_SECTOR <= End(staged) <= FIRST_DATA_SECTOR + 255 * |staged|
    decreases |staged|
  {
    if staged != [] {
      RunsFit(staged[..|staged| - 1]);
      assert Fits(staged[|staged| - 1]);
      SectorsFit(|staged[|staged| - 1].value|);
    }
  }

  lemma {:induction false} SlotsBound(staged: seq<Staged>)
    requires Stageable(staged) && staged != []
    ensures |staged| <= staged[|staged| - 1].key + 1
    decreases |staged|
  {
    if |staged| > 1 {
      SlotsBound(staged[..|staged| - 1]);
    }
  }

  /** At most 1024 chunks of at most 255 sectors end by sector 261122, below the 24-bit offset limit. */
  lemma ImageFits(staged: seq<Staged>)
    requires Stageable(staged)
    ensures |staged| <= TABLE_ENTRIES && End(staged) <= 261_122 <= MAX_SECTOR_OFFSET
  {
    RunsFit(staged);
    if staged != [] {
      SlotsBound(staged);
      assert Fits(staged[|staged| - 1]);
    }
  }

  /** Runs follow one another without gap or overlap. */
  lemma {:induction false} RunsInOrder(staged: seq<Staged>, i: nat, j: nat)
    requires i < j <= |staged|
    ensures End(staged[..i]) + Sectors(|staged[i].value|) <= End(staged[..j])
    ensures j == i + 1 ==> End(staged[..i]) + Sectors(|staged[i].value|) == End(staged[..j])
    decreases j
  {
    assert staged[..j][..j - 1] == staged[..j - 1];
    if i + 1 < j {
      RunsInOrder(staged, i, j - 1);
    }
  }

  lemma RunBounds(staged: seq<Staged>, k: nat)
    requires Stageable(staged) && k < |staged|
    ensures Stageable(staged[..k]) && staged[..k + 1] == staged[..k] + [staged[k]]
    ensures 4 + |staged[k].value| <= Sectors(|staged[k].value|) * SECTOR_LEN
    ensures End(staged[..k]) + Sectors(|staged[k].value|) == End(staged[..k + 1]) <= MAX_SECTOR_OFFSET
    ensures Location(End(staged[..k]), Sectors(|staged[k].value|)) < Span(4)
  {
    assert Fits(staged[k]);
    SectorsFit(|staged[k].value|);
    Spans();
    RunsInOrder(staged, k, k + 1);
    ImageFits(staged[..k + 1]);
  }

  // ----- in-place table writes -----

  function Splice(image: seq<byte>, at: nat, b: seq<byte>): (r: seq<byte>)
    requires at + |b| <= |image|
    ensures |r| == |image|
  {
    image[..at] + b + image[at + |b|..]
  }

  lemma SpliceKeeps(image: seq<byte>, at: nat, b: seq<byte>, lo: nat, hi: nat)
    requires at + |b| <= |image| && lo <= hi <= |image| && (hi <= at || at + |b| <= lo)
    ensures Splice(image, at, b)[lo..hi] == image[lo..hi]
  {
  }

  function Entered(image: seq<byte>, slot: nat, location: nat, timestamp: nat): (r: seq<byte>)
    requires HEADER_LEN <= |image| && slot < TABLE_ENTRIES
    ensures |r| == |image|
  {
    Splice(Splice(image, 4 * slot, BigEndian(location, 4)), SECTOR_LEN + 4 * slot, BigEndian(timestamp, 4))
  }

  lemma EnteredReads(image: seq<byte>, slot: nat, location: nat, timestamp: nat)
    requires HEADER_LEN <= |image| && slot < TABLE_ENTRIES && location < Span(4) && timestamp < Span(4)
    ensures EntryAt(Entered(image, slot, location, timestamp), slot, location, timestamp)
  {
    var once := Splice(image, 4 * slot, BigEndian(location, 4));
    SpliceKeeps(once, SECTOR_LEN + 4 * slot, BigEndian(timestamp, 4), 4 * slot, 4 * slot + 4);
    NumberOfBigEndian(location, 4);
    NumberOfBigEndian(timestamp, 4);
  }

  lemma EnteredKeeps(image: seq<byte>, slot: nat, location: nat, timestamp: nat, lo: nat, hi: nat)
    requires HEADER_LEN <= |image| && slot < TABLE_ENTRIES && lo <= hi <= |image|
    requires hi <= 4 * slot || (4 * slot + 4 <= lo && hi <= SECTOR_LEN + 4 * slot) || SECTOR_LEN + 4 * slot + 4 <= lo
    ensures Entered(image, slot, location, timestamp)[lo..hi] == image[lo..hi]
  {
    SpliceKeeps(image, 4 * slot, BigEndian(location, 4), lo, hi);
    SpliceKeeps(Splice(image, 4 * slot, BigEndian(location, 4)), SECTOR_LEN + 4 * slot, BigEndian(timestamp, 4), lo,
                hi);
  }

  lemma AppendKeeps(a: seq<byte>, b: seq<byte>, lo: nat, hi: nat)
    requires lo <= hi <= |a|
    ensures (a + b)[lo..hi] == a[lo..hi]
  {
  }

  /** A table entry stays when another slot is entered and bytes are appended. */
  lemma EntryStays(image: seq<byte>, slot: nat, location: nat, timestamp: nat, tail: seq<byte>, other: nat, was: nat,
                   stamp: nat)
    requires EntryAt(image, other, was, stamp) && slot < TABLE_ENTRIES && slot != other
    ensures EntryAt(Entered(image, slot, location, timestamp) + tail, other, was, stamp)
  {
    var head := Entered(image, slot, location, timestamp);
    EnteredKeeps(image, slot, location, timestamp, 4 * other, 4 * other + 4);
    EnteredKeeps(image, slot, location, timestamp, SECTOR_LEN + 4 * other, SECTOR_LEN + 4 * other + 4);
    AppendKeeps(head, tail, 4 * other, 4 * other + 4);
    AppendKeeps(head, tail, SECTOR_LEN + 4 * other, SECTOR_LEN + 4 * other + 4);
  }

  lemma RunStays(image: seq<byte>, slot: nat, location: nat, timestamp: nat, tail: seq<byte>, sector: nat,
                 payload: seq<byte>)
    requires HEADER_LEN <= |image| && RunAt(image, sector, payload) && slot < TABLE_ENTRIES
    ensures RunAt(Entered(image, slot, location, timestamp) + tail, sector, payload)
  {
    var at := sector * SECTOR_LEN;
    EnteredKeeps(image, slot, location, timestamp, at, at + |Run(payload)|);
    AppendKeeps(Entered(image, slot, location, timestamp), tail, at, at + |Run(payload)|);
  }

  /** The entry and the run just written are there. */
  lemma ChunkEntered(image: seq<byte>, c: Staged, sector: nat, timestamp: u32)
    requires HEADER_LEN <= |image| == sector * SECTOR_LEN && c.key < TABLE_ENTRIES
    requires Location(sector, Sectors(|c.value|)) < Span(4)
    ensures ChunkLaid(Entered(image, c.key, Location(sector, Sectors(|c.value|)), timestamp) + Run(c.value), c, sector,
                      timestamp)
  {
    var location := Location(sector, Sectors(|c.value|));
    var head := Entered(image, c.key, location, timestamp);
    var tail := Run(c.value);
    Spans();
    EnteredReads(image, c.key, location, timestamp);
    AppendKeeps(head, tail, 4 * c.key, 4 * c.key + 4);
    AppendKeeps(head, tail, SECTOR_LEN + 4 * c.key, SECTOR_LEN + 4 * c.key + 4);
    assert (head + tail)[|head|..|head| + |tail|] == tail;
  }

  /** One pass of the image loop lays out one more chunk. */
  lemma OneMoreLaid(image: seq<byte>, now: seq<Staged>, c: Staged, timestamp: u32)
    requires Laid(image, now, timestamp) && Ascending(now + [c]) && Fits(c)
    requires Location(End(now), Sectors(|c.value|)) < Span(4)
    ensures Laid(Entered(image, c.key, Location(End(now), Sectors(|c.value|)), timestamp) + Run(c.value), now + [c],
                 timestamp)
  {
    var next := now + [c];
    var location := Location(End(now), Sectors(|c.value|));
    var out := Entered(image, c.key, location, timestamp) + Run(c.value);
    assert next[..|now|] == now && next[|now|] == c;
    ChunkEntered(image, c, End(now), timestamp);
    forall i | 0 <= i < |now| ensures ChunkLaid(out, next[i], End(next[..i]), timestamp) {
      assert next[i] == now[i] && next[..i] == now[..i] && now[i].key < next[|now|].key;
      EntryStays(image, c.key, location, timestamp, Run(c.value), now[i].key,
                 Location(End(now[..i]), Sectors(|now[i].value|)), timestamp);
      RunStays(image, c.key, location, timestamp, Run(c.value), End(now[..i]), now[i].value);
    }
    forall slot: nat | slot < TABLE_ENTRIES && Vacant(next, slot) ensures EntryAt(out, slot, 0, 0) {
      assert next[|now|].key != slot;
      assert forall i | 0 <= i < |now| :: next[i] == now[i];
      assert Vacant(now, slot);
      EntryStays(image, c.key, location, timestamp, Run(c.value), slot, 0, 0);
    }
  }

  lemma EmptyIsLaid(timestamp: u32)
    ensures Laid(Zeros(HEADER_LEN), [], timestamp)
  {
    forall at: nat | at + 4 <= HEADER_LEN ensures Word(Zeros(HEADER_LEN), at) == 0 {
      NumberOfBigEndian(0, 4);
      var b := Zeros(HEADER_LEN)[at..at + 4];
      assert b == [0, 0, 0, 0] == BigEndian(0, 4);
    }
  }

  // ----- the layout leaves no byte open -----

  lemma SameWord(a: seq<byte>, b: seq<byte>, at: nat)
    requires at + 4 <= |a| && at + 4 <= |b| && Word(a, at) == Word(b, at)
    ensures a[at..at + 4] == b[at..at + 4]
  {
    NumberWrites(a[at..at + 4]);
    NumberWrites(b[at..at + 4]);
  }

  lemma SameEntries(a: seq<byte>, b: seq<byte>, slot: nat, location: nat, timestamp: nat)
    requires EntryAt(a, slot, location, timestamp) && EntryAt(b, slot, location, timestamp)
    ensures a[4 * slot..4 * slot + 4] == b[4 * slot..4 * slot + 4]
    ensures a[SECTOR_LEN + 4 * slot..SECTOR_LEN + 4 * slot + 4] == b[SECTOR_LEN + 4 * slot..SECTOR_LEN + 4 * slot + 4]
  {
    SameWord(a, b, 4 * slot);
    SameWord(a, b, SECTOR_LEN + 4 * slot);
  }

  lemma SameEntry(a: seq<byte>, b: seq<byte>, staged: seq<Staged>, timestamp: u32, slot: nat)
    requires Laid(a, staged, timestamp) && Laid(b, staged, timestamp) && slot < TABLE_ENTRIES
    ensures a[4 * slot..4 * slot + 4] == b[4 * slot..4 * slot + 4]
    ensures a[SECTOR_LEN + 4 * slot..SECTOR_LEN + 4 * slot + 4] == b[SECTOR_LEN + 4 * slot..SECTOR_LEN + 4 * slot + 4]
  {
    if i :| 0 <= i < |staged| && staged[i].key == slot {
      SameEntries(a, b, slot, Location(End(staged[..i]), Sectors(|staged[i].value|)), timestamp);
    } else {
      assert Vacant(staged, slot);
      SameEntries(a, b, slot, 0, 0);
    }
  }

  lemma SameHeader(a: seq<byte>, b: seq<byte>, staged: seq<Staged>, timestamp: u32)
    requires Laid(a, staged, timestamp) && Laid(b, staged, timestamp)
    ensures a[..HEADER_LEN] == b[..HEADER_LEN]
  {
    forall x | 0 <= x < HEADER_LEN ensures a[x] == b[x] {
      SameHeaderByte(a, b, staged, timestamp, x);
    }
  }

  lemma SameHeaderByte(a: seq<byte>, b: seq<byte>, staged: seq<Staged>, timestamp: u32, x: nat)
    requires Laid(a, staged, timestamp) && Laid(b, staged, timestamp) && x < HEADER_LEN
    ensures a[x] == b[x]
  {
    var base := if x < SECTOR_LEN then 0 else SECTOR_LEN;
    var slot := (x - base) / 4;
    SameEntry(a, b, staged, timestamp, slot);
    SameByte(a, b, base + 4 * slot, base + 4 * slot + 4, x);
  }

  lemma SameByte(a: seq<byte>, b: seq<byte>, lo: nat, hi: nat, x: nat)
    requires lo <= x < hi <= |a| && hi <= |b| && a[lo..hi] == b[lo..hi]
    ensures a[x] == b[x]
  {
    assert a[x] == a[lo..hi][x - lo] && b[x] == b[lo..hi][x - lo];
  }

  lemma {:induction false} SamePrefix(a: seq<byte>, b: seq<byte>, staged: seq<Staged>, timestamp: u32, k: nat)
    requires Stageable(staged) && Laid(a, staged, timestamp) && Laid(b, staged, timestamp) && k <= |staged|
    ensures var n := End(staged[..k]) * SECTOR_LEN; n <= |a| && n <= |b| && a[..n] == b[..n]
    decreases k
  {
    if k == 0 {
      SameHeader(a, b, staged, timestamp);
    } else {
      SamePrefix(a, b, staged, timestamp, k - 1);
      SameRun(a, b, staged, timestamp, k - 1);
      JoinedPrefix(a, b, End(staged[..k - 1]) * SECTOR_LEN, End(staged[..k]) * SECTOR_LEN);
    }
  }

  lemma SameRun(a: seq<byte>, b: seq<byte>, staged: seq<Staged>, timestamp: u32, k: nat)
    requires Stageable(staged) && Laid(a, staged, timestamp) && Laid(b, staged, timestamp) && k < |staged|
    ensures var m, n := End(staged[..k]) * SECTOR_LEN, End(staged[..k + 1]) * SECTOR_LEN;
      m <= n <= |a| && n <= |b| && a[m..n] == b[m..n]
  {
    NextFits(staged, k);
    assert ChunkLaid(a, staged[k], End(staged[..k]), timestamp) && ChunkLaid(b, staged[k], End(staged[..k]), timestamp);
    SameRunAt(a, b, End(staged[..k]), staged[k].value, End(staged[..k + 1]));
  }

  lemma SameRunAt(a: seq<byte>, b: seq<byte>, sector: nat, payload: seq<byte>, next: nat)
    requires RunAt(a, sector, payload) && RunAt(b, sector, payload) && Storable(payload)
    requires next == sector + Sectors(|payload|)
    ensures sector * SECTOR_LEN <= next * SECTOR_LEN <= |a| && next * SECTOR_LEN <= |b|
    ensures a[sector * SECTOR_LEN..next * SECTOR_LEN] == b[sector * SECTOR_LEN..next * SECTOR_LEN]
  {
  }

  lemma JoinedPrefix(a: seq<byte>, b: seq<byte>, m: nat, n: nat)
    requires m <= n <= |a| && n <= |b| && a[..m] == b[..m] && a[m..n] == b[m..n]
    ensures a[..n] == b[..n]
  {
    assert a[..n] == a[..m] + a[m..n] && b[..n] == b[..m] + b[m..n];
  }

  /** The staged chunks and the timestamp determine every byte of the image. */
  lemma LayoutIsUnique(a: seq<byte>, b: seq<byte>, staged: seq<Staged>, timestamp: u32)
    requires Stageable(staged) && Laid(a, staged, timestamp) && Laid(b, staged, timestamp)
    ensures a == b
  {
    SamePrefix(a, b, staged, timestamp, |staged|);
    assert staged[..|staged|] == staged;
    assert a[..|a|] == a && b[..|b|] == b;
  }

  // ----- whole runs of a builder -----

  datatype BuildOp = Stage(x: i32, z: i32, payload: seq<byte>) | Forget(x: i32, z: i32)

  /** What one builder call does to the slots; refused calls do nothing. */
  function Applied(loc: RegionLoc, held: map<nat, seq<byte>>, op: BuildOp): map<nat, seq<byte>> {
    if loc.SlotOf(op.x, op.z).Err? then held
    else
      match op
      case Stage(x, z, payload) => if Storable(payload) then held[loc.SlotOf(x, z).value := payload] else held
      case Forget(x, z) => held - {loc.SlotOf(x, z).value}
  }

  function Replayed(loc: RegionLoc, ops: seq<BuildOp>): map<nat, seq<byte>> {
    if ops == [] then map[] else Applied(loc, Replayed(loc, ops[..|ops| - 1]), ops[|ops| - 1])
  }

  /** The call took effect on this slot. */
  predicate Touches(loc: RegionLoc, op: BuildOp, slot: nat) {
    loc.SlotOf(op.x, op.z) == Ok(slot) && (op.Stage? ==> Storable(op.payload))
  }

  predicate NoneTouches(loc: RegionLoc, ops: seq<BuildOp>, slot: nat) {
    forall i | 0 <= i < |ops| :: !Touches(loc, ops[i], slot)
  }

  /** A slot no call touched holds what it held before. */
  lemma {:induction false} UntouchedStays(loc: RegionLoc, before: seq<BuildOp>, ops: seq<BuildOp>, slot: nat)
    requires NoneTouches(loc, ops, slot)
    ensures slot in Replayed(loc, before + ops) <==> slot in Replayed(loc, before)
    ensures slot in Replayed(loc, before) ==> Replayed(loc, before + ops)[slot] == Replayed(loc, before)[slot]
    decreases |ops|
  {
    if ops == [] {
      assert before + ops == before;
    } else {
      var n := |ops| - 1;
      assert (before + ops)[..|before| + n] == before + ops[..n];
      assert !Touches(loc, ops[n], slot);
      UntouchedStays(loc, before, ops[..n], slot);
    }
  }

  /** After any calls a slot holds the payload of the last call that touched it, if that call staged one. */
  lemma LastCallWins(loc: RegionLoc, before: seq<BuildOp>, op: BuildOp, after: seq<BuildOp>, slot: nat)
    requires Touches(loc, op, slot) && NoneTouches(loc, after, slot)
    ensures slot in Replayed(loc, before + [op] + after) <==> op.Stage?
    ensures op.Stage? ==> Replayed(loc, before + [op] + after)[slot] == op.payload
  {
    UntouchedStays(loc, before + [op], after, slot);
    assert (before + [op])[..|before|] == before;
  }

  // ----- the builder -----

  class RegionBuilder {
    const loc: RegionLoc
    const timestamp: u32
    var staged: seq<Staged>

    ghost predicate Valid()
      reads this
    {
      loc.Valid() && Stageable(staged)
    }

    constructor (loc: RegionLoc, timestamp: u32)
      requires loc.Valid()
      ensures Valid() && staged == [] && this.loc == loc && this.timestamp == timestamp
    {
      this.loc := loc;
      this.timestamp := timestamp;
      this.staged := [];
    }

    /** A builder for one region; only coordinates that overflow are refused. */
    static method Create(regionX: i32, regionZ: i32, timestamp: u32) returns (r: Result<RegionBuilder, AnvilError>)
      ensures r.Err? <==> Locate(regionX, regionZ).Err?
      ensures r.Err? ==> r.error == CoordinateOverflow(regionX, regionZ)
      ensures r.Ok? ==> fresh(r.value) && r.value.Valid() && Contents(r.value.staged) == map[]
                        && r.value.loc == Locate(regionX, regionZ).value && r.value.timestamp == timestamp
    {
      LocatedIsNameable(regionX, regionZ);
      match Locate(regionX, regionZ)
      case Err(e) => return Err(e);
      case Ok(loc) =>
        var b := new RegionBuilder(loc, timestamp);
        return Ok(b);
    }

    /** Add or replace a payload. */
    method StageChunk(x: i32, z: i32, payload: seq<byte>) returns (r: Result<(), AnvilError>)
      requires Valid()
      modifies this
      ensures Valid()
      ensures payload == [] ==> r == Err(EmptyPayload)
      ensures payload != [] && SectorsFor(|payload|).Err? ==> r == Err(ChunkTooLarge(|payload|))
      ensures Storable(payload) && loc.SlotOf(x, z).Err? ==> r == Err(WrongRegion(loc.regionX, loc.regionZ, x, z))
      ensures Storable(payload) && loc.SlotOf(x, z).Ok? ==> r == Ok(())
      ensures Contents(staged) == Applied(loc, old(Contents(staged)), Stage(x, z, payload))
      ensures r.Err? ==> staged == old(staged)
    {
      if payload == [] { return Err(EmptyPayload); }
      if SectorsFor(|payload|).Err? { return Err(SectorsFor(|payload|).error); }
      match loc.SlotOf(x, z)
      case Err(e) => return Err(e);
      case Ok(slot) =>
        SlotsAreCoordinates(loc, x, z);
        staged := Put(staged, Slot(slot, payload));
        return Ok(());
    }

    /** Forget a staged chunk; removing one that is not staged is not an error. */
    method RemoveChunk(x: i32, z: i32) returns (r: Result<(), AnvilError>)
      requires Valid()
      modifies this
      ensures Valid()
      ensures loc.SlotOf(x, z).Err? ==> r == Err(WrongRegion(loc.regionX, loc.regionZ, x, z)) && staged == old(staged)
      ensures loc.SlotOf(x, z).Ok? ==> r == Ok(())
      ensures Contents(staged) == Applied(loc, old(Contents(staged)), Forget(x, z))
    {
      match loc.SlotOf(x, z)
      case Err(e) => return Err(e);
      case Ok(slot) =>
        staged := Remove(staged, slot);
        return Ok(());
    }

    /** The complete image; the size checks never refuse what was staged. */
    method Image() returns (r: Result<seq<byte>, AnvilError>)
      requires Valid()
      ensures r.Ok? && Laid(r.value, staged, timestamp)
    {
      r := Assemble(staged, timestamp);
    }
  }

  /** Make these calls in order; a refused call changes nothing. */
  method Replay(b: RegionBuilder, ops: seq<BuildOp>)
    requires b.Valid() && Contents(b.staged) == map[]
    modifies b
    ensures b.Valid() && Contents(b.staged) == Replayed(b.loc, ops)
  {
    for i := 0 to |ops|
      invariant b.Valid() && Contents(b.staged) == Replayed(b.loc, ops[..i])
    {
      assert ops[..i + 1][..i] == ops[..i];
      match ops[i] {
        case Stage(x, z, payload) => var _ := b.StageChunk(x, z, payload);
        case Forget(x, z) => var _ := b.RemoveChunk(x, z);
      }
    }
    assert ops[..|ops|] == ops;
  }

  /** Header first, then one run per chunk behind the last one. */
  method Assemble(staged: seq<Staged>, timestamp: u32) returns (r: Result<seq<byte>, AnvilError>)
    requires Stageable(staged)
    ensures r.Ok? && Laid(r.value, staged, timestamp)
  {
    var image := Zeros(HEADER_LEN);
    var offset := FIRST_DATA_SECTOR;
    EmptyIsLaid(timestamp);
    for k := 0 to |staged|
      invariant Laid(image, staged[..k], timestamp)
      invariant offset == End(staged[..k])
    {
      NextFits(staged, k);
      var tooLarge := Err(ImageTooLarge(offset));
      var sectors;
      match SectorsFor(|staged[k].value|) {
        case Err(e) => return Err(e);
        case Ok(n) => sectors := n;
      }
      if offset + sectors > MAX_SECTOR_OFFSET { return tooLarge; }
      OneMoreLaid(image, staged[..k], staged[k], timestamp);
      image := Place(image, staged[k], offset, sectors, timestamp);
      offset := offset + sectors;
    }
    assert staged[..|staged|] == staged;
    return Ok(image);
  }

  /** Fill in both table entries and append the run. */
  method Place(image: seq<byte>, c: Staged, offset: nat, sectors: nat, timestamp: u32) returns (out: seq<byte>)
    requires HEADER_LEN <= |image| && Fits(c) && sectors == Sectors(|c.value|)
    ensures out == Entered(image, c.key, Location(offset, sectors), timestamp) + Run(c.value)
  {
    out := Splice(image, 4 * c.key, BigEndian(Location(offset, sectors), 4));
    out := Splice(out, SECTOR_LEN + 4 * c.key, BigEndian(timestamp, 4));
    out := out + (BigEndian(|c.value|, 4) + c.value + Zeros(sectors * SECTOR_LEN - 4 - |c.value|));
  }

  lemma NextFits(staged: seq<Staged>, k: nat)
    requires Stageable(staged) && k < |staged|
    ensures Fits(staged[k]) && Ascending(staged[..k] + [staged[k]]) && staged[..k + 1] == staged[..k] + [staged[k]]
    ensures End(staged[..k]) + Sectors(|staged[k].value|) == End(staged[..k + 1]) <= MAX_SECTOR_OFFSET
    ensures Location(End(staged[..k]), Sectors(|staged[k].value|)) < Span(4)
  {
    RunBounds(staged, k);
    assert Ascending(staged[..k + 1]);
  }

  /** Insert or replace in slot order. */
  method Put(staged: seq<Staged>, c: Staged) returns (out: seq<Staged>)
    requires Stageable(staged) && Fits(c)
    ensures Stageable(out) && Contents(out) == Contents(staged)[c.key := c.value]
  {
    var found, index := Find(staged, c.key);
    if found {
      ReplaceSets(staged, index, c);
      out := staged[index := c];
    } else {
      InsertSets(staged, index, c);
      out := staged[..index] + [c] + staged[index..];
    }
  }

  method Remove(staged: seq<Staged>, slot: nat) returns (out: seq<Staged>)
    requires Stageable(staged)
    ensures Stageable(out) && Contents(out) == Contents(staged) - {slot}
  {
    var found, index := Find(staged, slot);
    if found {
      DropClears(staged, index);
      out := staged[..index] + staged[index + 1..];
    } else {
      VacantIsAbsent(staged, slot);
      assert Vacant(staged, slot) by {
        assert staged[..index] + staged[index..] == staged;
      }
      out := staged;
    }
  }
}
