/** Value types shared by every component: identifiers, coordinates, history records. */
module Base {

  datatype Option<+T> = None | Some(value: T)

  datatype Result<+T, +E> = Ok(value: T) | Err(error: E)

  type byte = b: int | 0 <= b < 0x100
  type i32 = n: int | -0x8000_0000 <= n < 0x8000_0000
  type u32 = n: nat | n < 0x1_0000_0000
  type u64 = n: nat | n < 0x1_0000_0000_0000_0000

  // A digest is 32 bytes. It is read as a big-endian number here, which keeps the
  // byte-wise order the program sorts identifiers by. The history graph only compares
  // commit identifiers, so they are plain numbers until they are hashed themselves.
  const DIGEST_LIMIT: nat := 0x1_0000000000000000_0000000000000000_0000000000000000_0000000000000000

  type Digest = n: nat | n < DIGEST_LIMIT
  type CommitId = int
  type ChunkHash = Digest
  type RefName = string

  datatype Kind = Region | Entities | Poi

  /** Global chunk identity. */
  datatype Coord = Coord(dim: i32, kind: Kind, x: i32, z: i32)

  /** Names a region file, which holds 32 by 32 chunks of a dimension and family. */
  datatype RegionKey = RegionKey(dim: i32, kind: Kind, rx: i32, rz: i32)

  function RegionOf(c: Coord): RegionKey {
    RegionKey(c.dim, c.kind, c.x / 32, c.z / 32)
  }

  /** One chunk fact staged for a commit; `None` is a tombstone. */
  datatype Entry = Entry(coord: Coord, blob: Option<ChunkHash>)

  /** One stored history row. */
  datatype Row = Row(coord: Coord, commit: CommitId, blob: Option<ChunkHash>)

  /** Recorded commit metadata: no parent for a root, several for a merge. */
  datatype Commit = Commit(id: CommitId, createdAtMs: u64, parents: seq<CommitId>)

  /** What a ref name stands for: a commit, or `None` while unborn. */
  datatype Ref = Ref(commit: Option<CommitId>, active: bool, createdAtMs: u64)

  /** The elements of a sequence. */
  function Elements<T>(s: seq<T>): set<T> {
    set x | x in s
  }

  /** Chunks by coordinate, as a scan finds them or a commit shows them. */
  type Chunks = map<Coord, ChunkHash>

  /** Stored payloads by content hash. */
  type BlobMap = map<ChunkHash, seq<byte>>

  /** The chunks present in a state, tombstones left out. */
  function Present(state: map<Coord, Option<ChunkHash>>): map<Coord, ChunkHash> {
    map p | p in state && state[p].Some? :: state[p].value
  }

  /** Two maps say the same about one key. */
  predicate AgreeAt<K, V(==)>(a: map<K, V>, b: map<K, V>, k: K) {
    (k in a <==> k in b) && (k in a ==> a[k] == b[k])
  }

  lemma MapsAgree<K(!new), V>(a: map<K, V>, b: map<K, V>)
    requires forall k :: AgreeAt(a, b, k)
    ensures a == b
  {
    forall k ensures k in a <==> k in b { assert AgreeAt(a, b, k); }
    forall k | k in a ensures a[k] == b[k] { assert AgreeAt(a, b, k); }
  }

  /** No element twice. */
  predicate Distinct<T(==)>(s: seq<T>) {
    forall i, j | 0 <= i < j < |s| :: s[i] != s[j]
  }

  predicate DistinctCoords(entries: seq<Entry>) {
    forall i, j | 0 <= i < j < |entries| :: entries[i].coord != entries[j].coord
  }

  /** The change a list of fresh rows stands for. */
  ghost function Delta(entries: seq<Entry>): (d: map<Coord, Option<ChunkHash>>)
    requires DistinctCoords(entries)
    ensures forall e | e in entries :: e.coord in d && d[e.coord] == e.blob
    ensures forall p | p in d :: exists e :: e in entries && e.coord == p
  {
    var coords := set e | e in entries :: e.coord;
    map p | p in coords :: EntryFor(entries, p).blob
  }

  ghost function EntryFor(entries: seq<Entry>, p: Coord): (e: Entry)
    requires exists e :: e in entries && e.coord == p
    ensures e in entries && e.coord == p
  {
    var e :| e in entries && e.coord == p;
    e
  }
}
