/**
 The content address of a commit: a digest of a canonical byte encoding of its parents,
 time and delta. The digest function itself is a parameter.
 */
module CommitHash {
  import opened Base
  import opened Bytes
  import opened Order

  // "sekai-commit-v1" and a zero byte.
  const DOMAIN: seq<byte> :=
    [0x73, 0x65, 0x6b, 0x61, 0x69, 0x2d, 0x63, 0x6f, 0x6d, 0x6d, 0x69, 0x74, 0x2d, 0x76, 0x31, 0]

  const U64_MAX: nat := 0xFFFF_FFFF_FFFF_FFFF

  // ----- the orders entries are sorted by -----

  function KindCode(k: Kind): byte {
    match k
    case Region => 0
    case Entities => 1
    case Poi => 2
  }

  predicate CoordLess(a: Coord, b: Coord) {
    a.dim < b.dim || (a.dim == b.dim && (
    KindCode(a.kind) < KindCode(b.kind) || (a.kind == b.kind && (
    a.x < b.x || (a.x == b.x && a.z < b.z)))))
  }

  predicate BlobLess(a: Option<ChunkHash>, b: Option<ChunkHash>) {
    b.Some? && (a.None? || a.value < b.value)
  }

  predicate EntryLess(a: Entry, b: Entry) {
    CoordLess(a.coord, b.coord) || (a.coord == b.coord && BlobLess(a.blob, b.blob))
  }

  predicate IdLess(a: Digest, b: Digest) {
    a < b
  }

  /** The first field that differs decides: dimension, family, x, z. */
  lemma CoordsAreOrderedByField(a: Coord, b: Coord)
    ensures a.dim < b.dim ==> CoordLess(a, b)
    ensures a.dim == b.dim && a.kind.Region? && !b.kind.Region? ==> CoordLess(a, b)
    ensures a.dim == b.dim && a.kind.Entities? && b.kind.Poi? ==> CoordLess(a, b)
    ensures a.dim == b.dim && a.kind == b.kind && a.x < b.x ==> CoordLess(a, b)
    ensures a.dim == b.dim && a.kind == b.kind && a.x == b.x ==> (CoordLess(a, b) <==> a.z < b.z)
    ensures CoordLess(a, b) ==> !CoordLess(b, a)
  {
  }

  /** Entries of one coordinate: the tombstone first, then by digest. */
  lemma EntriesAreOrderedByCoord(a: Entry, b: Entry)
    ensures CoordLess(a.coord, b.coord) ==> EntryLess(a, b)
    ensures a.coord == b.coord && a.blob.None? ==> (EntryLess(a, b) <==> b.blob.Some?)
    ensures a.coord == b.coord && a.blob.Some? && b.blob.Some? ==> (EntryLess(a, b) <==> a.blob.value < b.blob.value)
    ensures EntryLess(a, b) ==> !EntryLess(b, a)
  {
  }

  lemma EntriesAreOrdered()
    ensures StrictOrder(EntryLess) && StrictOrder(IdLess)
  {
  }

  // ----- the encoding -----

  /** A list length as eight bytes, saturating. */
  function CountBytes(n: nat): seq<byte> {
    BigEndian(if n <= U64_MAX then n else U64_MAX, 8)
  }

  /** A list longer than eight bytes can count is hashed as one of the greatest length. */
  lemma CountsSaturate(n: nat)
    ensures n <= 0xFFFF_FFFF_FFFF_FFFF ==> CountBytes(n) == BigEndian(n, 8)
    ensures n >= 0xFFFF_FFFF_FFFF_FFFF ==> CountBytes(n) == BigEndian(0xFFFF_FFFF_FFFF_FFFF, 8)
  {
  }

  /** A signed 32-bit number in two's complement. */
  function I32Bytes(n: i32): seq<byte> {
    BigEndian(if n < 0 then n + 0x1_0000_0000 else n, 4)
  }

  function BlobBytes(b: Option<ChunkHash>): seq<byte> {
    match b
    case None => [0]
    case Some(h) => [1] + BigEndian(h, 32)
  }

  function EntryBytes(e: Entry): seq<byte> {
    I32Bytes(e.coord.dim) + [KindCode(e.coord.kind)] + I32Bytes(e.coord.x) + I32Bytes(e.coord.z) + BlobBytes(e.blob)
  }

  function IdsBytes(s: seq<Digest>): seq<byte> {
    if s == [] then [] else IdsBytes(s[..|s| - 1]) + BigEndian(s[|s| - 1], 32)
  }

  function EntriesBytes(s: seq<Entry>): seq<byte> {
    if s == [] then [] else EntriesBytes(s[..|s| - 1]) + EntryBytes(s[|s| - 1])
  }

  /** The bytes that are hashed, for canonical lists. */
  function Encoded(parents: seq<Digest>, createdAtMs: u64, entries: seq<Entry>): seq<byte> {
    DOMAIN + (CountBytes(|parents|) + (IdsBytes(parents) + (BigEndian(createdAtMs, 8)
    + (CountBytes(|entries|) + EntriesBytes(entries)))))
  }

  function Preimage(parents: seq<Digest>, createdAtMs: u64, entries: seq<Entry>): seq<byte> {
    Encoded(Canonical(parents, IdLess), createdAtMs, Canonical(entries, EntryLess))
  }

  /** Sort and deduplicate copies of both lists, lay them out in one buffer, hash it. */
  method Compute(digest: seq<byte> -> Digest, parents: seq<Digest>, createdAtMs: u64, entries: seq<Entry>)
    returns (id: Digest)
    ensures id == digest(Preimage(parents, createdAtMs, entries))
  {
    var sortedParents := Canonical(parents, IdLess);
    var sortedEntries := Canonical(entries, EntryLess);
    var input := DOMAIN + CountBytes(|sortedParents|);
    input := PushIds(input, sortedParents);
    input := input + BigEndian(createdAtMs, 8);
    input := input + CountBytes(|sortedEntries|);
    input := PushEntries(input, sortedEntries);
    Regroup(DOMAIN, CountBytes(|sortedParents|), IdsBytes(sortedParents), BigEndian(createdAtMs, 8),
            CountBytes(|sortedEntries|), EntriesBytes(sortedEntries));
    id := digest(input);
  }

  method PushIds(before: seq<byte>, ids: seq<Digest>) returns (input: seq<byte>)
    ensures input == before + IdsBytes(ids)
  {
    input := before;
    for i := 0 to |ids|
      invariant input == before + IdsBytes(ids[..i])
    {
      assert ids[..i + 1][..i] == ids[..i];
      input := input + BigEndian(ids[i], 32);
    }
    assert ids[..|ids|] == ids;
  }

  method PushEntries(before: seq<byte>, entries: seq<Entry>) returns (input: seq<byte>)
    ensures input == before + EntriesBytes(entries)
  {
    input := before;
    for i := 0 to |entries|
      invariant input == before + EntriesBytes(entries[..i])
    {
      EntriesBytesGrow(entries, i);
      Regroup3(before, EntriesBytes(entries[..i]), EntryBytes(entries[i]));
      input := PushEntry(input, entries[i]);
    }
    assert entries[..|entries|] == entries;
  }

  lemma EntriesBytesGrow(s: seq<Entry>, i: nat)
    requires i < |s|
    ensures EntriesBytes(s[..i + 1]) == EntriesBytes(s[..i]) + EntryBytes(s[i])
  {
    assert s[..i + 1][..i] == s[..i];
  }

  lemma Regroup3(a: seq<byte>, b: seq<byte>, c: seq<byte>)
    ensures a + b + c == a + (b + c)
  {
  }

  lemma Regroup(a: seq<byte>, b: seq<byte>, c: seq<byte>, d: seq<byte>, e: seq<byte>, f: seq<byte>)
    ensures a + b + c + d + e + f == a + (b + (c + (d + (e + f))))
  {
  }

  /** Append one entry field by field, with a tag byte that tells a tombstone from a blob of any hash. */
  method PushEntry(before: seq<byte>, e: Entry) returns (input: seq<byte>)
    ensures input == before + EntryBytes(e)
  {
    input := before + I32Bytes(e.coord.dim);
    input := input + [KindCode(e.coord.kind)];
    input := input + I32Bytes(e.coord.x);
    input := input + I32Bytes(e.coord.z);
    match e.blob {
      case Some(h) =>
        input := input + [1];
        input := input + BigEndian(h, 32);
      case None =>
        input := input + [0];
    }
  }

  // ----- reading the encoding back -----

  /** The number in the first `k` bytes and what follows them. */
  function TakeNumber(b: seq<byte>, k: nat): Option<(nat, seq<byte>)> {
    if |b| < k then None else Some((Number(b[..k]), b[k..]))
  }

  function TakeI32(b: seq<byte>): Option<(i32, seq<byte>)> {
    match TakeNumber(b, 4)
    case None => None
    case Some((n, rest)) =>
      if n < 0x8000_0000 then Some((n, rest))
      else if n < 0x1_0000_0000 then Some((n - 0x1_0000_0000, rest))
      else None
  }

  function TakeId(b: seq<byte>): Option<(Digest, seq<byte>)> {
    match TakeNumber(b, 32)
    case None => None
    case Some((n, rest)) => if n < DIGEST_LIMIT then Some((n, rest)) else None
  }

  function KindOf(code: nat): Option<Kind> {
    if code == 0 then Some(Region) else if code == 1 then Some(Entities) else if code == 2 then Some(Poi) else None
  }

  function TakeBlob(b: seq<byte>): Option<(Option<ChunkHash>, seq<byte>)> {
    if b == [] then None
    else if b[0] == 0 then Some((None, b[1..]))
    else if b[0] == 1 then
      match TakeId(b[1..])
      case None => None
      case Some((h, rest)) => Some((Some(h), rest))
    else None
  }

  function TakeEntry(b: seq<byte>): Option<(Entry, seq<byte>)> {
    match TakeI32(b)
    case None => None
    case Some((dim, b1)) =>
      if b1 == [] then None else
      match KindOf(b1[0])
      case None => None
      case Some(kind) =>
        match TakeI32(b1[1..])
        case None => None
        case Some((x, b2)) =>
          match TakeI32(b2)
          case None => None
          case Some((z, b3)) =>
            match TakeBlob(b3)
            case None => None
            case Some((blob, rest)) => Some((Entry(Coord(dim, kind, x, z), blob), rest))
  }

  function TakeIds(b: seq<byte>, n: nat): Option<(seq<Digest>, seq<byte>)> {
    if n == 0 then Some(([], b)) else
      match TakeId(b)
      case None => None
      case Some((id, b1)) =>
        match TakeIds(b1, n - 1)
        case None => None
        case Some((ids, rest)) => Some(([id] + ids, rest))
  }

  function TakeEntries(b: seq<byte>, n: nat): Option<(seq<Entry>, seq<byte>)> {
    if n == 0 then Some(([], b)) else
      match TakeEntry(b)
      case None => None
      case Some((e, b1)) =>
        match TakeEntries(b1, n - 1)
        case None => None
        case Some((es, rest)) => Some(([e] + es, rest))
  }

  datatype Content = Content(parents: seq<Digest>, createdAtMs: nat, entries: seq<Entry>)

  /** Recover the logical commit from the hashed bytes. */
  function Decode(b: seq<byte>): Option<Content> {
    if !(DOMAIN <= b) then None else
    match TakeNumber(b[|DOMAIN|..], 8)
    case None => None
    case Some((parentCount, b1)) =>
      match TakeIds(b1, parentCount)
      case None => None
      case Some((parents, b2)) =>
        match TakeNumber(b2, 8)
        case None => None
        case Some((time, b3)) =>
          match TakeNumber(b3, 8)
          case None => None
          case Some((entryCount, b4)) =>
            match TakeEntries(b4, entryCount)
            case None => None
            case Some((entries, rest)) => if rest == [] then Some(Content(parents, time, entries)) else None
  }

  lemma TakeNumberBack(n: nat, k: nat, rest: seq<byte>)
    requires n < Span(k)
    ensures TakeNumber(BigEndian(n, k) + rest, k) == Some((n, rest))
  {
    NumberOfBigEndian(n, k);
    var b := BigEndian(n, k) + rest;
    assert b[..k] == BigEndian(n, k) && b[k..] == rest;
  }

  lemma TakeI32Back(n: i32, rest: seq<byte>)
    ensures TakeI32(I32Bytes(n) + rest) == Some((n, rest))
  {
    Spans();
    TakeNumberBack(if n < 0 then n + 0x1_0000_0000 else n, 4, rest);
  }

  lemma TakeIdBack(id: Digest, rest: seq<byte>)
    ensures TakeId(BigEndian(id, 32) + rest) == Some((id, rest))
  {
    Spans();
    TakeNumberBack(id, 32, rest);
  }

  lemma TakeBlobBack(blob: Option<ChunkHash>, rest: seq<byte>)
    ensures TakeBlob(BlobBytes(blob) + rest) == Some((blob, rest))
  {
    match blob
    case None =>
    case Some(h) =>
      TakeIdBack(h, rest);
      assert ([1] + BigEndian(h, 32) + rest)[1..] == BigEndian(h, 32) + rest;
  }

  lemma TakeEntryBack(e: Entry, rest: seq<byte>)
    ensures TakeEntry(EntryBytes(e) + rest) == Some((e, rest))
  {
    var b3 := BlobBytes(e.blob) + rest;
    var b2 := I32Bytes(e.coord.z) + b3;
    var b1 := I32Bytes(e.coord.x) + b2;
    var b0 := [KindCode(e.coord.kind)] + b1;
    assert EntryBytes(e) + rest == I32Bytes(e.coord.dim) + b0;
    TakeI32Back(e.coord.dim, b0);
    assert b0[1..] == b1;
    TakeI32Back(e.coord.x, b2);
    TakeI32Back(e.coord.z, b3);
    TakeBlobBack(e.blob, rest);
  }

  lemma IdsBytesFront(s: seq<Digest>)
    requires s != []
    ensures IdsBytes(s) == BigEndian(s[0], 32) + IdsBytes(s[1..])
  {
    IdsBytesBehind(s[0], s[1..]);
    assert s == [s[0]] + s[1..];
  }

  lemma {:induction false} IdsBytesBehind(x: Digest, s: seq<Digest>)
    ensures IdsBytes([x] + s) == BigEndian(x, 32) + IdsBytes(s)
    decreases |s|
  {
    if s == [] {
      IdsBytesLast([], x);
    } else {
      var t, y := s[..|s| - 1], s[|s| - 1];
      IdsBytesBehind(x, t);
      IdsBytesLast([x] + t, y);
      assert [x] + s == ([x] + t) + [y];
    }
  }

  lemma IdsBytesLast(s: seq<Digest>, y: Digest)
    ensures IdsBytes(s + [y]) == IdsBytes(s) + BigEndian(y, 32)
  {
    assert (s + [y])[..|s|] == s;
  }

  lemma {:induction false} EntriesBytesFront(s: seq<Entry>)
    requires s != []
    ensures EntriesBytes(s) == EntryBytes(s[0]) + EntriesBytes(s[1..])
  {
    if |s| == 1 {
      assert s[..0] == [] && s[1..] == [];
    } else {
      var init := s[..|s| - 1];
      var last := s[|s| - 1];
      EntriesBytesFront(init);
      assert init[1..] == s[1..][..|s| - 2] && s[1..][|s| - 2] == last;
      Regroup3(EntryBytes(s[0]), EntriesBytes(init[1..]), EntryBytes(last));
    }
  }

  lemma {:induction false} TakeIdsBack(s: seq<Digest>, rest: seq<byte>)
    ensures TakeIds(IdsBytes(s) + rest, |s|) == Some((s, rest))
  {
    if s == [] {
      assert IdsBytes(s) + rest == rest;
    } else {
      IdsBytesFront(s);
      var after := IdsBytes(s[1..]) + rest;
      assert IdsBytes(s) + rest == BigEndian(s[0], 32) + after;
      TakeIdBack(s[0], after);
      TakeIdsBack(s[1..], rest);
      assert [s[0]] + s[1..] == s;
    }
  }

  lemma {:induction false} TakeEntriesBack(s: seq<Entry>, rest: seq<byte>)
    ensures TakeEntries(EntriesBytes(s) + rest, |s|) == Some((s, rest))
  {
    if s == [] {
      assert EntriesBytes(s) + rest == rest;
    } else {
      EntriesBytesFront(s);
      var after := EntriesBytes(s[1..]) + rest;
      assert EntriesBytes(s) + rest == EntryBytes(s[0]) + after;
      TakeEntryBack(s[0], after);
      TakeEntriesBack(s[1..], rest);
      assert [s[0]] + s[1..] == s;
    }
  }

  /** The encoding can be read back. */
  lemma DecodeInverts(parents: seq<Digest>, createdAtMs: u64, entries: seq<Entry>)
    requires |parents| <= U64_MAX && |entries| <= U64_MAX
    ensures Decode(Encoded(parents, createdAtMs, entries)) == Some(Content(parents, createdAtMs, entries))
  {
    var b4 := EntriesBytes(entries);
    var b3 := CountBytes(|entries|) + b4;
    var b2 := BigEndian(createdAtMs, 8) + b3;
    var b1 := IdsBytes(parents) + b2;
    var b0 := CountBytes(|parents|) + b1;
    assert Encoded(parents, createdAtMs, entries)[|DOMAIN|..] == b0;
    TakeCountBack(|parents|, b1);
    TakeIdsBack(parents, b2);
    TakeTimeBack(createdAtMs, b3);
    TakeCountBack(|entries|, b4);
    TakeEntriesBack(entries, []);
    assert b4 + [] == b4;
  }

  lemma TakeCountBack(n: nat, rest: seq<byte>)
    requires n <= U64_MAX
    ensures TakeNumber(CountBytes(n) + rest, 8) == Some((n, rest))
  {
    Spans();
    TakeNumberBack(n, 8, rest);
  }

  lemma TakeTimeBack(t: u64, rest: seq<byte>)
    ensures TakeNumber(BigEndian(t, 8) + rest, 8) == Some((t, rest))
  {
    Spans();
    TakeNumberBack(t, 8, rest);
  }

  lemma {:induction false} CanonicalIsNoLonger<T>(s: seq<T>, less: (T, T) -> bool)
    ensures |Canonical(s, less)| <= |s|
  {
    if s != [] {
      CanonicalIsNoLonger(s[1..], less);
      InsertAddsOne(s[0], Canonical(s[1..], less), less);
    }
  }

  lemma {:induction false} InsertAddsOne<T>(x: T, s: seq<T>, less: (T, T) -> bool)
    ensures |Insert(x, s, less)| <= |s| + 1
  {
    if s != [] {
      InsertAddsOne(x, s[1..], less);
    }
  }

  /**
   Two commits hash the same bytes exactly when they have the same parents and the same
   entries as sets, and the same time; input order and repeats do not matter. Lists are
   shorter than 2^64, as every list in memory is.
   */
  lemma PreimageIsInjective(p: seq<Digest>, t: u64, e: seq<Entry>, q: seq<Digest>, u: u64, f: seq<Entry>)
    requires |p| <= U64_MAX && |q| <= U64_MAX && |e| <= U64_MAX && |f| <= U64_MAX
    ensures Preimage(p, t, e) == Preimage(q, u, f)
      <==> Elements(p) == Elements(q) && t == u && Elements(e) == Elements(f)
  {
    EntriesAreOrdered();
    CanonicalForgetsOrder(p, q, IdLess);
    CanonicalForgetsOrder(e, f, EntryLess);
    CanonicalIsNoLonger(p, IdLess);
    CanonicalIsNoLonger(q, IdLess);
    CanonicalIsNoLonger(e, EntryLess);
    CanonicalIsNoLonger(f, EntryLess);
    DecodeInverts(Canonical(p, IdLess), t, Canonical(e, EntryLess));
    DecodeInverts(Canonical(q, IdLess), u, Canonical(f, EntryLess));
  }
}
