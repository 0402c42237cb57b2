/** The delta of a scan: what a commit stores instead of the whole state. */
module Deltas {
  import opened Base
  import opened Scopes

  /** The commit a new one continues and the chunks present there; both empty on an unborn ref. */
  datatype Previous = Previous(commit: Option<Commit>, state: Chunks)

  datatype Plan = Plan(ingest: seq<RegionKey>, removed: set<RegionKey>, discovered: set<RegionKey>)

  datatype Ingested = Ingested(entries: seq<Entry>, present: set<Coord>, newBlobs: nat)

  datatype Assembled = Assembled(
    entries: seq<Entry>, chunks: nat, newBlobs: nat, tombstones: nat, newFiles: nat, removed: set<RegionKey>)

  // ----- what a delta has to say -----

  /** Chunks the base shows inside the scope and the scan does not find. */
  function Gone(base: Chunks, present: set<Coord>, scope: Scope): set<Coord> {
    set c | c in base && scope.Contains(c) && c !in present
  }

  /** New and changed chunks, and a tombstone for each one gone. */
  ghost function DeltaOf(base: Chunks, scan: Chunks, scope: Scope): map<Coord, Option<ChunkHash>> {
    map c |
      && c in base.Keys + scan.Keys
      && (c in scan ==> !(c in base && base[c] == scan[c]))
      && (c !in scan ==> scope.Contains(c)) ::
      if c in scan then Some(scan[c]) else None
  }

  /** The scan inside the scope, the base outside it. */
  ghost function Updated(base: Chunks, scan: Chunks, scope: Scope): Chunks {
    (map c | c in base && !scope.Contains(c) :: base[c]) + scan
  }

  ghost predicate InScope(scan: Chunks, scope: Scope) {
    forall c | c in scan :: scope.Contains(c)
  }

  /** The delta turns the base state into the scanned one and leaves everything outside the scope alone. */
  lemma DeltaIsSound(state: map<Coord, Option<ChunkHash>>, scan: Chunks, scope: Scope)
    requires InScope(scan, scope)
    ensures Present(state + DeltaOf(Present(state), scan, scope)) == Updated(Present(state), scan, scope)
  {
    var base, shown := Present(state), Present(state + DeltaOf(Present(state), scan, scope));
    forall c
      ensures c in shown <==> c in Updated(base, scan, scope)
      ensures c in shown ==> shown[c] == Updated(base, scan, scope)[c]
    {
      DeltaAt(state, scan, scope, c);
    }
  }

  lemma DeltaAt(state: map<Coord, Option<ChunkHash>>, scan: Chunks, scope: Scope, c: Coord)
    requires InScope(scan, scope)
    ensures var shown := Present(state + DeltaOf(Present(state), scan, scope));
      && (c in shown <==> c in Updated(Present(state), scan, scope))
      && (c in shown ==> shown[c] == Updated(Present(state), scan, scope)[c])
  {
  }

  /** Every row of it is needed: any delta with that effect carries the same rows. */
  lemma DeltaIsLeast(state: map<Coord, Option<ChunkHash>>, scan: Chunks, scope: Scope,
                     other: map<Coord, Option<ChunkHash>>)
    requires InScope(scan, scope)
    requires Present(state + other) == Updated(Present(state), scan, scope)
    ensures forall c | c in DeltaOf(Present(state), scan, scope) ::
      c in other && other[c] == DeltaOf(Present(state), scan, scope)[c]
  {
    var base := Present(state);
    var d := DeltaOf(base, scan, scope);
    forall c | c in d ensures c in other && other[c] == d[c] {
      assert c in Present(state + other) <==> c in Updated(base, scan, scope);
      if c in scan {
        assert Present(state + other)[c] == scan[c];
      }
    }
  }

  /** Nothing is recorded exactly when the scan is the base's part of the scope. */
  lemma NothingChanged(base: Chunks, scan: Chunks, scope: Scope)
    requires InScope(scan, scope)
    ensures DeltaOf(base, scan, scope) == map[] <==> scan == map c | c in base && scope.Contains(c) :: base[c]
  {
    var inside := map c | c in base && scope.Contains(c) :: base[c];
    var d := DeltaOf(base, scan, scope);
    if d == map[] {
      forall c ensures c in scan <==> c in inside {
        assert c !in d;
      }
      forall c | c in scan ensures scan[c] == inside[c] {
        assert c !in d;
      }
    }
  }

  /** Against the state a scan left behind, the same scan has nothing to say. */
  lemma UpdatedIsSettled(base: Chunks, scan: Chunks, scope: Scope)
    requires InScope(scan, scope)
    ensures DeltaOf(Updated(base, scan, scope), scan, scope) == map[]
  {
    NothingChanged(Updated(base, scan, scope), scan, scope);
  }

  lemma NoDeltaNoRows(entries: seq<Entry>)
    requires DistinctCoords(entries)
    ensures Delta(entries) == map[] <==> entries == []
  {
    if entries != [] {
      assert entries[0] in entries && entries[0].coord in Delta(entries);
    }
  }

  // ----- assembling -----

  predicate Unchanged(e: Entry, base: Chunks) {
    e.coord in base && e.blob == Some(base[e.coord])
  }

  /** The rows that say something new. */
  function Changed(entries: seq<Entry>, base: Chunks): seq<Entry> {
    if entries == [] then []
    else Changed(entries[..|entries| - 1], base)
         + if Unchanged(entries[|entries| - 1], base) then [] else [entries[|entries| - 1]]
  }

  /** One tombstone for each of these coordinates. */
  ghost predicate Buries(tail: seq<Entry>, gone: set<Coord>) {
    && DistinctCoords(tail) && |tail| == |gone|
    && (forall e | e in tail :: e.blob.None? && e.coord in gone)
    && forall c | c in gone :: Entry(c, None) in tail
  }

  /** The rows to record: what changed, then what vanished. */
  method Assemble(plan: Plan, previous: Previous, ingested: Ingested, scope: Scope) returns (a: Assembled)
    ensures var kept, gone := Changed(ingested.entries, previous.state), Gone(previous.state, ingested.present, scope);
      && kept <= a.entries && Buries(a.entries[|kept|..], gone) && a.tombstones == |gone|
      && a.newFiles == |set e | e in kept && e.blob.Some? && e.coord !in previous.state :: RegionOf(e.coord)|
    ensures a.chunks == |ingested.present| && a.newBlobs == ingested.newBlobs && a.removed == plan.removed
  {
    var kept := DropUnchanged(ingested.entries, previous.state);
    var newFiles := set e | e in kept && e.blob.Some? && e.coord !in previous.state :: RegionOf(e.coord);
    var tail := Bury(previous.state, ingested.present, scope);
    assert (kept + tail)[|kept|..] == tail;
    a := Assembled(kept + tail, |ingested.present|, ingested.newBlobs, |tail|, |newFiles|, plan.removed);
  }

  method DropUnchanged(entries: seq<Entry>, base: Chunks) returns (kept: seq<Entry>)
    ensures kept == Changed(entries, base)
  {
    kept := [];
    for i := 0 to |entries|
      invariant kept == Changed(entries[..i], base)
    {
      assert entries[..i + 1][..i] == entries[..i];
      if !(entries[i].coord in base && entries[i].blob == Some(base[entries[i].coord])) {
        kept := kept + [entries[i]];
      }
    }
    assert entries[..|entries|] == entries;
  }

  /** A tombstone for each chunk of the base in scope that the scan misses. */
  method Bury(base: Chunks, present: set<Coord>, scope: Scope) returns (tail: seq<Entry>)
    ensures Buries(tail, Gone(base, present, scope))
  {
    tail := [];
    var rest := base.Keys;
    ghost var buried: set<Coord> := {};
    while rest != {}
      invariant rest <= base.Keys && buried !! rest && Buries(tail, buried)
      invariant forall c | c in buried :: c in base && scope.Contains(c) && c !in present
      invariant forall c | c in base && scope.Contains(c) && c !in present :: c in buried || c in rest
      decreases rest
    {
      var c :| c in rest;
      rest := rest - {c};
      if scope.Contains(c) && c !in present {
        BuryOne(tail, buried, c);
        buried := buried + {c};
        tail := tail + [Entry(c, None)];
      }
    }
    assert buried == Gone(base, present, scope);
  }

  lemma BuryOne(tail: seq<Entry>, gone: set<Coord>, c: Coord)
    requires Buries(tail, gone) && c !in gone
    ensures Buries(tail + [Entry(c, None)], gone + {c})
  {
    var out := tail + [Entry(c, None)];
    forall i, j | 0 <= i < j < |out| ensures out[i].coord != out[j].coord {
      assert out[i] in tail;
    }
  }

  // ----- what assembling yields -----

  /** A scan as fresh rows: one row for each chunk found. */
  ghost predicate IsIngested(i: Ingested, scan: Chunks) {
    && DistinctCoords(i.entries) && i.present == scan.Keys
    && (forall e | e in i.entries :: e.coord in scan && e.blob == Some(scan[e.coord]))
    && forall c | c in scan :: Entry(c, Some(scan[c])) in i.entries
  }

  lemma {:induction false} ChangedAre(entries: seq<Entry>, base: Chunks)
    ensures forall e :: e in Changed(entries, base) <==> e in entries && !Unchanged(e, base)
    ensures DistinctCoords(entries) ==> DistinctCoords(Changed(entries, base))
    decreases |entries|
  {
    if entries != [] {
      var n := |entries| - 1;
      var front, last := entries[..n], entries[n];
      ChangedAre(front, base);
      assert entries == front + [last];
      assert forall e :: e in entries <==> e in front || e == last;
      if DistinctCoords(entries) {
        DistinctFront(front, last);
      }
    }
  }

  lemma DistinctFront(front: seq<Entry>, last: Entry)
    requires DistinctCoords(front + [last])
    ensures DistinctCoords(front) && forall e | e in front :: e.coord != last.coord
  {
    var all := front + [last];
    assert all[|front|] == last && forall i | 0 <= i < |front| :: all[i] == front[i];
  }

  /** Assembling a scan against the base yields exactly its delta, each coordinate once. */
  lemma AssembledIsDelta(i: Ingested, scan: Chunks, base: Chunks, scope: Scope, entries: seq<Entry>)
    requires IsIngested(i, scan) && InScope(scan, scope)
    requires var kept := Changed(i.entries, base);
      kept <= entries && Buries(entries[|kept|..], Gone(base, i.present, scope))
    ensures DistinctCoords(entries) && Delta(entries) == DeltaOf(base, scan, scope)
  {
    var kept := Changed(i.entries, base);
    var tail := entries[|kept|..];
    ChangedAre(i.entries, base);
    assert entries == kept + tail;
    DistinctParts(kept, tail);
    PartsDelta(i, scan, base, scope, kept, tail);
  }

  lemma DistinctParts(kept: seq<Entry>, tail: seq<Entry>)
    requires DistinctCoords(kept) && DistinctCoords(tail)
    requires forall e, f | e in kept && f in tail :: e.coord != f.coord
    ensures DistinctCoords(kept + tail)
  {
    var all := kept + tail;
    forall i, j | 0 <= i < j < |all| ensures all[i].coord != all[j].coord {
      if i < |kept| && j >= |kept| {
        assert all[i] in kept && all[j] in tail;
      }
    }
  }

  lemma PartsDelta(i: Ingested, scan: Chunks, base: Chunks, scope: Scope, kept: seq<Entry>, tail: seq<Entry>)
    requires IsIngested(i, scan) && DistinctCoords(kept + tail) && Buries(tail, Gone(base, i.present, scope))
    requires forall e :: e in kept <==> e in i.entries && !Unchanged(e, base)
    ensures Delta(kept + tail) == DeltaOf(base, scan, scope)
  {
    var d := DeltaOf(base, scan, scope);
    forall e | e in kept + tail ensures e.coord in d && d[e.coord] == e.blob {}
    forall c | c in d ensures Entry(c, d[c]) in kept + tail {}
    DeltaIs(kept + tail, d);
  }

  lemma DeltaIs(entries: seq<Entry>, d: map<Coord, Option<ChunkHash>>)
    requires DistinctCoords(entries)
    requires forall e | e in entries :: e.coord in d && d[e.coord] == e.blob
    requires forall c | c in d :: Entry(c, d[c]) in entries
    ensures Delta(entries) == d
  {
  }
}
