/** Checking a commit out over a world directory. */
module CheckoutRun {
  import opened Base
  import opened Ancestry
  import opened History
  import opened Scopes
  import opened RegionWriter
  import opened MemStore
  import opened Cas
  import opened Ingest
  import opened RebuildFile
  import opened CheckoutTally

  type Groups = map<RegionKey, seq<Restore>>
  type Tombs = map<RegionKey, seq<Coord>>

  /** Present rows and tombstones of a commit, by region. */
  datatype CheckoutPlan = CheckoutPlan(createdAtMs: u64, groups: Groups, tombstones: Tombs)

  // ----- planning -----

  ghost predicate Grouped(groups: Groups, present: Chunks) {
    && (forall k :: k in groups <==> Touched(k, present.Keys))
    && forall k | k in groups :: RowsOfRegion(groups[k], k, present)
  }

  ghost predicate TombsGrouped(tombs: Tombs, dead: set<Coord>) {
    && (forall k :: k in tombs <==> Touched(k, dead))
    && forall k | k in tombs :: TombsOfRegion(tombs[k], k, dead)
  }

  ghost function DeadIn(state: map<Coord, Option<ChunkHash>>): set<Coord> {
    set c | c in state && state[c].None?
  }

  /** Present or tombstoned is what the most recent row on the commit's line says. */
  lemma NewestRowDecides(s: Store, commit: CommitId, c: Coord)
    requires Valid(s)
    ensures c in DeadIn(StateAt(s, commit)) <==>
      exists r :: Wins(s, Line(s.parents, commit), r) && r.coord == c && r.blob.None?
    ensures forall h :: c in PresentAt(s, commit) && PresentAt(s, commit)[c] == h <==>
      exists r :: Wins(s, Line(s.parents, commit), r) && r.coord == c && r.blob == Some(h)
  {
    var line := Line(s.parents, commit);
    if c in StateAt(s, commit) {
      var w := ShownHasWinner(s, line, c);
    }
    forall r | Wins(s, line, r) && r.coord == c ensures c in StateAt(s, commit) && StateAt(s, commit)[c] == r.blob {
      WinnerIsShown(s, line, r);
    }
  }

  lemma GroupsGrow(groups: Groups, present: Chunks, c: Coord, h: ChunkHash)
    requires Grouped(groups, present) && c !in present
    ensures var k := RegionOf(c);
      Grouped(groups[k := (if k in groups then groups[k] else []) + [Restore(c, h)]], present[c := h])
  {
    var key := RegionOf(c);
    var rows := if key in groups then groups[key] else [];
    var grown := groups[key := rows + [Restore(c, h)]];
    assert present[c := h].Keys == present.Keys + {c};
    forall k ensures k in grown <==> Touched(k, present[c := h].Keys) {}
    forall k | k in grown ensures RowsOfRegion(grown[k], k, present[c := h]) {
      if k == key {
        RowsGrow(rows, key, present, c, h);
      } else {
        assert RowsOfRegion(groups[k], k, present);
      }
    }
  }

  lemma RowsGrow(rows: seq<Restore>, key: RegionKey, present: Chunks, c: Coord, h: ChunkHash)
    requires RegionOf(c) == key && c !in present
    requires RowsOfRegion(rows, key, present) || (rows == [] && !Touched(key, present.Keys))
    ensures RowsOfRegion(rows + [Restore(c, h)], key, present[c := h])
  {
    var all := rows + [Restore(c, h)];
    assert all[|rows|] == Restore(c, h);
    assert forall e :: e in all <==> e in rows || e == Restore(c, h);
    forall i, j | 0 <= i < j < |all| ensures all[i].coord != all[j].coord {
      assert all[i] in rows;
    }
    forall d | d in present[c := h] && RegionOf(d) == key ensures Restore(d, present[c := h][d]) in all {
      if d != c { assert d in present.Keys; }
    }
  }

  lemma TombsGrow(tombs: Tombs, dead: set<Coord>, c: Coord)
    requires TombsGrouped(tombs, dead)
    ensures var k := RegionOf(c);
      TombsGrouped(tombs[k := (if k in tombs then tombs[k] else []) + [c]], dead + {c})
  {
    var key := RegionOf(c);
    var list := if key in tombs then tombs[key] else [];
    var grown := tombs[key := list + [c]];
    forall k ensures k in grown <==> Touched(k, dead + {c}) {}
    forall k | k in grown ensures TombsOfRegion(grown[k], k, dead + {c}) {
      assert k != key ==> TombsOfRegion(tombs[k], k, dead);
      assert key in tombs ==> TombsOfRegion(tombs[key], key, dead);
      assert (list + [c])[|list|] == c;
    }
  }

  /** Sort effective rows into regions. */
  method GroupRows(rows: map<Coord, Row>) returns (groups: Groups, tombs: Tombs)
    ensures Grouped(groups, Present(Blobs(rows))) && TombsGrouped(tombs, DeadIn(Blobs(rows)))
  {
    groups, tombs := map[], map[];
    var rest := rows.Keys;
    ghost var present: Chunks, dead: set<Coord> := map[], {};
    while rest != {}
      invariant rest <= rows.Keys && Grouped(groups, present) && TombsGrouped(tombs, dead)
      invariant forall c :: c in present <==> c in rows && c !in rest && rows[c].blob.Some?
      invariant forall c | c in present :: Some(present[c]) == rows[c].blob
      invariant forall c :: c in dead <==> c in rows && c !in rest && rows[c].blob.None?
      decreases rest
    {
      var c :| c in rest;
      rest := rest - {c};
      var k := RegionOf(c);
      match rows[c].blob {
        case Some(h) =>
          GroupsGrow(groups, present, c, h);
          groups := groups[k := (if k in groups then groups[k] else []) + [Restore(c, h)]];
          present := present[c := h];
        case None =>
          TombsGrow(tombs, dead, c);
          tombs := tombs[k := (if k in tombs then tombs[k] else []) + [c]];
          dead := dead + {c};
      }
    }
    assert present == Present(Blobs(rows));
    assert dead == DeadIn(Blobs(rows));
  }

  /** Resolve a commit's effective rows, grouped by region. */
  method PlanCheckout(meta: MemMeta, commit: CommitId) returns (r: Result<CheckoutPlan, CheckoutError>)
    requires meta.Valid()
    ensures r.Err? <==> commit !in meta.View().seqs
    ensures r.Err? ==> r.error == NoSuchCommit(commit)
    ensures r.Ok? ==> commit in meta.View().times && r.value.createdAtMs == meta.View().times[commit]
    ensures r.Ok? ==>
      && Grouped(r.value.groups, PresentAt(meta.View(), commit))
      && TombsGrouped(r.value.tombstones, DeadIn(StateAt(meta.View(), commit)))
  {
    var known := meta.LookupCommit(commit);
    if known.None? { return Err(NoSuchCommit(commit)); }
    CommitIsIndexed(meta.commits, known.value);
    var rows := meta.VisitCommitChunks(commit);
    var groups, tombs := GroupRows(rows);
    r := Ok(CheckoutPlan(known.value.createdAtMs, groups, tombs));
  }

  // ----- the file pass -----

  /** The region files of a world. */
  class WorldDir {
    var files: World

    constructor (files: World)
      ensures this.files == files
    {
      this.files := files;
    }

    method Write(key: RegionKey, bytes: seq<byte>)
      modifies this
      ensures files == old(files)[key := bytes]
    {
      files := files[key := bytes];
    }

    method Remove(key: RegionKey)
      modifies this
      ensures files == old(files) - {key}
    {
      files := files - {key};
    }
  }

  /** The plan of one region lists its present chunks and its tombstones. */
  ghost predicate Planned(key: RegionKey, groups: Groups, tombs: Tombs, present: Chunks, dead: set<Coord>) {
    && (key in groups <==> Touched(key, present.Keys))
    && (key in groups ==> RowsOfRegion(groups[key], key, present))
    && (key in tombs <==> Touched(key, dead))
    && (key in tombs ==> TombsOfRegion(tombs[key], key, dead))
  }

  /** A rebuilt file carries the time of the commit, and was there before if it had to be. */
  ghost predicate Rewritten(key: RegionKey, before: World, after: World, present: Chunks, options: Options,
                            timestamp: u32)
  {
    Touched(key, present.Keys) ==>
      && key in after && Stamped(after[key], timestamp)
      && (options.failOnMissingFile ==> key in before)
  }

  /** Why a region is refused: its file is missing and may not be, or it cannot be rebuilt. */
  ghost predicate FileRefused(error: CheckoutError, key: RegionKey, before: World, present: Chunks, options: Options,
                              blobs: BlobMap)
  {
    && Touched(key, present.Keys)
    && if options.failOnMissingFile && key !in before then error == UnknownRegionPath(key)
       else BuildRefused(error, key, FileIn(before, key), present, options, blobs)
  }

  /** One file: rebuilt, deleted or left alone. A refused file leaves the directory as it was. */
  method CheckoutFile(dir: WorldDir, cas: MemCas, key: RegionKey, groups: Groups, tombs: Tombs, options: Options,
                      timestamp: u32, ghost present: Chunks, ghost dead: set<Coord>)
    returns (r: Result<CheckoutReport, CheckoutError>)
    requires Planned(key, groups, tombs, present, dead)
    modifies dir
    ensures forall k | k != key :: FileIn(dir.files, k) == FileIn(old(dir.files), k)
    ensures r.Err? ==> dir.files == old(dir.files)
    ensures r.Ok? ==>
      FileAfter(key, FileIn(old(dir.files), key), FileIn(dir.files, key), present, dead, options, cas.blobs)
    ensures Supplied(key, present, cas.blobs) && Strict(options) ==> r.Ok?
    ensures r.Ok? ==> r.value == Tallied({key}, old(dir.files), dir.files, present, cas.blobs)
    ensures r.Ok? ==> Rewritten(key, old(dir.files), dir.files, present, options, timestamp)
    ensures r.Err? ==> FileRefused(r.error, key, old(dir.files), present, options, cas.blobs)
  {
    ghost var before := dir.files;
    if key !in groups {
      var keep := if key in tombs then options.keepTombstonedChunks else options.keepPostCommitFiles;
      if !keep && key in dir.files {
        dir.Remove(key);
        OneIsTallied(key, before, dir.files, present, cas.blobs);
        return Ok(CheckoutReport(0, 1, 0));
      }
      OneIsTallied(key, before, dir.files, present, cas.blobs);
      return Ok(CheckoutReport(0, 0, 0));
    }
    if key !in dir.files && options.failOnMissingFile { return Err(UnknownRegionPath(key)); }
    var image, restored := BuildFile(cas, key, groups[key], if key in tombs then tombs[key] else [],
                                     FileIn(dir.files, key), options, timestamp, present, dead);
    if image.Err? { return Err(image.error); }
    dir.Write(key, image.value);
    OneIsTallied(key, before, dir.files, present, cas.blobs);
    r := Ok(CheckoutReport(1, 0, restored));
  }

  /** The directory after the files of `keys` were processed. */
  ghost predicate Processed(before: World, after: World, keys: set<RegionKey>, present: Chunks, dead: set<Coord>,
                            options: Options, blobs: BlobMap)
  {
    && (forall k | k in keys :: FileAfter(k, FileIn(before, k), FileIn(after, k), present, dead, options, blobs))
    && forall k | k !in keys :: FileIn(after, k) == FileIn(before, k)
  }

  ghost predicate AllSupplied(present: Chunks, blobs: BlobMap) {
    forall c | c in present :: present[c] in blobs && Storable(blobs[present[c]])
  }

  lemma OneMoreProcessed(before: World, mid: World, after: World, keys: set<RegionKey>, key: RegionKey, present: Chunks,
                         dead: set<Coord>, options: Options, blobs: BlobMap)
    requires Processed(before, mid, keys, present, dead, options, blobs) && key !in keys
    requires forall k | k != key :: FileIn(after, k) == FileIn(mid, k)
    requires FileAfter(key, FileIn(mid, key), FileIn(after, key), present, dead, options, blobs)
    ensures Processed(before, after, keys + {key}, present, dead, options, blobs)
    ensures FileIn(mid, key) == FileIn(before, key)
  {
    forall k | k in keys + {key}
      ensures FileAfter(k, FileIn(before, k), FileIn(after, k), present, dead, options, blobs)
    {
      if k != key {
        assert FileAfter(k, FileIn(before, k), FileIn(mid, k), present, dead, options, blobs);
      }
    }
  }

  ghost predicate AllRewritten(keys: set<RegionKey>, before: World, after: World, present: Chunks, options: Options,
                               timestamp: u32)
  {
    forall k | k in keys :: Rewritten(k, before, after, present, options, timestamp)
  }

  ghost predicate SomeRefused(error: CheckoutError, keys: set<RegionKey>, before: World, present: Chunks,
                              options: Options, blobs: BlobMap)
  {
    exists k :: k in keys && FileRefused(error, k, before, present, options, blobs)
  }

  lemma OneMoreRewritten(keys: set<RegionKey>, key: RegionKey, before: World, mid: World, after: World, present: Chunks,
                         options: Options, timestamp: u32)
    requires AllRewritten(keys, before, mid, present, options, timestamp) && key !in keys
    requires forall k | k != key :: FileIn(after, k) == FileIn(mid, k)
    requires Rewritten(key, before, after, present, options, timestamp)
    ensures AllRewritten(keys + {key}, before, after, present, options, timestamp)
  {
    forall k | k in keys ensures Rewritten(k, before, after, present, options, timestamp) {
      assert Rewritten(k, before, mid, present, options, timestamp) && FileIn(after, k) == FileIn(mid, k);
    }
  }

  method PassStep(dir: WorldDir, cas: MemCas, key: RegionKey, groups: Groups, tombs: Tombs, options: Options,
                  timestamp: u32, ghost present: Chunks, ghost dead: set<Coord>, ghost before: World,
                  ghost past: set<RegionKey>)
    returns (r: Result<CheckoutReport, CheckoutError>)
    requires Planned(key, groups, tombs, present, dead) && key !in past
    requires Processed(before, dir.files, past, present, dead, options, cas.blobs)
    modifies dir
    ensures r.Err? ==> Processed(before, dir.files, past, present, dead, options, cas.blobs)
    ensures r.Ok? ==> Processed(before, dir.files, past + {key}, present, dead, options, cas.blobs)
    ensures AllSupplied(present, cas.blobs) && Strict(options) ==> r.Ok?
    ensures forall k | k != key :: FileIn(dir.files, k) == FileIn(old(dir.files), k)
    ensures r.Ok? ==> Rewritten(key, before, dir.files, present, options, timestamp)
    ensures r.Err? ==> FileRefused(r.error, key, before, present, options, cas.blobs)
    ensures r.Ok? ==>
      Tallied(past + {key}, before, dir.files, present, cas.blobs)
      == Plus(Tallied(past, before, old(dir.files), present, cas.blobs), r.value)
  {
    ghost var mid := dir.files;
    r := CheckoutFile(dir, cas, key, groups, tombs, options, timestamp, present, dead);
    if r.Ok? {
      OneMoreProcessed(before, mid, dir.files, past, key, present, dead, options, cas.blobs);
      assert FileIn(mid, key) == FileIn(before, key);
      TalliesAdd(past, key, before, mid, dir.files, present, cas.blobs);
    }
  }

  /** Every region that has a file, present rows or tombstones, one after the other. */
  method FilePass(dir: WorldDir, cas: MemCas, keys: seq<RegionKey>, groups: Groups, tombs: Tombs, options: Options,
                  timestamp: u32, ghost present: Chunks, ghost dead: set<Coord>)
    returns (r: Result<CheckoutReport, CheckoutError>)
    requires forall i | 0 <= i < |keys| :: Planned(keys[i], groups, tombs, present, dead)
    requires Distinct(keys)
    modifies dir
    ensures r.Ok? ==> Processed(old(dir.files), dir.files, Elements(keys), present, dead, options, cas.blobs)
    ensures forall k | k !in keys :: FileIn(dir.files, k) == FileIn(old(dir.files), k)
    ensures AllSupplied(present, cas.blobs) && Strict(options) ==> r.Ok?
    ensures r.Ok? ==> r.value == Tallied(Elements(keys), old(dir.files), dir.files, present, cas.blobs)
    ensures r.Ok? ==> AllRewritten(Elements(keys), old(dir.files), dir.files, present, options, timestamp)
    ensures r.Err? ==> SomeRefused(r.error, Elements(keys), old(dir.files), present, options, cas.blobs)
  {
    var report := CheckoutReport(0, 0, 0);
    ghost var before, blobs := dir.files, cas.blobs;
    NothingTallied(Elements(keys[..0]), before, present, blobs);
    for i := 0 to |keys|
      invariant cas.blobs == blobs && Processed(before, dir.files, Elements(keys[..i]), present, dead, options, blobs)
      invariant report == Tallied(Elements(keys[..i]), before, dir.files, present, blobs)
      invariant AllRewritten(Elements(keys[..i]), before, dir.files, present, options, timestamp)
    {
      KeysGrow(keys, i);
      ghost var mid := dir.files;
      var one := PassStep(dir, cas, keys[i], groups, tombs, options, timestamp, present, dead, before,
                          Elements(keys[..i]));
      if one.Err? {
        assert keys[i] in Elements(keys);
        return Err(one.error);
      }
      OneMoreRewritten(Elements(keys[..i]), keys[i], before, mid, dir.files, present, options, timestamp);
      report := Plus(report, one.value);
    }
    assert keys[..|keys|] == keys;
    r := Ok(report);
  }

  lemma KeysGrow(keys: seq<RegionKey>, i: nat)
    requires i < |keys| && Distinct(keys)
    ensures Elements(keys[..i + 1]) == Elements(keys[..i]) + {keys[i]} && keys[i] !in Elements(keys[..i])
  {
    assert keys[..i + 1] == keys[..i] + [keys[i]];
  }

  method ListKeys(keys: set<RegionKey>) returns (list: seq<RegionKey>)
    ensures Elements(list) == keys
    ensures Distinct(list)
  {
    list := [];
    var rest := keys;
    while rest != {}
      invariant rest <= keys && forall k :: k in list <==> k in keys && k !in rest
      invariant Distinct(list)
      decreases rest
    {
      var k :| k in rest;
      assert k !in list;
      rest := rest - {k};
      list := list + [k];
    }
  }

  function Stamp(createdAtMs: u64): u32 {
    if createdAtMs / 1000 > 0xFFFF_FFFF then 0xFFFF_FFFF else createdAtMs / 1000
  }

  /** Rebuild the regions in scope from a commit; files of other regions are never touched, even when the run fails. */
  method Checkout(meta: MemMeta, cas: MemCas, dir: WorldDir, commit: CommitId, options: Options, scope: Scope)
    returns (r: Result<CheckoutReport, CheckoutError>)
    requires meta.Valid()
    modifies dir
    ensures forall k | !scope.MatchesRegion(k) :: FileIn(dir.files, k) == FileIn(old(dir.files), k)
    ensures scope.Select? ==>
      forall k: RegionKey | k.kind !in scope.kinds || (forall a | a in scope.areas :: a.0 != k.dim) ::
        FileIn(dir.files, k) == FileIn(old(dir.files), k)
    ensures commit !in meta.View().seqs ==> r == Err(NoSuchCommit(commit)) && dir.files == old(dir.files)
    ensures commit in meta.View().seqs ==>
      Ran(r, scope, old(dir.files), dir.files, PresentAt(meta.View(), commit), DeadIn(StateAt(meta.View(), commit)),
          options, cas.blobs, meta.View().times[commit])
  {
    var planned := PlanCheckout(meta, commit);
    if planned.Err? { return Err(planned.error); }
    ghost var present, dead := PresentAt(meta.View(), commit), DeadIn(StateAt(meta.View(), commit));
    ghost var before := dir.files;
    r := CheckoutPlanned(dir, cas, planned.value, scope, options, present, dead);
    UnlistedIsUntouched(before, dir.files, scope);
  }

  /** The file pass of a plan: drop what is out of scope, then visit every region left. */
  method CheckoutPlanned(dir: WorldDir, cas: MemCas, plan: CheckoutPlan, scope: Scope, options: Options,
                         ghost present: Chunks, ghost dead: set<Coord>)
    returns (r: Result<CheckoutReport, CheckoutError>)
    requires Grouped(plan.groups, present) && TombsGrouped(plan.tombstones, dead)
    modifies dir
    ensures forall k | !scope.MatchesRegion(k) :: FileIn(dir.files, k) == FileIn(old(dir.files), k)
    ensures Ran(r, scope, old(dir.files), dir.files, present, dead, options, cas.blobs, plan.createdAtMs)
  {
    var groups, tombs := KeepInScope(plan.groups, plan.tombstones, scope, present, dead);
    r := CheckoutPass(dir, cas, groups, tombs, scope, options, Stamp(plan.createdAtMs), present, dead);
  }

  /** Files of another dimension or family are not the scope's business. */
  lemma UnlistedIsUntouched(before: World, after: World, scope: Scope)
    requires forall k | !scope.MatchesRegion(k) :: FileIn(after, k) == FileIn(before, k)
    ensures scope.Select? ==>
      forall k: RegionKey | k.kind !in scope.kinds || (forall a | a in scope.areas :: a.0 != k.dim) ::
        FileIn(after, k) == FileIn(before, k)
  {
  }

  /** What the whole run leaves behind. */
  ghost predicate CheckedOut(before: World, after: World, scope: Scope, present: Chunks, dead: set<Coord>,
                             options: Options, blobs: BlobMap)
  {
    forall k | scope.MatchesRegion(k) ::
      FileAfter(k, FileIn(before, k), FileIn(after, k), present, dead, options, blobs)
  }

  /** Every region in scope with chunks at the commit was rewritten. */
  ghost predicate RewrittenIn(scope: Scope, before: World, after: World, present: Chunks, options: Options,
                              timestamp: u32)
  {
    forall k | scope.MatchesRegion(k) :: Rewritten(k, before, after, present, options, timestamp)
  }

  /** Rewritten with this time in whole seconds, or the last one a file can hold. */
  ghost predicate RewrittenAt(scope: Scope, before: World, after: World, present: Chunks, options: Options,
                              createdAtMs: u64)
  {
    RewrittenIn(scope, before, after, present, options,
                if createdAtMs / 1000 < 0x1_0000_0000 then createdAtMs / 1000 else 0xFFFF_FFFF)
  }

  /**
   A run over these rows and tombstones. At its end every region in scope is as they and the
   policies say, rebuilt files carry the time of the commit, and the report counts what
   happened; a run that fails names a region in scope and what is wrong with it. With every
   blob there, a strict run does not fail.
   */
  ghost predicate Ran(r: Result<CheckoutReport, CheckoutError>, scope: Scope, before: World, after: World,
                      present: Chunks, dead: set<Coord>, options: Options, blobs: BlobMap, createdAtMs: u64)
  {
    && (r.Ok? ==>
          && CheckedOut(before, after, scope, present, dead, options, blobs)
          && RewrittenAt(scope, before, after, present, options, createdAtMs)
          && r.value == Summary(scope, before, after, present, blobs))
    && (r.Err? ==> RefusedIn(scope, r.error, before, present, options, blobs))
    && (r.Err? ==>
          || !AllSupplied(present, blobs) || options.failOnMissingFile
          || options.keepPostCommitChunks || options.keepTombstonedChunks)
  }

  /** Some region in scope is to blame. */
  ghost predicate RefusedIn(scope: Scope, error: CheckoutError, before: World, present: Chunks, options: Options,
                            blobs: BlobMap)
  {
    exists k :: scope.MatchesRegion(k) && FileRefused(error, k, before, present, options, blobs)
  }

  lemma AllInScope(before: World, after: World, groups: Groups, tombs: Tombs, scope: Scope, present: Chunks,
                   dead: set<Coord>, options: Options, timestamp: u32)
    requires PlannedInScope(groups, tombs, scope, present, dead)
    requires AllRewritten(Visited(before, groups, tombs, scope), before, after, present, options, timestamp)
    ensures RewrittenIn(scope, before, after, present, options, timestamp)
  {
    forall k | scope.MatchesRegion(k) ensures Rewritten(k, before, after, present, options, timestamp) {
      assert Planned(k, groups, tombs, present, dead);
    }
  }

  lemma SomeInScope(error: CheckoutError, keys: seq<RegionKey>, scope: Scope, before: World, present: Chunks,
                    options: Options, blobs: BlobMap)
    requires SomeRefused(error, Elements(keys), before, present, options, blobs)
    requires forall k | k in keys :: scope.MatchesRegion(k)
    ensures RefusedIn(scope, error, before, present, options, blobs)
  {
  }

  /** The plan, cut down to the regions the scope visits. */
  ghost predicate PlannedInScope(groups: Groups, tombs: Tombs, scope: Scope, present: Chunks, dead: set<Coord>) {
    forall k | scope.MatchesRegion(k) :: Planned(k, groups, tombs, present, dead)
  }

  method KeepInScope(allGroups: Groups, allTombs: Tombs, scope: Scope, ghost present: Chunks, ghost dead: set<Coord>)
    returns (groups: Groups, tombs: Tombs)
    requires Grouped(allGroups, present) && TombsGrouped(allTombs, dead)
    ensures PlannedInScope(groups, tombs, scope, present, dead)
    ensures forall k | k in groups || k in tombs :: scope.MatchesRegion(k)
  {
    groups := map k | k in allGroups && scope.MatchesRegion(k) :: allGroups[k];
    tombs := map k | k in allTombs && scope.MatchesRegion(k) :: allTombs[k];
    forall k | scope.MatchesRegion(k) ensures Planned(k, groups, tombs, present, dead) {}
  }

  method CheckoutPass(dir: WorldDir, cas: MemCas, groups: Groups, tombs: Tombs, scope: Scope, options: Options,
                      timestamp: u32, ghost present: Chunks, ghost dead: set<Coord>)
    returns (r: Result<CheckoutReport, CheckoutError>)
    requires PlannedInScope(groups, tombs, scope, present, dead)
    requires forall k | k in groups || k in tombs :: scope.MatchesRegion(k)
    modifies dir
    ensures forall k | !scope.MatchesRegion(k) :: FileIn(dir.files, k) == FileIn(old(dir.files), k)
    ensures r.Ok? ==> CheckedOut(old(dir.files), dir.files, scope, present, dead, options, cas.blobs)
    ensures r.Ok? ==> r.value == Summary(scope, old(dir.files), dir.files, present, cas.blobs)
    ensures AllSupplied(present, cas.blobs) && Strict(options) ==> r.Ok?
    ensures r.Ok? ==> RewrittenIn(scope, old(dir.files), dir.files, present, options, timestamp)
    ensures r.Err? ==> RefusedIn(scope, r.error, old(dir.files), present, options, cas.blobs)
  {
    ghost var before := dir.files;
    var keys := ListKeys(Visited(dir.files, groups, tombs, scope));
    ListedInScope(before, keys, groups, tombs, scope, present, dead);
    r := FilePass(dir, cas, keys, groups, tombs, options, timestamp, present, dead);
    if r.Ok? {
      RestIsIdle(before, dir.files, groups, tombs, scope, present, dead, options, cas.blobs);
      AllInScope(before, dir.files, groups, tombs, scope, present, dead, options, timestamp);
    } else {
      SomeInScope(r.error, keys, scope, before, present, options, cas.blobs);
    }
  }

  /** The regions in scope that have a file, and those with rows or tombstones. */
  function Visited(files: World, groups: Groups, tombs: Tombs, scope: Scope): set<RegionKey> {
    (set k | k in files && scope.MatchesRegion(k)) + groups.Keys + tombs.Keys
  }

  lemma ListedInScope(files: World, keys: seq<RegionKey>, groups: Groups, tombs: Tombs, scope: Scope, present: Chunks,
                      dead: set<Coord>)
    requires PlannedInScope(groups, tombs, scope, present, dead)
    requires Elements(keys) == Visited(files, groups, tombs, scope)
    requires forall k | k in groups || k in tombs :: scope.MatchesRegion(k)
    ensures forall i | 0 <= i < |keys| :: Planned(keys[i], groups, tombs, present, dead)
    ensures forall k | k in keys :: scope.MatchesRegion(k)
  {
    forall k | k in keys ensures scope.MatchesRegion(k) && Planned(k, groups, tombs, present, dead) {
      assert k in Elements(keys);
    }
  }

  /** A region with no file, no rows and no tombstones has nothing to do and adds nothing to the report. */
  lemma RestIsIdle(before: World, after: World, groups: Groups, tombs: Tombs, scope: Scope, present: Chunks,
                   dead: set<Coord>, options: Options, blobs: BlobMap)
    requires PlannedInScope(groups, tombs, scope, present, dead)
    requires Processed(before, after, Visited(before, groups, tombs, scope), present, dead, options, blobs)
    requires forall k | k in groups || k in tombs :: scope.MatchesRegion(k)
    ensures CheckedOut(before, after, scope, present, dead, options, blobs)
    ensures Tallied(Visited(before, groups, tombs, scope), before, after, present, blobs)
      == Summary(scope, before, after, present, blobs)
  {
    var keys := Visited(before, groups, tombs, scope);
    forall k | scope.MatchesRegion(k)
      ensures FileAfter(k, FileIn(before, k), FileIn(after, k), present, dead, options, blobs)
    {
      assert Planned(k, groups, tombs, present, dead);
    }
    forall k | scope.MatchesRegion(k) && (k in before || Touched(k, present.Keys)) ensures k in keys {
      assert Planned(k, groups, tombs, present, dead);
    }
    TalliedIsSummary(keys, scope, before, after, present, blobs);
  }
}
