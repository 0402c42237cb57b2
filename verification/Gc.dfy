/** Garbage collection of the blob store. */
module Gc {
  import opened Base
  import opened Ancestry
  import opened History
  import opened MemStore
  import opened Cas

  /** Unreferenced blobs, and how many were examined. */
  datatype GcPlan = GcPlan(orphans: seq<ChunkHash>, examined: nat)

  datatype GcReport = GcReport(candidates: nat, orphans: nat, removed: nat)

  /** Every blob some history row names. */
  ghost function Referenced(s: Store): set<ChunkHash> {
    set r | r in s.rows && r.blob.Some? :: r.blob.value
  }

  /** Every blob in the effective state of some of these commits. */
  ghost function Effective(s: Store, commits: set<CommitId>): set<ChunkHash>
    requires Valid(s)
  {
    set c, p | c in commits && p in PresentAt(s, c) :: PresentAt(s, c)[p]
  }

  /** A commit's own rows are effective there: everything it inherits was recorded before. */
  lemma OwnRowWins(s: Store, r: Row)
    requires Valid(s) && r in s.rows
    ensures Wins(s, Line(s.parents, r.commit), r)
  {
    LineIsStored(s.parents, s.seqs, r.commit);
  }

  /** Looking at every commit's effective state finds exactly the blobs the rows name. */
  lemma EffectiveIsReferenced(s: Store)
    requires Valid(s)
    ensures Effective(s, s.seqs.Keys) == Referenced(s)
  {
    forall h | h in Referenced(s) ensures h in Effective(s, s.seqs.Keys) {
      var r :| r in s.rows && r.blob == Some(h);
      OwnRowWins(s, r);
      WinnerIsShown(s, Line(s.parents, r.commit), r);
      assert r.coord in PresentAt(s, r.commit);
    }
    forall h | h in Effective(s, s.seqs.Keys) ensures h in Referenced(s) {
      var c, p :| c in s.seqs && p in PresentAt(s, c) && PresentAt(s, c)[p] == h;
      var w := ShownHasWinner(s, Line(s.parents, c), p);
    }
  }

  ghost function BlobsAt(s: Store, c: CommitId): set<ChunkHash>
    requires Valid(s)
  {
    Values(PresentAt(s, c))
  }

  function Values(state: map<Coord, ChunkHash>): set<ChunkHash> {
    set p | p in state :: state[p]
  }

  method BlobsOf(meta: MemMeta, commit: CommitId) returns (found: set<ChunkHash>)
    requires meta.Valid()
    ensures found == BlobsAt(meta.View(), commit)
  {
    var rows := meta.VisitCommitChunks(commit);
    var state := PresentRows(rows);
    found := Values(state);
  }

  lemma EffectiveGrows(s: Store, commits: set<CommitId>, c: CommitId)
    requires Valid(s)
    ensures Effective(s, commits + {c}) == Effective(s, commits) + BlobsAt(s, c)
  {
    forall h ensures h in Effective(s, commits + {c}) <==> h in Effective(s, commits) + BlobsAt(s, c) {
      EffectiveJoins(s, commits, c, h);
    }
  }

  lemma EffectiveJoins(s: Store, commits: set<CommitId>, c: CommitId, h: ChunkHash)
    requires Valid(s)
    ensures h in Effective(s, commits + {c}) <==> h in Effective(s, commits) || h in BlobsAt(s, c)
  {
    EffectiveAt(s, commits + {c}, h);
    EffectiveAt(s, commits, h);
  }

  /** A blob is effective when one of the commits shows it. */
  lemma EffectiveAt(s: Store, commits: set<CommitId>, h: ChunkHash)
    requires Valid(s)
    ensures h in Effective(s, commits) <==> exists c :: c in commits && h in BlobsAt(s, c)
  {
    if c :| c in commits && h in BlobsAt(s, c) {
      var p :| p in PresentAt(s, c) && PresentAt(s, c)[p] == h;
    }
    if h in Effective(s, commits) {
      var c, p :| c in commits && p in PresentAt(s, c) && PresentAt(s, c)[p] == h;
      assert h in BlobsAt(s, c);
    }
  }

  /** Every blob the metadata keeps alive. */
  method Reference(meta: MemMeta) returns (referenced: set<ChunkHash>)
    requires meta.Valid()
    ensures referenced == Referenced(meta.View())
  {
    var commits := meta.VisitCommits();
    ghost var s := meta.View();
    referenced := {};
    for i := 0 to |commits|
      invariant referenced == Effective(s, Ids(commits[..i]))
    {
      var found := BlobsOf(meta, commits[i].id);
      EffectiveGrows(s, Ids(commits[..i]), commits[i].id);
      IdsGrow(commits, i);
      referenced := referenced + found;
    }
    AllIds(meta);
    EffectiveIsReferenced(s);
  }

  lemma IdsGrow(commits: seq<Commit>, i: nat)
    requires i < |commits|
    ensures Ids(commits[..i + 1]) == Ids(commits[..i]) + {commits[i].id}
  {
    assert commits[..i + 1] == commits[..i] + [commits[i]];
    forall x ensures x in Ids(commits[..i + 1]) <==> x in Ids(commits[..i]) + {commits[i].id} {}
  }

  lemma AllIds(meta: MemMeta)
    requires meta.Valid()
    ensures Ids(meta.commits[..|meta.commits|]) == meta.View().seqs.Keys
  {
    assert meta.commits[..|meta.commits|] == meta.commits;
    forall k ensures k in Ids(meta.commits) <==> k in meta.View().seqs.Keys {
      if k in Ids(meta.commits) {
        var c :| c in meta.commits && c.id == k;
      }
      IndexedIsCommit(meta.commits, k);
    }
  }

  /** Find the blobs no history row references. */
  method PlanGc(cas: MemCas, meta: MemMeta) returns (plan: GcPlan)
    requires meta.Valid()
    ensures forall h :: h in plan.orphans <==> h in cas.blobs && h !in Referenced(meta.View())
    ensures Distinct(plan.orphans)
    ensures plan.examined == |cas.blobs|
  {
    var referenced := Reference(meta);
    var keys := cas.VisitBlobs();
    var orphans := [];
    for i := 0 to |keys|
      invariant forall h :: h in orphans <==> h in keys[..i] && h !in referenced
      invariant Distinct(orphans)
    {
      assert keys[..i + 1] == keys[..i] + [keys[i]];
      assert keys[i] !in keys[..i];
      if keys[i] !in referenced {
        orphans := orphans + [keys[i]];
      }
    }
    assert keys[..|keys|] == keys;
    plan := GcPlan(orphans, |keys|);
  }

  /** Of the planned hashes, those stored and unreferenced. */
  ghost function Doomed(planned: seq<ChunkHash>, blobs: BlobMap, referenced: set<ChunkHash>): set<ChunkHash> {
    set h | h in planned && h in blobs && h !in referenced
  }

  /** How many of the listed hashes are in the set, repeats counted. */
  function Hits(planned: seq<ChunkHash>, members: set<ChunkHash>): nat {
    if planned == [] then 0
    else Hits(planned[..|planned| - 1], members) + if planned[|planned| - 1] in members then 1 else 0
  }

  lemma HitsGrow(planned: seq<ChunkHash>, i: nat, members: set<ChunkHash>)
    requires i < |planned|
    ensures Hits(planned[..i + 1], members) == Hits(planned[..i], members) + if planned[i] in members then 1 else 0
  {
    assert planned[..i + 1][..i] == planned[..i];
  }

  /** Without repeats the count is the size of the common part. */
  lemma {:induction false} HitsWithoutRepeats(planned: seq<ChunkHash>, members: set<ChunkHash>)
    requires Distinct(planned)
    ensures Hits(planned, members) == |Elements(planned) * members|
    decreases |planned|
  {
    if planned == [] {
      assert Elements(planned) * members == {};
    } else {
      var n := |planned| - 1;
      HitsWithoutRepeats(planned[..n], members);
      CutGrows(planned, n, members);
      assert planned[..n + 1] == planned;
      assert planned[n] !in Elements(planned[..n]) * members;
    }
  }

  /** The stored blobs no row names. */
  ghost function Orphans(s: Store, blobs: BlobMap): set<ChunkHash> {
    blobs.Keys - Referenced(s)
  }

  /** Remove the planned blobs that a fresh look still finds unreferenced, and nothing else. */
  method ApplyGc(cas: MemCas, meta: MemMeta, plan: GcPlan) returns (report: GcReport)
    requires meta.Valid()
    modifies cas
    ensures cas.blobs == old(cas.blobs) - Doomed(plan.orphans, old(cas.blobs), Referenced(meta.View()))
    ensures forall h :: h in cas.blobs <==>
      h in old(cas.blobs) && !(h in plan.orphans && forall r | r in meta.View().rows :: r.blob != Some(h))
    ensures forall h | h in cas.blobs :: cas.blobs[h] == old(cas.blobs)[h]
    ensures report.candidates == |plan.orphans|
    ensures report.orphans == Hits(plan.orphans, Orphans(meta.View(), old(cas.blobs)))
    ensures report.removed + |cas.blobs| == |old(cas.blobs)|
    ensures Distinct(plan.orphans) ==> report.removed == report.orphans
  {
    var again := PlanGc(cas, meta);
    PlannedAreOrphans(meta.View(), cas.blobs, again.orphans);
    SweptAreDoomed(meta.View(), cas.blobs, plan.orphans);
    var orphans, removed := Sweep(cas, plan.orphans, Elements(again.orphans));
    forall h ensures h in Referenced(meta.View()) <==> exists r :: r in meta.View().rows && r.blob == Some(h) {}
    report := GcReport(|plan.orphans|, orphans, removed);
  }

  lemma PlannedAreOrphans(s: Store, blobs: BlobMap, planned: seq<ChunkHash>)
    requires forall h :: h in planned <==> h in blobs && h !in Referenced(s)
    ensures Elements(planned) == Orphans(s, blobs)
  {
  }

  lemma SweptAreDoomed(s: Store, blobs: BlobMap, planned: seq<ChunkHash>)
    ensures Elements(planned) * Orphans(s, blobs) == Doomed(planned, blobs, Referenced(s))
    ensures Distinct(planned) ==>
      Hits(planned, Orphans(s, blobs)) + |blobs - Doomed(planned, blobs, Referenced(s))| == |blobs|
  {
    assert Elements(planned) * Orphans(s, blobs) == Doomed(planned, blobs, Referenced(s));
    if Distinct(planned) {
      HitsWithoutRepeats(planned, Orphans(s, blobs));
      MinusSize(blobs, Doomed(planned, blobs, Referenced(s)));
    }
  }

  method Sweep(cas: MemCas, planned: seq<ChunkHash>, stillOrphan: set<ChunkHash>) returns (orphans: nat, removed: nat)
    modifies cas
    ensures cas.blobs == old(cas.blobs) - Elements(planned) * stillOrphan
    ensures removed + |cas.blobs| == |old(cas.blobs)| && orphans == Hits(planned, stillOrphan)
  {
    orphans, removed := 0, 0;
    ghost var before := cas.blobs;
    MinusNothing(before, Elements(planned[..0]) * stillOrphan);
    for i := 0 to |planned|
      invariant cas.blobs == before - Elements(planned[..i]) * stillOrphan
      invariant removed + |cas.blobs| == |before| && orphans == Hits(planned[..i], stillOrphan)
    {
      SweptGrows(before, planned, i, stillOrphan);
      HitsGrow(planned, i, stillOrphan);
      var hit, gone := SweepOne(cas, planned[i], stillOrphan);
      orphans := orphans + if hit then 1 else 0;
      removed := removed + if gone then 1 else 0;
    }
    assert planned[..|planned|] == planned;
  }

  method SweepOne(cas: MemCas, hash: ChunkHash, stillOrphan: set<ChunkHash>) returns (hit: bool, gone: bool)
    modifies cas
    ensures cas.blobs == if hash in stillOrphan then old(cas.blobs) - {hash} else old(cas.blobs)
    ensures hit == (hash in stillOrphan) && |old(cas.blobs)| == |cas.blobs| + if gone then 1 else 0
  {
    hit, gone := hash in stillOrphan, false;
    if hit {
      MinusOne(cas.blobs, hash);
      gone := cas.Remove(hash);
    }
  }

  lemma SweptGrows(m: BlobMap, s: seq<ChunkHash>, i: nat, kept: set<ChunkHash>)
    requires i < |s|
    ensures m - Elements(s[..i + 1]) * kept
      == if s[i] in kept then m - Elements(s[..i]) * kept - {s[i]} else m - Elements(s[..i]) * kept
  {
    CutGrows(s, i, kept);
    MinusTwice(m, Elements(s[..i]) * kept, s[i]);
    MinusNothing(m, {});
  }

  lemma CutGrows<T>(s: seq<T>, i: nat, kept: set<T>)
    requires i < |s|
    ensures Elements(s[..i + 1]) * kept == Elements(s[..i]) * kept + (if s[i] in kept then {s[i]} else {})
  {
    assert s[..i + 1] == s[..i] + [s[i]];
  }

  lemma MinusNothing<K, V>(m: map<K, V>, d: set<K>)
    requires d == {}
    ensures m - d == m
  {
  }

  lemma MinusTwice<K, V>(m: map<K, V>, d: set<K>, k: K)
    ensures m - d - {k} == m - (d + {k})
  {
  }

  lemma MinusOne<K, V>(m: map<K, V>, k: K)
    ensures k in m ==> |m - {k}| == |m| - 1
    ensures k !in m ==> m - {k} == m
  {
    assert (m - {k}).Keys == m.Keys - {k} && |m| == |m.Keys| && |m - {k}| == |(m - {k}).Keys|;
  }

  lemma MinusSize<K, V>(m: map<K, V>, d: set<K>)
    requires d <= m.Keys
    ensures |m - d| + |d| == |m|
  {
    assert (m - d).Keys == m.Keys - d && |m| == |m.Keys| && |m - d| == |(m - d).Keys|;
  }

  // ----- safety -----

  /** Every blob of every commit's effective state can be fetched. */
  ghost predicate Fetchable(s: Store, blobs: BlobMap)
    requires Valid(s)
  {
    forall c, p | c in s.seqs && p in PresentAt(s, c) :: PresentAt(s, c)[p] in blobs
  }

  lemma FetchableIsReferenced(s: Store, blobs: BlobMap)
    requires Valid(s)
    ensures Fetchable(s, blobs) <==> Referenced(s) <= blobs.Keys
  {
    EffectiveIsReferenced(s);
    if Fetchable(s, blobs) {
      forall h | h in Referenced(s) ensures h in blobs {
        var c, p :| c in s.seqs && p in PresentAt(s, c) && PresentAt(s, c)[p] == h;
      }
    }
    if Referenced(s) <= blobs.Keys {
      forall c, p | c in s.seqs && p in PresentAt(s, c) ensures PresentAt(s, c)[p] in blobs {
        assert PresentAt(s, c)[p] in Effective(s, s.seqs.Keys);
      }
    }
  }

  /** Whatever plan is applied, however old, every commit's state stays fetchable with the same bytes. */
  lemma CollectingIsSafe(s: Store, blobs: BlobMap, planned: seq<ChunkHash>)
    requires Valid(s) && Fetchable(s, blobs)
    ensures var left := blobs - Doomed(planned, blobs, Referenced(s));
      Fetchable(s, left) && forall h | h in Referenced(s) :: h in left && h in blobs && left[h] == blobs[h]
  {
    FetchableIsReferenced(s, blobs);
    FetchableIsReferenced(s, blobs - Doomed(planned, blobs, Referenced(s)));
  }

  /** Applying a plan made on the same store leaves no orphan: what stays is exactly what is referenced. */
  lemma CollectingIsExact(s: Store, blobs: BlobMap, planned: seq<ChunkHash>)
    requires Valid(s) && Fetchable(s, blobs)
    requires forall h :: h in planned <==> h in blobs && h !in Referenced(s)
    ensures (blobs - Doomed(planned, blobs, Referenced(s))).Keys == Referenced(s)
  {
    FetchableIsReferenced(s, blobs);
  }
}
