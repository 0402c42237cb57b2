/** Planning and applying a prune against the in-memory store. */
module PruneRun {
  import opened Base
  import opened Order
  import opened Ancestry
  import opened History
  import opened Retire
  import opened Prune
  import opened MemStore
  import Port

  /** Mark one level as seen and collect the parents of what was new. */
  method Advance(parents: map<CommitId, seq<CommitId>>, level: seq<CommitId>, before: set<CommitId>, ghost g: Graph)
    returns (seen: set<CommitId>, next: seq<CommitId>)
    requires Indexes(parents, g)
    ensures seen == before + Elements(level)
    ensures forall b | b in seen - before :: ParentsOf(g, b) <= Elements(next)
    ensures forall p | p in next :: exists b :: b in level && p in ParentsOf(g, b)
    ensures seen == before ==> next == []
  {
    seen, next := before, [];
    for i := 0 to |level|
      invariant seen == before + Elements(level[..i])
      invariant forall b | b in seen - before :: ParentsOf(g, b) <= Elements(next)
      invariant forall p | p in next :: exists b :: b in level && p in ParentsOf(g, b)
      invariant seen == before ==> next == []
    {
      var id := level[i];
      PopElements(level[..i + 1]);
      assert level[..i + 1][..i] == level[..i];
      if id in seen { continue; }
      seen := seen + {id};
      if id in parents {
        forall p | p in parents[id] ensures p in ParentsOf(g, id) {
          assert p in Elements(parents[id]);
        }
        next := next + parents[id];
      }
    }
    assert level[..|level|] == level;
  }

  /** Ancestors by level: the parents first, then their parents, until a level is empty. */
  method LevelWalk(parents: map<CommitId, seq<CommitId>>, keep: CommitId, ghost g: Graph) returns (seen: set<CommitId>)
    requires Indexes(parents, g)
    ensures seen == Ancestors(g, keep)
  {
    seen := {};
    var level := if keep in parents then parents[keep] else [];
    Port.AncestorsClosed(g, keep);
    while level != []
      invariant seen <= Ancestors(g, keep)
      invariant Elements(level) <= Ancestors(g, keep)
      invariant ParentsOf(g, keep) <= seen + Elements(level)
      invariant forall b | b in seen :: ParentsOf(g, b) <= seen + Elements(level)
      decreases Ancestors(g, keep) - seen, |level|
    {
      ghost var here := level;
      seen, level := Advance(parents, level, seen, g);
      forall p | p in level ensures p in Ancestors(g, keep) {
        var b :| b in here && p in ParentsOf(g, b);
        assert b in Elements(here);
      }
    }
    ClosedHoldsAncestors(g, seen, keep);
  }

  /** Walk up from every retained commit in turn. */
  method RetainedAncestry(commits: seq<Commit>, retained: set<CommitId>) returns (ancestry: Snapshot)
    ensures ancestry == SnapshotOf(Edges(commits), retained)
  {
    var parents := ParentIndex(commits);
    ParentIndexIsEdges(commits);
    ancestry := map[];
    var left := retained;
    while left != {}
      invariant left <= retained
      invariant ancestry == SnapshotOf(Edges(commits), retained - left)
      decreases left
    {
      var keep := Least(left);
      var seen := LevelWalk(parents, keep, Edges(commits));
      ancestry := ancestry[keep := seen];
      left := left - {keep};
    }
    assert retained - {} == retained;
  }

  function Listed(commits: seq<Commit>, wanted: set<CommitId>): seq<CommitId> {
    if commits == [] then [] else
      (if commits[0].id in wanted then [commits[0].id] else []) + Listed(commits[1..], wanted)
  }

  lemma {:induction false} ListedHolds(commits: seq<Commit>, wanted: set<CommitId>)
    ensures forall x :: x in Listed(commits, wanted) <==> x in Ids(commits) && x in wanted
  {
    if commits != [] {
      ListedHolds(commits[1..], wanted);
      forall x ensures x in Listed(commits, wanted) <==> x in Ids(commits) && x in wanted {}
    }
  }

  lemma {:induction false} ListedIsDistinct(commits: seq<Commit>, wanted: set<CommitId>)
    requires DistinctIds(commits)
    ensures Distinct(Listed(commits, wanted))
  {
    if commits != [] {
      var rest := Listed(commits[1..], wanted);
      ListedIsDistinct(commits[1..], wanted);
      ListedHolds(commits[1..], wanted);
      forall x | x in rest ensures x != commits[0].id {
        var c :| c in commits[1..] && c.id == x;
      }
    }
  }

  predicate OldestFirst(ids: seq<CommitId>, seqs: map<CommitId, nat>) {
    forall i, j | 0 <= i < j < |ids| :: ids[i] in seqs && ids[j] in seqs && seqs[ids[i]] < seqs[ids[j]]
  }

  /** Listing keeps the order of the history. */
  lemma {:induction false} ListedInOrder(commits: seq<Commit>, wanted: set<CommitId>, seqs: map<CommitId, nat>)
    requires forall c | c in commits :: c.id in seqs
    requires forall i, j | 0 <= i < j < |commits| :: seqs[commits[i].id] < seqs[commits[j].id]
    ensures OldestFirst(Listed(commits, wanted), seqs)
  {
    if commits != [] {
      var rest := Listed(commits[1..], wanted);
      ListedInOrder(commits[1..], wanted, seqs);
      ListedHolds(commits[1..], wanted);
      forall i | 0 <= i < |rest| ensures rest[i] in seqs && seqs[commits[0].id] < seqs[rest[i]] {
        assert rest[i] in rest;
        var k :| 0 <= k < |commits[1..]| && commits[1..][k].id == rest[i];
        assert commits[k + 1].id == rest[i];
      }
    }
  }

  lemma ViewHasIds(meta: MemMeta)
    requires meta.Valid()
    ensures Ids(meta.commits) == meta.seqs.Keys
  {
    forall k ensures k in Ids(meta.commits) <==> k in meta.seqs {
      IndexedIsCommit(meta.commits, k);
      if k in Ids(meta.commits) {
        var c :| c in meta.commits && c.id == k;
      }
    }
  }

  /** The first deletion without a fold target, if any. */
  method CheckTargets(ancestry: Snapshot, retained: set<CommitId>, delete: seq<CommitId>)
    returns (refused: Option<PruneError>, ghost at: nat)
    ensures refused.None? <==> forall x | x in delete :: FoldTarget(ancestry, retained, x).Ok?
    ensures refused.Some? ==>
      && at < |delete| && FoldTarget(ancestry, retained, delete[at]) == Err(refused.value)
      && forall x | x in delete[..at] :: FoldTarget(ancestry, retained, x).Ok?
  {
    for i := 0 to |delete|
      invariant forall x | x in delete[..i] :: FoldTarget(ancestry, retained, x).Ok?
    {
      var target := FoldTarget(ancestry, retained, delete[i]);
      assert delete[..i + 1] == delete[..i] + [delete[i]];
      if target.Err? { return Some(target.error), i; }
    }
    assert delete[..|delete|] == delete;
    return None, 0;
  }

  /** When a selection can be planned: something stays, all of it is stored, and everything else has a target. */
  ghost predicate Plannable(s: Store, retained: set<CommitId>) {
    && (s.seqs.Keys != {} ==> retained != {})
    && retained <= s.seqs.Keys
    && forall x | x in s.seqs.Keys - retained :: FoldTarget(SnapshotOf(s.parents, retained), retained, x).Ok?
  }

  /**
   A refusal names what is wrong: an empty selection, the least unknown commit, or the oldest
   deletion without a target.
   */
  ghost predicate Grounded(error: PruneError, seqs: map<CommitId, nat>, g: Graph, retained: set<CommitId>) {
    match error
    case NothingRetained => retained == {}
    case UnknownRetained(id) =>
      id in retained && id !in seqs && forall k | k in retained && k !in seqs :: id <= k
    case _ => exists x :: OldestUntargeted(error, x, seqs, g, retained)
  }

  ghost predicate OldestUntargeted(error: PruneError, x: CommitId, seqs: map<CommitId, nat>, g: Graph,
                                   retained: set<CommitId>)
  {
    && x in seqs && x !in retained && FoldTarget(SnapshotOf(g, retained), retained, x) == Err(error)
    && forall y | y in seqs && y !in retained && seqs[y] < seqs[x] ::
         FoldTarget(SnapshotOf(g, retained), retained, y).Ok?
  }

  lemma LeastIsNamed(unknown: CommitId, seqs: map<CommitId, nat>, g: Graph, retained: set<CommitId>)
    requires IsLeast(unknown, retained - seqs.Keys)
    ensures Grounded(UnknownRetained(unknown), seqs, g, retained)
  {
    forall k | k in retained && k !in seqs ensures k in retained - seqs.Keys {}
  }

  lemma FirstIsOldest(error: PruneError, delete: seq<CommitId>, i: nat, seqs: map<CommitId, nat>, g: Graph,
                      retained: set<CommitId>)
    requires i < |delete| && OldestFirst(delete, seqs) && Elements(delete) == seqs.Keys - retained
    requires FoldTarget(SnapshotOf(g, retained), retained, delete[i]) == Err(error)
    requires forall x | x in delete[..i] :: FoldTarget(SnapshotOf(g, retained), retained, x).Ok?
    ensures Grounded(error, seqs, g, retained)
  {
    OldestIsNamed(error, delete, i, seqs, g, retained);
  }

  lemma OldestIsNamed(error: PruneError, delete: seq<CommitId>, i: nat, seqs: map<CommitId, nat>, g: Graph,
                      retained: set<CommitId>)
    requires i < |delete| && OldestFirst(delete, seqs) && Elements(delete) == seqs.Keys - retained
    requires FoldTarget(SnapshotOf(g, retained), retained, delete[i]) == Err(error)
    requires forall x | x in delete[..i] :: FoldTarget(SnapshotOf(g, retained), retained, x).Ok?
    ensures OldestUntargeted(error, delete[i], seqs, g, retained)
  {
    assert delete[i] in Elements(delete);
    forall y | y in seqs && y !in retained && seqs[y] < seqs[delete[i]] ensures y in delete[..i] {
      assert y in Elements(delete);
      var j :| 0 <= j < |delete| && delete[j] == y;
      assert j < i && delete[..i][j] == y;
    }
  }

  /** List the commits to delete, everything but `retained`, and check that each has somewhere to fold. */
  method PlanPrune(meta: MemMeta, retained: set<CommitId>) returns (r: Result<PrunePlan, PruneError>)
    requires meta.Valid()
    ensures r.Ok? <==> Plannable(meta.View(), retained)
    ensures r.Ok? ==> Elements(r.value.delete) == meta.seqs.Keys - retained && Elements(r.value.retained) == retained
    ensures r.Ok? ==> Accepted(meta.View(), r.value)
    ensures r.Ok? ==> OldestFirst(r.value.delete, meta.seqs) && OldestFirst(r.value.retained, meta.seqs)
    ensures r.Err? ==> Grounded(r.error, meta.seqs, meta.View().parents, retained)
  {
    var commits := meta.VisitCommits();
    ViewHasIds(meta);
    r := PlanFor(commits, retained, meta.seqs);
    if r.Ok? {
      PlanIsAccepted(meta.View(), r.value);
      ListedInOrder(commits, Ids(commits) - retained, meta.seqs);
      ListedInOrder(commits, retained, meta.seqs);
    }
  }

  lemma PlanIsAccepted(s: Store, plan: PrunePlan)
    requires Elements(plan.delete) == s.seqs.Keys - Elements(plan.retained) && Distinct(plan.delete)
    requires forall x | x in s.seqs.Keys - Elements(plan.retained) :: Target(s, plan, x).Ok?
    ensures Accepted(s, plan)
  {
    forall x | x in plan.delete ensures x in s.seqs && x !in plan.retained && Target(s, plan, x).Ok? {
      assert x in Elements(plan.delete);
      assert x in plan.retained ==> x in Elements(plan.retained);
    }
  }

  /** The plan over a listed history. */
  method PlanFor(commits: seq<Commit>, retained: set<CommitId>, ghost seqs: map<CommitId, nat>)
    returns (r: Result<PrunePlan, PruneError>)
    requires DistinctIds(commits) && Ids(commits) == seqs.Keys && InListOrder(commits, seqs)
    ensures r.Ok? <==> (
      && (Ids(commits) != {} ==> retained != {})
      && retained <= Ids(commits)
      && forall x | x in Ids(commits) - retained :: FoldTarget(SnapshotOf(Edges(commits), retained), retained, x).Ok?)
    ensures r.Ok? ==> Elements(r.value.delete) == Ids(commits) - retained && Elements(r.value.retained) == retained
    ensures r.Ok? ==> Distinct(r.value.delete)
    ensures r.Ok? ==> r.value == PrunePlan(Listed(commits, Ids(commits) - retained), Listed(commits, retained))
    ensures r.Err? ==> Grounded(r.error, seqs, Edges(commits), retained)
  {
    var existing := Ids(commits);
    if existing != {} && retained == {} { return Err(NothingRetained); }
    if retained - existing != {} {
      var unknown := Least(retained - existing);
      LeastIsNamed(unknown, seqs, Edges(commits), retained);
      return Err(UnknownRetained(unknown));
    }
    NothingMissing(retained, existing);
    var delete := Listed(commits, existing - retained);
    var kept := Listed(commits, retained);
    ListedHolds(commits, existing - retained);
    ListedHolds(commits, retained);
    assert forall x :: x in kept <==> x in retained;
    var ancestry := RetainedAncestry(commits, retained);
    var refused;
    ghost var at;
    refused, at := CheckTargets(ancestry, retained, delete);
    assert forall x :: x in delete <==> x in Elements(delete);
    ListedIsDistinct(commits, existing - retained);
    SameMembers(Elements(delete), existing - retained);
    if refused.Some? {
      ListedInOrder(commits, seqs.Keys - retained, seqs);
      FirstIsOldest(refused.value, delete, at, seqs, Edges(commits), retained);
      return Err(refused.value);
    }
    SameMembers(Elements(kept), retained);
    return Ok(PrunePlan(delete, kept));
  }

  /** Later in the list means a greater sequence number. */
  ghost predicate InListOrder(commits: seq<Commit>, seqs: map<CommitId, nat>) {
    && (forall c | c in commits :: c.id in seqs)
    && forall i, j | 0 <= i < j < |commits| :: seqs[commits[i].id] < seqs[commits[j].id]
  }

  lemma NothingMissing(a: set<CommitId>, b: set<CommitId>)
    requires a - b == {}
    ensures a <= b && b * a == a
  {
    assert forall x | x in a :: x !in a - b;
  }

  /** The rows held by the commits of `done`. */
  ghost function RowsAmong(s: Store, done: set<CommitId>): set<Row> {
    set r | r in s.rows && r.commit in done
  }

  lemma RowsAmongGrows(s: Store, t: Store, done: set<CommitId>, x: CommitId)
    requires x !in done
    requires forall r: Row | r.commit == x :: r in t.rows <==> r in s.rows
    ensures |RowsAmong(s, done + {x})| == |RowsAmong(s, done)| + |RowsOf(t, x)|
  {
    assert RowsAmong(s, done + {x}) == RowsAmong(s, done) + RowsOf(t, x);
    assert RowsAmong(s, done) !! RowsOf(t, x);
  }

  /** What the run maintains once the commits of `done` are retired. */
  ghost predicate Progress(s: Store, plan: PrunePlan, done: set<CommitId>, t: Store)
    requires Valid(s) && Valid(t)
  {
    Contracted(s, plan, done, t) && StatesKept(s, plan, t)
  }

  lemma TurnProgresses(s: Store, plan: PrunePlan, done: set<CommitId>, t: Store, x: CommitId)
    requires Valid(s) && Valid(t) && Progress(s, plan, done, t)
    requires done <= Elements(plan.delete) && x in plan.delete && x !in done && x !in plan.retained
    requires Target(s, plan, x).Ok? && Retirable(t, x, Target(s, plan, x).value)
    ensures Valid(Retired(t, x, Target(s, plan, x).value))
    ensures Progress(s, plan, done + {x}, Retired(t, x, Target(s, plan, x).value))
    ensures |RowsAmong(s, done + {x})| == |RowsAmong(s, done)| + |RowsOf(t, x)|
  {
    TurnKeepsStates(s, plan, done, t, x);
    TurnContracts(s, plan, done, t, x);
    RowsAmongGrows(s, t, done, x);
  }

  lemma DoneGrows(ids: seq<CommitId>, i: nat)
    requires i < |ids|
    ensures Elements(ids[..i + 1]) == Elements(ids[..i]) + {ids[i]}
    ensures Elements(ids[..i]) <= Elements(ids)
    ensures Distinct(ids) ==> ids[i] !in Elements(ids[..i])
  {
    PopElements(ids[..i + 1]);
    assert ids[..i + 1][..i] == ids[..i];
  }

  /** The first `n` deletions are retired, and the run did not stop before them. */
  ghost predicate Reached(s: Store, plan: PrunePlan, n: nat, t: Store)
    requires Valid(s) && Valid(t)
  {
    && n <= |plan.delete| && AcceptedUpTo(s, plan, n) && Progress(s, plan, Elements(plan.delete[..n]), t)
    && t.rows == RowsAfter(s, plan, n) && RefsMoved(s, plan, Elements(plan.delete[..n]), t.refs)
  }

  lemma ReachedStart(s: Store, plan: PrunePlan)
    requires Valid(s)
    ensures Reached(s, plan, 0, s) && RowsAmong(s, Elements(plan.delete[..0])) == {}
  {
    ContractedAtStart(s, plan);
    assert Elements(plan.delete[..0]) == {};
  }

  lemma OneMoreReached(s: Store, plan: PrunePlan, n: nat, t: Store, u: Store)
    requires Valid(s) && Valid(t) && Valid(u) && Reached(s, plan, n, t) && n < |plan.delete|
    requires plan.delete[n] in s.seqs && plan.delete[n] !in Elements(plan.delete[..n])
    requires Target(s, plan, plan.delete[n]).Ok?
    requires Progress(s, plan, Elements(plan.delete[..n]) + {plan.delete[n]}, u)
    requires u.rows == RowsFolded(s, t.rows, plan.delete[n], Target(s, plan, plan.delete[n]).value)
    requires RefsMoved(s, plan, Elements(plan.delete[..n]) + {plan.delete[n]}, u.refs)
    ensures Reached(s, plan, n + 1, u)
  {
    DoneGrows(plan.delete, n);
    OneMoreAccepted(s, plan, n);
  }

  lemma OneMoreAccepted(s: Store, plan: PrunePlan, n: nat)
    requires n < |plan.delete| && AcceptedUpTo(s, plan, n)
    requires plan.delete[n] in s.seqs && plan.delete[n] !in Elements(plan.delete[..n])
    requires Target(s, plan, plan.delete[n]).Ok?
    ensures AcceptedUpTo(s, plan, n + 1)
  {
    forall i | 0 <= i < n ensures plan.delete[i] != plan.delete[n] {
      assert plan.delete[i] in plan.delete[..n];
    }
  }

  /** The report after `n` retirements; `before` and `now` count the stored rows. */
  ghost predicate Booked(s: Store, plan: PrunePlan, n: nat, t: Store, report: PruneReport, before: nat, now: nat)
    requires Valid(s) && Valid(t)
  {
    && Reached(s, plan, n, t) && report.pruned == n
    && report.rowsFolded + report.rowsDropped == |RowsAmong(s, Elements(plan.delete[..n]))|
    && now + report.rowsDropped == before
  }

  lemma BookedEnd(s: Store, plan: PrunePlan, t: Store, report: PruneReport, before: nat, now: nat)
    requires Valid(s) && Valid(t) && Booked(s, plan, |plan.delete|, t, report, before, now)
    requires forall x | x in plan.delete :: x !in plan.retained
    ensures FinishedRows(s, plan, t) && report.pruned == |plan.delete| && now + report.rowsDropped == before
    ensures RefsMoved(s, plan, Elements(plan.delete), t.refs)
    ensures report.rowsFolded + report.rowsDropped == |RowsAmong(s, Elements(plan.delete))|
  {
    assert plan.delete[..|plan.delete|] == plan.delete;
  }

  /** Retire the next planned commit into its target. */
  method RetireOne(meta: MemMeta, plan: PrunePlan, target: Result<CommitId, PruneError>, n: nat, report: PruneReport,
                   ghost s: Store, ghost before: nat)
    returns (r: Result<PruneReport, PruneError>)
    requires Valid(s) && meta.Valid() && n < |plan.delete|
    requires Booked(s, plan, n, meta.View(), report, before, |meta.rows|)
    requires target == Target(s, plan, plan.delete[n]) && (forall c | c in plan.delete :: c !in plan.retained)
    modifies meta
    ensures meta.Valid()
    ensures r.Ok? ==> Booked(s, plan, n + 1, meta.View(), r.value, before, |meta.rows|)
    ensures r.Err? ==> meta.View() == old(meta.View()) && RefusedAt(s, plan, n, r.error)
  {
    if target.Err? { return Err(target.error); }
    ghost var t := meta.View();
    ghost var done := Elements(plan.delete[..n]);
    var x := plan.delete[n];
    DoneGrows(plan.delete, n);
    if x !in s.seqs { GoneHasNoSuccessor(s, plan, x); }
    if x !in done {
      TurnIsRetirable(s, plan, done, t, x);
      TurnProgresses(s, plan, done, t, x);
      TurnFolds(s, plan, done, t, x, target.value);
    }
    var outcome := meta.RetireCommit(x, target.value);
    if outcome.Err? { return Err(Meta(outcome.error)); }
    TurnMovesRefs(s, plan, done, t.refs, x, meta.refs);
    OneMoreReached(s, plan, n, t, meta.View());
    return Ok(PruneReport(report.pruned + 1, report.rowsFolded + outcome.value.folded,
                          report.rowsDropped + outcome.value.dropped));
  }

  /** Retire the planned commits in order, stopping at the first refusal. */
  method RetireAll(meta: MemMeta, plan: PrunePlan, retained: set<CommitId>, ancestry: Snapshot, ghost s: Store)
    returns (r: Result<PruneReport, PruneError>, ghost at: nat)
    requires meta.Valid() && meta.View() == s
    requires retained == Elements(plan.retained) && ancestry == SnapshotOf(s.parents, retained)
    requires forall x | x in plan.delete :: x !in plan.retained
    modifies meta
    ensures meta.Valid()
    ensures r.Ok? ==> Booked(s, plan, |plan.delete|, meta.View(), r.value, |old(meta.rows)|, |meta.rows|)
    ensures r.Err? ==> Reached(s, plan, at, meta.View()) && RefusedAt(s, plan, at, r.error)
  {
    ReachedStart(s, plan);
    var report := PruneReport(0, 0, 0);
    ghost var before := |meta.rows|;
    for n := 0 to |plan.delete|
      invariant meta.Valid() && Booked(s, plan, n, meta.View(), report, before, |meta.rows|)
    {
      var target := FoldTarget(ancestry, retained, plan.delete[n]);
      var outcome := RetireOne(meta, plan, target, n, report, s, before);
      if outcome.Err? { return Err(outcome.error), n; }
      report := outcome.value;
    }
    return Ok(report), |plan.delete|;
  }

  /** How far a run got: to its end, or to the first deletion it could not fold. */
  ghost predicate Stopped(s: Store, plan: PrunePlan, error: PruneError, t: Store)
    requires Valid(s) && Valid(t)
  {
    if exists x :: x in plan.delete && x in plan.retained then error.OverlappingPlan? && t == s
    else exists n: nat ::
      && RefusedAt(s, plan, n, error) && t.seqs == s.seqs - Elements(plan.delete[..n])
      && RefsMoved(s, plan, Elements(plan.delete[..n]), t.refs)
  }

  /**
   Retire the planned commits in order. The run succeeds exactly when the plan is accepted;
   it then deletes exactly its commits and accounts for every row they held. Otherwise it
   stops at the first deletion it cannot fold, with the ones before it retired. Whatever plan
   is given and however far it gets, every supported commit with a clear view keeps its state.
   */
  method ApplyPrune(meta: MemMeta, plan: PrunePlan) returns (r: Result<PruneReport, PruneError>)
    requires meta.Valid()
    modifies meta
    ensures meta.Valid() && meta.seqs.Keys <= old(meta.seqs.Keys) && StatesKept(old(meta.View()), plan, meta.View())
    ensures r.Ok? <==> Accepted(old(meta.View()), plan)
    ensures r.Ok? ==> FinishedRows(old(meta.View()), plan, meta.View())
    ensures r.Ok? ==> RefsMoved(old(meta.View()), plan, Elements(plan.delete), meta.refs)
    ensures r.Ok? ==> (
      && r.value.pruned == |plan.delete|
      && meta.seqs == old(meta.seqs) - Elements(plan.delete)
      && r.value.rowsFolded + r.value.rowsDropped == |RowsAmong(old(meta.View()), Elements(plan.delete))|
      && |meta.rows| + r.value.rowsDropped == |old(meta.rows)|)
    ensures r.Err? ==> Stopped(old(meta.View()), plan, r.error, meta.View())
  {
    ghost var s := meta.View();
    var retained := Elements(plan.retained);
    ContractedAtStart(s, plan);
    for i := 0 to |plan.delete|
      invariant forall k | 0 <= k < i :: plan.delete[k] !in retained
    {
      if plan.delete[i] in retained { return Err(OverlappingPlan(plan.delete[i])); }
    }
    var commits := meta.VisitCommits();
    // `SnapshotStaysTrue`: targets found now hold at every later turn.
    var ancestry := RetainedAncestry(commits, retained);
    ghost var at;
    r, at := RetireAll(meta, plan, retained, ancestry, s);
    if r.Ok? {
      BookedEnd(s, plan, meta.View(), r.value, |old(meta.rows)|, |meta.rows|);
    } else {
      RefusedIsNotAccepted(s, plan, at, r.error);
    }
  }

  /**
   On a forest, applying a plan changes the state of no retained or anchored commit. After
   an accepted plan every commit left shows what its line shows without the deletions it lost.
   */
  method PruneForest(meta: MemMeta, plan: PrunePlan) returns (r: Result<PruneReport, PruneError>)
    requires meta.Valid() && Forest(meta.View().parents)
    modifies meta
    ensures meta.Valid()
    ensures var s := old(meta.View());
      forall d | d in meta.seqs && d in s.seqs && d !in plan.delete && (d in plan.retained || Anchored(s, plan, d)) ::
        StateAt(meta.View(), d) == StateAt(s, d)
    ensures r.Ok? ==> LossesShown(old(meta.View()), plan, meta.View())
  {
    ghost var s := meta.View();
    r := ApplyPrune(meta, plan);
    if r.Ok? {
      forall d | d in meta.seqs && d in s.seqs
        ensures StateAt(meta.View(), d) == Shown(s, Line(s.parents, d) - Lost(s, plan, d))
      {
        assert d in s.seqs - Elements(plan.delete);
        FinishedRunShows(s, plan, meta.View(), d);
      }
    }
    if forall x | x in plan.delete :: x !in plan.retained {
      forall d | d in meta.seqs && d !in plan.delete && (d in plan.retained || Anchored(s, plan, d))
        ensures Supported(s, plan, d) && Clear(s, plan, d)
      {
        if d in plan.retained { RetainedIsSupported(s, plan, d); } else { AnchoredIsSupported(s, plan, d); }
        ForestIsClear(s, plan, d);
      }
    }
  }

  ghost predicate LossesShown(s: Store, plan: PrunePlan, t: Store)
    requires Valid(s) && Valid(t)
  {
    forall d | d in t.seqs && d in s.seqs :: StateAt(t, d) == Shown(s, Line(s.parents, d) - Lost(s, plan, d))
  }
}
