/**
 Pruning: delete old commits while every retained commit keeps its effective state.

 A plan names the commits to delete. Each is folded into the retained commit through which
 all its retained descendants continue it. Ancestry is looked up once for the whole
 run; the theorems here say why that is sound and what the run keeps.
 */
module Prune {
  import opened Base
  import opened Order
  import opened Ancestry
  import opened History
  import opened Retire

  /** Commits to delete and commits to keep, oldest first. */
  datatype PrunePlan = PrunePlan(delete: seq<CommitId>, retained: seq<CommitId>)

  datatype PruneReport = PruneReport(pruned: nat, rowsFolded: nat, rowsDropped: nat)

  datatype PruneError =
    | Meta(error: MetaError)
    | NothingRetained
    | UnknownRetained(id: CommitId)
    | NoSuccessor(id: CommitId)
    | SplitBranches(id: CommitId)
    | OverlappingPlan(id: CommitId)

  /** What each retained commit continues. */
  type Snapshot = map<CommitId, set<CommitId>>

  predicate Continues(ancestry: Snapshot, other: CommitId, commit: CommitId) {
    other in ancestry && commit in ancestry[other]
  }

  function Successors(ancestry: Snapshot, retained: set<CommitId>, commit: CommitId): set<CommitId> {
    set d | d in retained && Continues(ancestry, d, commit)
  }

  predicate Covers(ancestry: Snapshot, successors: set<CommitId>, target: CommitId) {
    forall other | other in successors :: other == target || Continues(ancestry, other, target)
  }

  /** The retained descendant that continues the commit and is continued by every other one. */
  function FoldTarget(ancestry: Snapshot, retained: set<CommitId>, commit: CommitId): Result<CommitId, PruneError> {
    var successors := Successors(ancestry, retained, commit);
    var fits := set t | t in successors && Covers(ancestry, successors, t);
    // Candidates are tried in identifier order.
    if fits != {} then Ok(Least(fits))
    else if successors == {} then Err(NoSuccessor(commit))
    else Err(SplitBranches(commit))
  }

  // ----- what the choice means -----

  ghost function SnapshotOf(g: Graph, retained: set<CommitId>): Snapshot {
    map k | k in retained :: Ancestors(g, k)
  }

  ghost function Target(s: Store, plan: PrunePlan, x: CommitId): Result<CommitId, PruneError> {
    var retained := Elements(plan.retained);
    FoldTarget(SnapshotOf(s.parents, retained), retained, x)
  }

  /** `t` is retained, continues `x`, and lies on the line of every retained commit that continues `x`. */
  ghost predicate Funnels(s: Store, plan: PrunePlan, x: CommitId, t: CommitId) {
    && t in plan.retained && x in Ancestors(s.parents, t)
    && forall d | d in plan.retained && x in Ancestors(s.parents, d) :: t in Line(s.parents, d)
  }

  /** The target is the one commit all retained descendants pass through; without it the fold is refused. */
  lemma TargetIsFunnel(s: Store, plan: PrunePlan, x: CommitId)
    requires Valid(s)
    ensures Target(s, plan, x).Ok? ==> Funnels(s, plan, x, Target(s, plan, x).value)
    ensures forall t | Funnels(s, plan, x, t) :: Target(s, plan, x) == Ok(t)
    ensures Target(s, plan, x) == Err(NoSuccessor(x)) <==>
      forall d | d in plan.retained :: x !in Ancestors(s.parents, d)
    ensures Target(s, plan, x).Err? ==> Target(s, plan, x).error in {NoSuccessor(x), SplitBranches(x)}
  {
    var retained := Elements(plan.retained);
    var ancestry := SnapshotOf(s.parents, retained);
    var successors := Successors(ancestry, retained, x);
    var fits := set t | t in successors && Covers(ancestry, successors, t);
    forall t | Funnels(s, plan, x, t) ensures Target(s, plan, x) == Ok(t) {
      assert t in fits;
      forall u | u in fits && u != t ensures false {
        DescendsGoesBack(s.parents, s.seqs, t, u);
        DescendsGoesBack(s.parents, s.seqs, u, t);
      }
    }
    if Target(s, plan, x).Ok? {
      var t := Target(s, plan, x).value;
      assert t in fits;
      forall d | d in plan.retained && x in Ancestors(s.parents, d) ensures t in Line(s.parents, d) {
        assert d in successors;
      }
    }
    if forall d | d in plan.retained :: x !in Ancestors(s.parents, d) {
      assert successors == {};
      assert fits == {};
    }
    if Target(s, plan, x) == Err(NoSuccessor(x)) {
      assert successors == {};
      forall d | d in plan.retained ensures x !in Ancestors(s.parents, d) {
        assert d !in successors;
      }
    }
  }

  /** A commit the store does not hold has no successor, and only stored commits fold. */
  lemma GoneHasNoSuccessor(s: Store, plan: PrunePlan, x: CommitId)
    requires Valid(s) && x !in s.seqs
    ensures Target(s, plan, x) == Err(NoSuccessor(x))
  {
    forall d | d in plan.retained ensures x !in Ancestors(s.parents, d) {
      if Descends(s.parents, d, x) { DescendsGoesBack(s.parents, s.seqs, d, x); }
    }
    TargetIsFunnel(s, plan, x);
  }

  // ----- the run -----

  ghost predicate Accepted(s: Store, plan: PrunePlan) {
    && Distinct(plan.delete)
    && forall x | x in plan.delete :: x in s.seqs && x !in plan.retained && Target(s, plan, x).Ok?
  }

  /** The first `n` deletions are distinct commits with a target. */
  ghost predicate AcceptedUpTo(s: Store, plan: PrunePlan, n: nat)
    requires n <= |plan.delete|
  {
    && (forall i, j | 0 <= i < j < n :: plan.delete[i] != plan.delete[j])
    && forall i | 0 <= i < n :: plan.delete[i] in s.seqs && Target(s, plan, plan.delete[i]).Ok?
  }

  /** Why a run stops at the deletion with index `i`: it has no target, or was retired before. */
  ghost predicate RefusedAt(s: Store, plan: PrunePlan, i: nat, error: PruneError) {
    && i < |plan.delete| && AcceptedUpTo(s, plan, i)
    && match Target(s, plan, plan.delete[i])
       case Err(e) => error == e
       case Ok(t) => plan.delete[i] in plan.delete[..i] && error == Meta(InvalidRetirement(plan.delete[i], t))
  }

  lemma RefusedIsNotAccepted(s: Store, plan: PrunePlan, i: nat, error: PruneError)
    requires RefusedAt(s, plan, i, error)
    ensures !Accepted(s, plan)
  {
    assert plan.delete[i] in plan.delete;
  }

  /** Every deletion `d` inherits from folds into a commit `d` also inherits from. */
  ghost predicate Supported(s: Store, plan: PrunePlan, d: CommitId) {
    forall x | x in plan.delete && x != d && x in Line(s.parents, d) && Target(s, plan, x).Ok? ::
      Target(s, plan, x).value in Line(s.parents, d)
  }

  /** A row of this coordinate is on `w`, or is folded onto it by the plan. */
  ghost predicate MayHold(s: Store, plan: PrunePlan, w: CommitId, p: Coord) {
    exists o ::
      && o in s.rows && o.coord == p
      && (o.commit == w || (o.commit in plan.delete && Target(s, plan, o.commit) == Ok(w)))
  }

  /** As `d` sees it, no fold of the plan lifts a row over one recorded on another branch. */
  ghost predicate Clear(s: Store, plan: PrunePlan, d: CommitId) {
    forall x, r, w | x in plan.delete && x in Line(s.parents, d) && Target(s, plan, x).Ok?
                     && r in RowsOf(s, x) && w in Line(s.parents, d)
                     && w !in Line(s.parents, Target(s, plan, x).value)
                     && w in s.seqs && x in s.seqs && Target(s, plan, x).value in s.seqs
                     && s.seqs[x] < s.seqs[w] < s.seqs[Target(s, plan, x).value] ::
      !MayHold(s, plan, w, r.coord)
  }

  /** Where a row can be found once the commits of `done` are retired. */
  ghost predicate Carries(s: Store, plan: PrunePlan, done: set<CommitId>, o: Row, v: Row) {
    && v.coord == o.coord && v.blob == o.blob
    && (v == o || (o.commit in done && Target(s, plan, o.commit) == Ok(v.commit)))
  }

  /** The shape of the store after the commits of `done` are retired. */
  ghost predicate Contracted(s: Store, plan: PrunePlan, done: set<CommitId>, t: Store) {
    && t.seqs == s.seqs - done
    && (forall c | c in t.seqs :: Line(t.parents, c) == Line(s.parents, c) - done)
    && (forall v | v in t.rows :: exists o :: o in s.rows && Carries(s, plan, done, o, v))
    && (forall r: Row | r.commit !in done && r.commit !in plan.retained :: r in t.rows <==> r in s.rows)
  }

  /** A ref on a commit of `done` now names that commit's target; every other ref is as it was. */
  ghost predicate RefsMoved(s: Store, plan: PrunePlan, done: set<CommitId>, refs: map<RefName, Ref>) {
    && refs.Keys == s.refs.Keys
    && forall n | n in s.refs ::
         && refs[n].active == s.refs[n].active && refs[n].createdAtMs == s.refs[n].createdAtMs
         && (s.refs[n].commit.Some? && s.refs[n].commit.value in done ==>
               refs[n].commit.Some? && Target(s, plan, s.refs[n].commit.value) == Ok(refs[n].commit.value))
         && (s.refs[n].commit.None? || s.refs[n].commit.value !in done ==> refs[n].commit == s.refs[n].commit)
  }

  ghost predicate StatesKept(s: Store, plan: PrunePlan, t: Store)
    requires Valid(s) && Valid(t)
  {
    forall d | d in t.seqs && d in s.seqs && Supported(s, plan, d) && Clear(s, plan, d) ::
      StateAt(t, d) == StateAt(s, d)
  }

  lemma ContractedAtStart(s: Store, plan: PrunePlan)
    requires Valid(s)
    ensures Contracted(s, plan, {}, s) && StatesKept(s, plan, s)
  {
    assert s.seqs - {} == s.seqs;
    forall v | v in s.rows ensures exists o :: o in s.rows && Carries(s, plan, {}, o, v) {
      assert Carries(s, plan, {}, v, v);
    }
  }

  /** At its turn every planned deletion meets the conditions of a retirement. */
  lemma TurnIsRetirable(s: Store, plan: PrunePlan, done: set<CommitId>, t: Store, x: CommitId)
    requires Valid(s) && Contracted(s, plan, done, t)
    requires done <= Elements(plan.delete) && (forall c | c in plan.delete :: c !in plan.retained)
    requires x in s.seqs && x !in done && Target(s, plan, x).Ok?
    ensures Retirable(t, x, Target(s, plan, x).value)
  {
    TargetIsFunnel(s, plan, x);
    var into := Target(s, plan, x).value;
    DescendsGoesBack(s.parents, s.seqs, into, x);
    assert into !in done;
    assert x in Line(t.parents, into);
  }

  /** Fold targets computed once stay the targets a fresh look at the contracted graph would give. */
  lemma SnapshotStaysTrue(s: Store, plan: PrunePlan, done: set<CommitId>, t: Store, x: CommitId)
    requires Valid(s) && Valid(t) && Contracted(s, plan, done, t) && x !in done
    requires forall k | k in plan.retained :: k in s.seqs && k !in done
    ensures Target(t, plan, x) == Target(s, plan, x)
  {
    forall k | k in plan.retained
      ensures Ancestors(t.parents, k) == Ancestors(s.parents, k) - done
      ensures Line(t.parents, k) == Line(s.parents, k) - done
    {
      NotOwnAncestor(s, k);
      NotOwnAncestor(t, k);
    }
    SameFunnels(s, t, plan, done, x);
    TargetIsFunnel(s, plan, x);
    TargetIsFunnel(t, plan, x);
  }

  lemma SameFunnels(s: Store, t: Store, plan: PrunePlan, done: set<CommitId>, x: CommitId)
    requires x !in done && forall k | k in plan.retained :: k !in done
    requires forall k | k in plan.retained :: Ancestors(t.parents, k) == Ancestors(s.parents, k) - done
    requires forall k | k in plan.retained :: Line(t.parents, k) == Line(s.parents, k) - done
    ensures forall f :: Funnels(t, plan, x, f) <==> Funnels(s, plan, x, f)
    ensures (forall d | d in plan.retained :: x !in Ancestors(t.parents, d)) <==>
      (forall d | d in plan.retained :: x !in Ancestors(s.parents, d))
  {
  }

  lemma NotOwnAncestor(s: Store, k: CommitId)
    requires Valid(s)
    ensures k !in Ancestors(s.parents, k)
    ensures Line(s.parents, k) - {k} == Ancestors(s.parents, k)
  {
    if Descends(s.parents, k, k) {
      DescendsGoesBack(s.parents, s.seqs, k, k);
    }
  }

  /** One retirement keeps the shape. */
  lemma TurnContracts(s: Store, plan: PrunePlan, done: set<CommitId>, t: Store, x: CommitId)
    requires Valid(s) && Valid(t) && Contracted(s, plan, done, t)
    requires x !in done && x !in plan.retained && Target(s, plan, x).Ok? && Retirable(t, x, Target(s, plan, x).value)
    ensures Contracted(s, plan, done + {x}, Retired(t, x, Target(s, plan, x).value))
  {
    var into := Target(s, plan, x).value;
    var u := Retired(t, x, into);
    TargetIsFunnel(s, plan, x);
    assert u.seqs == s.seqs - (done + {x});
    forall c | c in u.seqs ensures Line(u.parents, c) == Line(s.parents, c) - (done + {x}) {
      RetiredLine(t, x, into, c);
    }
    forall v | v in u.rows ensures exists o :: o in s.rows && Carries(s, plan, done + {x}, o, v) {
      TurnCarries(s, plan, done, t, x, v);
    }
    forall r: Row | r.commit !in done + {x} && r.commit !in plan.retained ensures r in u.rows <==> r in s.rows {
      if r in s.rows { RowStays(t, x, into, r); }
      if r in u.rows { var a := RowCameFrom(t, x, into, r); }
    }
  }

  lemma TurnCarries(s: Store, plan: PrunePlan, done: set<CommitId>, t: Store, x: CommitId, v: Row)
    requires Valid(s) && Valid(t) && Contracted(s, plan, done, t)
    requires x !in done && x !in plan.retained && Target(s, plan, x).Ok? && Retirable(t, x, Target(s, plan, x).value)
    requires v in Retired(t, x, Target(s, plan, x).value).rows
    ensures exists o :: o in s.rows && Carries(s, plan, done + {x}, o, v)
  {
    var a := RowCameFrom(t, x, Target(s, plan, x).value, v);
    if a.commit == x {
      assert a in s.rows && Carries(s, plan, done + {x}, a, v);
    } else {
      var o :| o in s.rows && Carries(s, plan, done, o, a);
      assert Carries(s, plan, done + {x}, o, v);
    }
  }

  /** A clear view of the original store is a clear view at every turn. */
  lemma TurnDoesNotInterleave(s: Store, plan: PrunePlan, done: set<CommitId>, t: Store, x: CommitId, d: CommitId)
    requires Valid(s) && Valid(t) && Contracted(s, plan, done, t) && done <= Elements(plan.delete)
    requires x in plan.delete && x !in done && x !in plan.retained
    requires Target(s, plan, x).Ok? && Retirable(t, x, Target(s, plan, x).value)
    requires d in t.seqs && d in s.seqs && x in Line(t.parents, d) && Clear(s, plan, d)
    ensures NoInterleaving(t, x, Target(s, plan, x).value, d)
  {
    var into := Target(s, plan, x).value;
    forall r, v | r in RowsOf(t, x) && v in t.rows && v.coord == r.coord
                  && v.commit in Line(t.parents, d) && v.commit !in Line(t.parents, into)
      ensures !(t.seqs[x] < t.seqs[v.commit] < t.seqs[into])
    {
      assert r in RowsOf(s, x);
      var o :| o in s.rows && Carries(s, plan, done, o, v);
      assert o.commit in done ==> o.commit in plan.delete;
      assert MayHold(s, plan, v.commit, r.coord);
    }
  }

  /** A target is retained, so a ref that followed one fold is not moved by another. */
  lemma TurnMovesRefs(s: Store, plan: PrunePlan, done: set<CommitId>, refs: map<RefName, Ref>, x: CommitId,
                      moved: map<RefName, Ref>)
    requires Valid(s) && RefsMoved(s, plan, done, refs) && x !in done && x !in plan.retained
    requires Target(s, plan, x).Ok? && RefsFollow(refs, moved, x, Target(s, plan, x).value)
    ensures RefsMoved(s, plan, done + {x}, moved)
  {
    forall n | n in s.refs && s.refs[n].commit.Some? && s.refs[n].commit.value in done
      ensures refs[n].commit != Some(x)
    {
      TargetIsFunnel(s, plan, s.refs[n].commit.value);
    }
  }

  /** One retirement keeps every supported, clear state. */
  lemma TurnKeepsStates(s: Store, plan: PrunePlan, done: set<CommitId>, t: Store, x: CommitId)
    requires Valid(s) && Valid(t) && Contracted(s, plan, done, t) && StatesKept(s, plan, t)
    requires done <= Elements(plan.delete) && x in plan.delete && x !in done && x !in plan.retained
    requires Target(s, plan, x).Ok? && Retirable(t, x, Target(s, plan, x).value)
    ensures Valid(Retired(t, x, Target(s, plan, x).value))
    ensures StatesKept(s, plan, Retired(t, x, Target(s, plan, x).value))
  {
    var into := Target(s, plan, x).value;
    var u := Retired(t, x, into);
    RetireKeepsValid(t, x, into);
    forall d | d in u.seqs && d in s.seqs && Supported(s, plan, d) && Clear(s, plan, d)
      ensures StateAt(u, d) == StateAt(s, d)
    {
      if x in Line(t.parents, d) {
        TurnDoesNotInterleave(s, plan, done, t, x, d);
        assert into in Line(s.parents, d);
        NoInterleavingSuffices(t, x, into, d);
      }
      RetireIsExact(t, x, into, d);
    }
  }

  // ----- who is supported and clear -----

  /** Retained commits are supported. */
  lemma RetainedIsSupported(s: Store, plan: PrunePlan, d: CommitId)
    requires Valid(s) && d in plan.retained
    ensures Supported(s, plan, d)
  {
    forall x | x in plan.delete && x != d && x in Line(s.parents, d) && Target(s, plan, x).Ok?
      ensures Target(s, plan, x).value in Line(s.parents, d)
    {
      TargetIsFunnel(s, plan, x);
    }
  }

  /** The deletions `d` inherits from are all inherited through one retained commit. */
  ghost predicate Anchored(s: Store, plan: PrunePlan, d: CommitId) {
    exists k :: k in plan.retained && k in Line(s.parents, d)
      && forall x | x in plan.delete && x in Line(s.parents, d) :: x in Line(s.parents, k)
  }

  /** A commit recorded after planning is supported when its nearest planned commit is retained. */
  lemma AnchoredIsSupported(s: Store, plan: PrunePlan, d: CommitId)
    requires Valid(s) && Anchored(s, plan, d) && (forall x | x in plan.delete :: x !in plan.retained)
    ensures Supported(s, plan, d)
  {
    var k :| k in plan.retained && k in Line(s.parents, d)
             && forall x | x in plan.delete && x in Line(s.parents, d) :: x in Line(s.parents, k);
    RetainedIsSupported(s, plan, k);
    LineNests(s.parents, d, k);
  }

  /** In a forest every supported view is clear. */
  lemma ForestIsClear(s: Store, plan: PrunePlan, d: CommitId)
    requires Valid(s) && Forest(s.parents) && d in s.seqs && d !in plan.delete && Supported(s, plan, d)
    ensures Clear(s, plan, d)
  {
    forall x, w | x in plan.delete && x in Line(s.parents, d) && Target(s, plan, x).Ok?
                  && w in Line(s.parents, d) && w !in Line(s.parents, Target(s, plan, x).value)
                  && w in s.seqs && Target(s, plan, x).value in s.seqs
      ensures s.seqs[w] > s.seqs[Target(s, plan, x).value]
    {
      var t := Target(s, plan, x).value;
      ForestComparable(s.parents, d, w, t);
      AncestorsAreReached(s.parents, t, w);
      DescendsGoesBack(s.parents, s.seqs, w, t);
    }
  }

  // ----- what a finished run shows -----

  /** The deletions `d` inherits from whose rows are folded onto commits it does not inherit from. */
  ghost function Lost(s: Store, plan: PrunePlan, d: CommitId): set<CommitId> {
    set x | x in Line(s.parents, d) && x in plan.delete && FoldsAway(s, plan, d, x)
  }

  ghost predicate FoldsAway(s: Store, plan: PrunePlan, d: CommitId, x: CommitId) {
    Target(s, plan, x).Ok? ==> Target(s, plan, x).value !in Line(s.parents, d)
  }

  /** The store after an accepted plan ran to its end. */
  ghost predicate Finished(s: Store, plan: PrunePlan, t: Store)
    requires Valid(s) && Valid(t)
  {
    Accepted(s, plan) && Contracted(s, plan, Elements(plan.delete), t) && StatesKept(s, plan, t)
  }

  lemma {:induction false} NewestOf(seqs: map<CommitId, nat>, ks: set<CommitId>) returns (k: CommitId)
    requires ks != {} && ks <= seqs.Keys
    ensures k in ks && forall a | a in ks :: seqs[a] <= seqs[k]
    decreases ks
  {
    k := Least(ks);
    assert ks == (ks - {k}) + {k};
    if ks - {k} != {} {
      var other := NewestOf(seqs, ks - {k});
      if seqs[other] > seqs[k] { k := other; }
    }
  }

  /** Rows of commits that are neither deleted nor folded onto stay put. */
  lemma UntouchedRowsShow(s: Store, plan: PrunePlan, t: Store, line: set<CommitId>)
    requires Valid(s) && Valid(t) && Finished(s, plan, t)
    requires forall c | c in line :: c !in plan.delete && c !in plan.retained
    ensures Shown(t, line) == Shown(s, line)
  {
    forall c | c in line ensures c !in Elements(plan.delete) {}
    ShownIsLocal(s, t, line);
  }

  /** Without a retained commit on its line a commit loses every deletion it inherits from. */
  lemma ShowsWithoutRetained(s: Store, plan: PrunePlan, t: Store, d: CommitId)
    requires Valid(s) && Valid(t) && Finished(s, plan, t) && d in s.seqs && d !in plan.delete
    requires forall k | k in plan.retained :: k !in Line(s.parents, d)
    ensures StateAt(t, d) == Shown(s, Line(s.parents, d) - Lost(s, plan, d))
  {
    var line, gone := Line(s.parents, d), Elements(plan.delete);
    forall x | x in line && x in plan.delete ensures FoldsAway(s, plan, d, x) {
      TargetIsFunnel(s, plan, x);
    }
    SameMembers(line - Lost(s, plan, d), line - gone);
    UntouchedRowsShow(s, plan, t, line - gone);
  }

  lemma SameMembers(a: set<CommitId>, b: set<CommitId>)
    requires forall x :: x in a <==> x in b
    ensures a == b
  {
    forall x ensures x in a <==> x in b {}
  }

  ghost predicate NewestRetained(s: Store, plan: PrunePlan, d: CommitId, k: CommitId) {
    && k in s.seqs && k in plan.retained && k in Line(s.parents, d)
    && forall a | a in plan.retained && a in Line(s.parents, d) :: a in s.seqs && s.seqs[a] <= s.seqs[k]
  }

  /** On a forest the deletions lost are those above the newest retained commit. */
  lemma LostAreAbove(s: Store, plan: PrunePlan, d: CommitId, k: CommitId, x: CommitId)
    requires Valid(s) && Forest(s.parents) && Accepted(s, plan) && d in s.seqs
    requires NewestRetained(s, plan, d, k)
    requires x in plan.delete && x in Line(s.parents, d)
    ensures FoldsAway(s, plan, d, x) <==> x !in Line(s.parents, k)
  {
    TargetIsFunnel(s, plan, x);
    if x in Line(s.parents, k) {
      LineNests(s.parents, d, k);
    } else {
      AboveIsNewer(s, d, k, x);
      DescendsGoesBack(s.parents, s.seqs, Target(s, plan, x).value, x);
    }
  }

  lemma AboveIsNewer(s: Store, d: CommitId, k: CommitId, x: CommitId)
    requires Valid(s) && Forest(s.parents) && d in s.seqs && k in Line(s.parents, d)
    requires x in Line(s.parents, d) && x !in Line(s.parents, k)
    ensures k in s.seqs && x in s.seqs && s.seqs[k] < s.seqs[x]
  {
    ForestComparable(s.parents, d, x, k);
    AncestorsAreReached(s.parents, k, x);
    DescendsGoesBack(s.parents, s.seqs, x, k);
  }

  /** Above the newest retained commit nothing moves; that commit itself keeps its state. */
  lemma ShowsAboveRetained(s: Store, plan: PrunePlan, t: Store, d: CommitId, k: CommitId)
    requires Valid(s) && Valid(t) && Forest(s.parents) && Finished(s, plan, t) && d in s.seqs && d !in plan.delete
    requires NewestRetained(s, plan, d, k)
    ensures StateAt(t, d) == Shown(s, Line(s.parents, d) - Lost(s, plan, d))
  {
    var line, below, gone := Line(s.parents, d), Line(s.parents, k), Elements(plan.delete);
    var above := line - below - gone;
    LineNests(s.parents, d, k);
    forall x | x in plan.delete && x in line ensures FoldsAway(s, plan, d, x) <==> x !in below {
      LostAreAbove(s, plan, d, k, x);
    }
    SameMembers(line - Lost(s, plan, d), below + above);
    SameMembers(line - gone, below - gone + above);
    LineIsStored(s.parents, s.seqs, k);
    forall x | x in above ensures x in s.seqs && s.seqs[k] < s.seqs[x] && x !in plan.retained {
      AboveIsNewer(s, d, k, x);
    }
    LayersShow(s, below, above);
    LayersShow(t, below - gone, above);
    UntouchedRowsShow(s, plan, t, above);
    RetainedIsSupported(s, plan, k);
    ForestIsClear(s, plan, k);
    assert StateAt(t, k) == StateAt(s, k);
  }

  /** What any surviving commit shows once an accepted plan ran to its end, on a forest. */
  lemma FinishedRunShows(s: Store, plan: PrunePlan, t: Store, d: CommitId)
    requires Valid(s) && Valid(t) && Forest(s.parents) && Finished(s, plan, t) && d in s.seqs && d !in plan.delete
    ensures StateAt(t, d) == Shown(s, Line(s.parents, d) - Lost(s, plan, d))
  {
    var kept := set k | k in plan.retained && k in Line(s.parents, d);
    LineIsStored(s.parents, s.seqs, d);
    if kept == {} {
      forall k | k in plan.retained ensures k !in Line(s.parents, d) { assert k !in kept; }
      ShowsWithoutRetained(s, plan, t, d);
    } else {
      var k := NewestOf(s.seqs, kept);
      ShowsAboveRetained(s, plan, t, d, k);
    }
  }

  /** So a commit keeps its state exactly when the winning rows of its lost deletions are repeated by the rest. */
  lemma FinishedRunIsExact(s: Store, plan: PrunePlan, t: Store, d: CommitId)
    requires Valid(s) && Valid(t) && Forest(s.parents) && Finished(s, plan, t) && d in s.seqs && d !in plan.delete
    ensures StateAt(t, d) == StateAt(s, d)
      <==> forall r: Row | r.commit in Lost(s, plan, d) && Wins(s, Line(s.parents, d), r) ::
             exists w :: Wins(s, Line(s.parents, d) - Lost(s, plan, d), w) && w.coord == r.coord && w.blob == r.blob
  {
    FinishedRunShows(s, plan, t, d);
    ShownWithout(s, Line(s.parents, d), Line(s.parents, d) - Lost(s, plan, d));
  }

  // ----- what a finished run shows on any graph -----

  /** A row of this coordinate, more recent than `x`, stands on the line of the target. */
  ghost predicate Beaten(s: Store, rows: set<Row>, x: CommitId, into: CommitId, p: Coord) {
    exists o :: o in rows && o.coord == p && o.commit in Line(s.parents, into)
      && o.commit in s.seqs && x in s.seqs && s.seqs[o.commit] > s.seqs[x]
  }

  /** Fold the rows of one commit, as the graph and the order stood when the run began. */
  ghost function RowsFolded(s: Store, rows: set<Row>, x: CommitId, into: CommitId): set<Row> {
    set r | r in rows && !(r.commit == x && Beaten(s, rows, x, into, r.coord)) :: Moved(r, x, into)
  }

  /** The rows after the first `n` deletions, computed from the store before the run alone. */
  ghost function RowsAfter(s: Store, plan: PrunePlan, n: nat): set<Row>
    requires n <= |plan.delete|
  {
    if n == 0 then s.rows
    else
      match Target(s, plan, plan.delete[n - 1])
      case Err(_) => RowsAfter(s, plan, n - 1)
      case Ok(into) => RowsFolded(s, RowsAfter(s, plan, n - 1), plan.delete[n - 1], into)
  }

  /** The store before the run, with the rows after it. */
  ghost function Folded(s: Store, plan: PrunePlan): Store {
    s.(rows := RowsAfter(s, plan, |plan.delete|))
  }

  /** A retirement in mid-run folds as the graph and the order before the run say. */
  lemma TurnFolds(s: Store, plan: PrunePlan, done: set<CommitId>, t: Store, x: CommitId, into: CommitId)
    requires Valid(s) && Valid(t) && Contracted(s, plan, done, t) && Retirable(t, x, into)
    ensures Retired(t, x, into).rows == RowsFolded(s, t.rows, x, into)
  {
    forall r | r in t.rows ensures Dropped(t, x, into, r) <==> r.commit == x && Beaten(s, t.rows, x, into, r.coord) {
      TurnBeats(s, plan, done, t, x, into, r);
    }
  }

  lemma TurnBeats(s: Store, plan: PrunePlan, done: set<CommitId>, t: Store, x: CommitId, into: CommitId, r: Row)
    requires Valid(s) && Valid(t) && Contracted(s, plan, done, t) && Retirable(t, x, into)
    ensures Superseded(t, x, into, r) <==> Beaten(s, t.rows, x, into, r.coord)
  {
    assert Line(t.parents, into) == Line(s.parents, into) - done;
    forall o | o in t.rows ensures o.commit in s.seqs && o.commit !in done && s.seqs[o.commit] == t.seqs[o.commit] {}
  }

  /** An accepted plan ran to its end and left these rows. */
  ghost predicate FinishedRows(s: Store, plan: PrunePlan, t: Store)
    requires Valid(s) && Valid(t)
  {
    Finished(s, plan, t) && t.rows == RowsAfter(s, plan, |plan.delete|)
  }

  lemma FoldedIsValid(s: Store, plan: PrunePlan, t: Store)
    requires Valid(s) && Valid(t) && FinishedRows(s, plan, t)
    ensures Valid(Folded(s, plan))
  {
    var u := Folded(s, plan);
    assert Sequenced(u) && Keyed(u) && RefsBound(u);
  }

  /** Commits without rows show nothing. */
  lemma EmptyCommitsAreIdle(u: Store, line: set<CommitId>, done: set<CommitId>)
    requires Valid(u) && forall r | r in u.rows :: r.commit !in done
    ensures Shown(u, line - done) == Shown(u, line)
  {
    forall r ensures Wins(u, line - done, r) <==> Wins(u, line, r) {}
  }

  /** On any graph, a commit left shows what its old line shows of the folded rows. */
  lemma WholeRunShows(s: Store, plan: PrunePlan, t: Store, d: CommitId)
    requires Valid(s) && Valid(t) && FinishedRows(s, plan, t) && d in s.seqs && d !in plan.delete
    ensures Valid(Folded(s, plan)) && StateAt(t, d) == StateAt(Folded(s, plan), d)
  {
    var u, gone := Folded(s, plan), Elements(plan.delete);
    FoldedIsValid(s, plan, t);
    assert d in t.seqs && Line(t.parents, d) == Line(s.parents, d) - gone;
    forall r | r in u.rows ensures r.commit !in gone { assert r.commit in t.seqs; }
    EmptyCommitsAreIdle(u, Line(s.parents, d), gone);
    ShownIsLocal(t, u, Line(t.parents, d));
  }

  /** A coordinate known after the run was known before. */
  lemma WholeRunIsNotNews(s: Store, plan: PrunePlan, t: Store, d: CommitId, v: Row) returns (o: Row)
    requires Valid(s) && Valid(t) && FinishedRows(s, plan, t) && d in s.seqs
    requires v in t.rows && v.commit in Line(s.parents, d)
    ensures o in s.rows && o.coord == v.coord && o.commit in Line(s.parents, d)
  {
    o :| o in s.rows && Carries(s, plan, Elements(plan.delete), o, v);
    if v != o {
      TargetIsFunnel(s, plan, o.commit);
      LineNests(s.parents, d, v.commit);
    }
  }

  /**
   Merges included: a commit keeps its state over a whole run exactly when each row it shows
   is repeated by the folded row that wins on its line.
   */
  lemma WholeRunIsExact(s: Store, plan: PrunePlan, t: Store, d: CommitId)
    requires Valid(s) && Valid(t) && FinishedRows(s, plan, t) && d in s.seqs && d !in plan.delete
    ensures Valid(Folded(s, plan))
    ensures StateAt(t, d) == StateAt(s, d)
      <==> forall r | Wins(s, Line(s.parents, d), r) ::
             exists v :: Wins(Folded(s, plan), Line(s.parents, d), v) && v.coord == r.coord && v.blob == r.blob
  {
    var u, line := Folded(s, plan), Line(s.parents, d);
    WholeRunShows(s, plan, t, d);
    if StateAt(u, d) == StateAt(s, d) {
      forall r | Wins(s, line, r) ensures exists v :: Wins(u, line, v) && v.coord == r.coord && v.blob == r.blob {
        WinnerIsShown(s, line, r);
        var v := ShownHasWinner(u, line, r.coord);
      }
    }
    if forall r | Wins(s, line, r) :: exists v :: Wins(u, line, v) && v.coord == r.coord && v.blob == r.blob {
      forall p ensures AgreeAt(StateAt(u, d), StateAt(s, d), p) {
        KeptAt(s, plan, t, d, p);
      }
      MapsAgree(StateAt(u, d), StateAt(s, d));
    }
  }

  lemma KeptAt(s: Store, plan: PrunePlan, t: Store, d: CommitId, p: Coord)
    requires Valid(s) && Valid(t) && FinishedRows(s, plan, t) && d in s.seqs && Valid(Folded(s, plan))
    requires forall r | Wins(s, Line(s.parents, d), r) ::
      exists v :: Wins(Folded(s, plan), Line(s.parents, d), v) && v.coord == r.coord && v.blob == r.blob
    ensures AgreeAt(StateAt(Folded(s, plan), d), StateAt(s, d), p)
  {
    var u, line := Folded(s, plan), Line(s.parents, d);
    if p in StateAt(u, d) {
      var w := ShownHasWinner(u, line, p);
      var o := WholeRunIsNotNews(s, plan, t, d, w);
      ShownKnows(s, line, p);
    }
    if p in StateAt(s, d) {
      var r := ShownHasWinner(s, line, p);
      var v :| Wins(u, line, v) && v.coord == r.coord && v.blob == r.blob;
      WinnerIsShown(u, line, v);
    }
  }
}
