/** Choosing what a prune keeps. */
module Selection {
  import opened Base
  import opened Order
  import opened Ancestry
  import opened History
  import opened MemStore
  import opened Prune
  import opened PruneRun

  function Position(commits: seq<Commit>, id: CommitId): Option<nat> {
    if commits == [] then None
    else if commits[0].id == id then Some(0)
    else match Position(commits[1..], id) case None => None case Some(k) => Some(k + 1)
  }

  /** Where the selection starts: at `before`, and no further back than the newest `keepLast`. */
  function FirstKept(commits: seq<Commit>, keepLast: Option<u64>, before: Option<CommitId>): Option<nat> {
    match if before.Some? then Position(commits, before.value) else Some(0)
    case None => None
    case Some(start) =>
      if keepLast.None? || start + keepLast.value >= |commits| then Some(start) else Some(|commits| - keepLast.value)
  }

  lemma {:induction false} PositionFinds(commits: seq<Commit>, id: CommitId)
    ensures match Position(commits, id)
      case None => forall k | 0 <= k < |commits| :: commits[k].id != id
      case Some(n) => n < |commits| && commits[n].id == id && forall k | 0 <= k < n :: commits[k].id != id
    decreases |commits|
  {
    if commits != [] && commits[0].id != id {
      PositionFinds(commits[1..], id);
      assert commits == [commits[0]] + commits[1..];
      assert forall k | 0 < k < |commits| :: commits[k] == commits[1..][k - 1];
    }
  }

  /** The selection that starts at `k`, seen from the outside: everything from there on, each commit counted once. */
  lemma TailIsSelected(commits: seq<Commit>, k: nat)
    requires DistinctIds(commits) && k <= |commits|
    ensures |Ids(commits[k..])| == |commits| - k
    ensures forall i | 0 <= i < |commits| :: commits[i].id in Ids(commits[k..]) <==> k <= i
  {
    forall i | 0 <= i < |commits| ensures commits[i].id in Ids(commits[k..]) <==> k <= i {
      if k <= i { assert commits[i] == commits[k..][i - k]; }
    }
    TailCounts(commits[k..]);
  }

  lemma {:induction false} TailCounts(commits: seq<Commit>)
    requires DistinctIds(commits)
    ensures |Ids(commits)| == |commits|
  {
    if commits != [] {
      TailCounts(commits[1..]);
      assert commits == [commits[0]] + commits[1..];
      assert Ids(commits) == {commits[0].id} + Ids(commits[1..]);
      assert commits[0].id !in Ids(commits[1..]);
    }
  }

  /** `p` is where `before` stands in the listing, the first place without one. */
  predicate StartsAt(commits: seq<Commit>, before: Option<CommitId>, p: nat) {
    match before case None => p == 0 case Some(b) => p < |commits| && commits[p].id == b
  }

  /**
   Whatever is newer than a selected commit is selected too, nothing before `before` is, and as
   many are as `keepLast` asks for or there are.
   */
  ghost predicate IsNewest(retained: set<CommitId>, commits: seq<Commit>, keepLast: Option<u64>,
                           before: Option<CommitId>)
  {
    && (forall i, j | 0 <= i < j < |commits| && commits[i].id in retained :: commits[j].id in retained)
    && (forall p: nat, i | StartsAt(commits, before, p) && 0 <= i < p && i < |commits| :: commits[i].id !in retained)
    && forall p: nat | StartsAt(commits, before, p) ::
         |retained| == if keepLast.Some? && keepLast.value < |commits| - p then keepLast.value else |commits| - p
  }

  lemma TailIsNewest(commits: seq<Commit>, keepLast: Option<u64>, before: Option<CommitId>, start: nat, k: nat)
    requires DistinctIds(commits) && StartsAt(commits, before, start) && start <= |commits|
    requires start <= k <= |commits|
    requires |commits| - k
      == if keepLast.Some? && keepLast.value < |commits| - start then keepLast.value else |commits| - start
    ensures IsNewest(Ids(commits[k..]), commits, keepLast, before)
  {
    TailIsSelected(commits, k);
    forall p: nat | StartsAt(commits, before, p) ensures p == start {}
  }

  /**
   The newest commits of the listing, at most `keepLast` of them, none before `before`; an
   unknown `before` selects nothing.
   */
  method SelectRetained(commits: seq<Commit>, keepLast: Option<u64>, before: Option<CommitId>)
    returns (retained: set<CommitId>)
    ensures FirstKept(commits, keepLast, before).None? ==> retained == {}
    ensures FirstKept(commits, keepLast, before).Some? ==>
      && FirstKept(commits, keepLast, before).value <= |commits|
      && retained == Ids(commits[FirstKept(commits, keepLast, before).value..])
    ensures retained <= Ids(commits)
    ensures before.Some? && before.value !in Ids(commits) ==> retained == {}
    ensures DistinctIds(commits) ==> IsNewest(retained, commits, keepLast, before)
  {
    var start := 0;
    if before.Some? {
      PositionFinds(commits, before.value);
      match Position(commits, before.value) {
        case None => return {};
        case Some(at) => start := at;
      }
    }
    var candidates := commits[start..];
    if keepLast.Some? {
      var n := keepLast.value;
      candidates := candidates[if n >= |candidates| then 0 else |candidates| - n..];
    }
    retained := Ids(candidates);
    if DistinctIds(commits) {
      TailIsNewest(commits, keepLast, before, start, FirstKept(commits, keepLast, before).value);
    }
  }

  /** One branch: every commit continues every older one. */
  ghost predicate Linear(s: Store) {
    forall c, d | c in s.seqs && d in s.seqs && s.seqs[c] < s.seqs[d] :: c in Ancestors(s.parents, d)
  }

  ghost predicate Newest(s: Store, n: CommitId) {
    n in s.seqs && forall c | c in s.seqs :: s.seqs[c] <= s.seqs[n]
  }

  lemma {:induction false} OldestAbove(s: Store, retained: set<CommitId>, x: CommitId, k: CommitId)
    returns (t: CommitId)
    requires Valid(s) && x in s.seqs && retained <= s.seqs.Keys && k in retained && s.seqs[x] < s.seqs[k]
    ensures t in retained && s.seqs[x] < s.seqs[t]
    ensures forall d | d in retained && s.seqs[x] < s.seqs[d] :: s.seqs[t] <= s.seqs[d]
    decreases s.seqs[k]
  {
    if d :| d in retained && s.seqs[x] < s.seqs[d] < s.seqs[k] {
      t := OldestAbove(s, retained, x, d);
    } else {
      t := k;
    }
  }

  /** On one branch any selection that keeps the newest commit can be pruned: no deletion is refused. */
  lemma LinearIsPlannable(s: Store, retained: set<CommitId>, newest: CommitId)
    requires Valid(s) && Linear(s) && retained <= s.seqs.Keys && newest in retained && Newest(s, newest)
    ensures Plannable(s, retained)
  {
    forall x | x in s.seqs.Keys - retained ensures FoldTarget(SnapshotOf(s.parents, retained), retained, x).Ok? {
      var t := OldestAbove(s, retained, x, newest);
      OldestIsTarget(s, retained, x, t);
    }
  }

  lemma OldestIsTarget(s: Store, retained: set<CommitId>, x: CommitId, t: CommitId)
    requires Valid(s) && Linear(s) && retained <= s.seqs.Keys && x in s.seqs
    requires t in retained && s.seqs[x] < s.seqs[t]
    requires forall d | d in retained && s.seqs[x] < s.seqs[d] :: s.seqs[t] <= s.seqs[d]
    ensures FoldTarget(SnapshotOf(s.parents, retained), retained, x) == Ok(t)
  {
    var kept := InOrder(retained);
    InOrderLists(retained);
    var plan := PrunePlan([], kept);
    assert Elements(plan.retained) == retained;
    forall d | d in plan.retained && x in Ancestors(s.parents, d) ensures t in Line(s.parents, d) {
      assert d in Elements(plan.retained);
      DescendsGoesBack(s.parents, s.seqs, d, x);
    }
    assert t in Elements(plan.retained);
    assert Funnels(s, plan, x, t);
    TargetIsFunnel(s, plan, x);
  }
}
