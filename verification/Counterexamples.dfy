/**
 Runs on which a documented promise fails. Every store here is reached from a fresh one by
 operations of the port; next to each run stands the lemma with the exact condition.
 */
module Counterexamples {
  import opened Base
  import opened Ancestry
  import opened History
  import opened Retire
  import opened Prune
  import opened Port

  const MAIN: RefName := "main"

  /** The only ref, active, on this commit. */
  function Alone(c: Option<CommitId>): map<RefName, Ref> {
    map[MAIN := Ref(c, true, 0)]
  }

  // ----- steps -----

  lemma StartIsReachable()
    ensures Reachable(Fresh(MAIN)) && Fresh(MAIN).refs == Alone(None)
  {
    assert Reaches(Fresh(MAIN), [], Fresh(MAIN));
  }

  /** Recording a commit on the active ref's target, or on an unborn ref. */
  lemma Recorded(s: Store, t: Store, at: Option<CommitId>, id: CommitId, parents: seq<CommitId>, entries: seq<Entry>)
    requires Reachable(s) && s.refs == Alone(at) && (at.Some? ==> at.value in parents)
    requires Elements(parents) <= s.seqs.Keys && id !in s.seqs && DistinctCoords(entries)
    requires t == Inserted(s, id, 0, Elements(parents), entries).(refs := Alone(Some(id)))
    ensures Reachable(t)
  {
    StepIsReachable(s, Apply(id, 0, parents, entries));
    FirstUnknownFinds(s.seqs.Keys, parents);
    assert s.refs[MAIN].active;
    assert ActiveName(s.refs) == Some(MAIN);
    assert s.refs[MAIN := s.refs[MAIN].(commit := Some(id))] == Alone(Some(id));
    assert Step(s, Apply(id, 0, parents, entries)) == t;
  }

  lemma RefMoved(s: Store, at: Option<CommitId>, to: CommitId)
    requires Reachable(s) && s.refs == Alone(at) && to in s.seqs
    ensures Reachable(s.(refs := Alone(Some(to))))
  {
    StepIsReachable(s, MoveRef(MAIN, Some(to), 0));
    assert s.refs[MAIN := s.refs[MAIN].(commit := Some(to))] == Alone(Some(to));
  }

  // ----- two commits that write one coordinate -----

  const OLD: CommitId := 1
  const KEPT: CommitId := 2

  /** `KEPT` continues `OLD`; the ref is on `at`. */
  function Pair(rows: set<Row>, at: CommitId): Store {
    Store(map[OLD := 0, KEPT := 0], map[OLD := {}, KEPT := {OLD}], map[OLD := 1, KEPT := 2], 2, rows, Alone(Some(at)))
  }

  function First(p: Coord, blob: ChunkHash): Store {
    Store(map[OLD := 0], map[OLD := {}], map[OLD := 1], 1, {Row(p, OLD, Some(blob))}, Alone(Some(OLD)))
  }

  lemma FirstIsReachable(p: Coord, blob: ChunkHash)
    ensures Reachable(First(p, blob))
  {
    StartIsReachable();
    var entries := [Entry(p, Some(blob))];
    assert Elements<CommitId>([]) == {} && RowsFor(OLD, entries) == {Row(p, OLD, Some(blob))};
    Recorded(Fresh(MAIN), First(p, blob), None, OLD, [], entries);
  }

  /** `KEPT` with these rows, and the ref moved anywhere after it. */
  lemma PairIsReachable(p: Coord, blob: ChunkHash, entries: seq<Entry>, at: CommitId)
    requires DistinctCoords(entries) && at in {OLD, KEPT}
    ensures Reachable(Pair({Row(p, OLD, Some(blob))} + RowsFor(KEPT, entries), at))
  {
    FirstIsReachable(p, blob);
    var s := Pair({Row(p, OLD, Some(blob))} + RowsFor(KEPT, entries), KEPT);
    assert Elements([OLD]) == {OLD};
    Recorded(First(p, blob), s, Some(OLD), KEPT, [OLD], entries);
    RefMoved(s, Some(KEPT), at);
    assert s.(refs := Alone(Some(at))) == Pair({Row(p, OLD, Some(blob))} + RowsFor(KEPT, entries), at);
  }

  lemma PairIsRetirable(rows: set<Row>, at: CommitId)
    ensures Retirable(Pair(rows, at), OLD, KEPT)
    ensures Line(Pair(rows, at).parents, OLD) == {OLD} && Line(Pair(rows, at).parents, KEPT) == {OLD, KEPT}
  {
    var g := Pair(rows, at).parents;
    ParentIsAncestor(g, KEPT, OLD);
    AncestorsAreReached(g, KEPT, OLD);
    ClosedHoldsAncestors(g, {}, OLD);
    ClosedHoldsAncestors(g, {OLD}, KEPT);
  }

  // ----- a ref that follows a fold -----

  function Rewritten(p: Coord, before: ChunkHash, after: ChunkHash): Store {
    Pair({Row(p, OLD, Some(before)), Row(p, KEPT, Some(after))}, OLD)
  }

  lemma RewrittenIsReachable(p: Coord, before: ChunkHash, after: ChunkHash)
    ensures Reachable(Rewritten(p, before, after))
  {
    var entries := [Entry(p, Some(after))];
    assert RowsFor(KEPT, entries) == {Row(p, KEPT, Some(after))};
    PairIsReachable(p, before, entries, OLD);
    assert {Row(p, OLD, Some(before))} + RowsFor(KEPT, entries)
      == {Row(p, OLD, Some(before)), Row(p, KEPT, Some(after))};
  }

  /** The ref followed the fold and names another state than before. */
  lemma FollowedRefChanges(p: Coord, before: ChunkHash, after: ChunkHash)
    requires before != after
    ensures var s := Rewritten(p, before, after);
      && Reachable(s) && Valid(s) && Retirable(s, OLD, KEPT) && Valid(Retired(s, OLD, KEPT))
      && s.refs[MAIN].commit == Some(OLD) && Retired(s, OLD, KEPT).refs[MAIN].commit == Some(KEPT)
      && StateAt(Retired(s, OLD, KEPT), KEPT) != StateAt(s, OLD)
  {
    var s := Rewritten(p, before, after);
    RewrittenIsReachable(p, before, after);
    ReachableIsValid(s);
    PairIsRetirable(s.rows, OLD);
    SuccessorOverrides(p, before, after);
    TargetShowsSource(s, OLD, KEPT);
  }

  lemma SuccessorOverrides(p: Coord, before: ChunkHash, after: ChunkHash)
    requires before != after && Valid(Rewritten(p, before, after))
    ensures var s := Rewritten(p, before, after);
      exists w :: Wins(s, Line(s.parents, KEPT), w) && w.commit !in Line(s.parents, OLD)
        && !exists v :: Wins(s, Line(s.parents, OLD), v) && v.coord == w.coord && v.blob == w.blob
  {
    var s := Rewritten(p, before, after);
    PairIsRetirable(s.rows, OLD);
    var w := Row(p, KEPT, Some(after));
    assert Wins(s, Line(s.parents, KEPT), w) && w.commit !in Line(s.parents, OLD);
    forall v | Wins(s, Line(s.parents, OLD), v) ensures v == Row(p, OLD, Some(before)) {}
  }

  // ----- a commit recorded on a planned deletion -----

  const LATE: CommitId := 3
  const KEPT_ONLY: PrunePlan := PrunePlan([OLD], [KEPT])

  function WithLate(p: Coord, blob: ChunkHash): Store {
    Store(map[OLD := 0, KEPT := 0, LATE := 0], map[OLD := {}, KEPT := {OLD}, LATE := {OLD}],
          map[OLD := 1, KEPT := 2, LATE := 3], 3, {Row(p, OLD, Some(blob))}, Alone(Some(LATE)))
  }

  lemma WithLateIsReachable(p: Coord, blob: ChunkHash)
    ensures Reachable(Pair({Row(p, OLD, Some(blob))}, OLD)) && Reachable(WithLate(p, blob))
  {
    var rows := {Row(p, OLD, Some(blob))};
    assert RowsFor(KEPT, []) == {} && RowsFor(LATE, []) == {} && rows + {} == rows;
    PairIsReachable(p, blob, [], OLD);
    assert Elements([OLD]) == {OLD};
    Recorded(Pair(rows, OLD), WithLate(p, blob), Some(OLD), LATE, [OLD], []);
  }

  /** Any store in which only `KEPT` is kept and continues `OLD` accepts the plan. */
  lemma PlanIsAccepted(s: Store)
    requires Valid(s) && OLD in s.seqs && KEPT in s.seqs && OLD in Ancestors(s.parents, KEPT)
    ensures Accepted(s, KEPT_ONLY) && Target(s, KEPT_ONLY, OLD) == Ok(KEPT)
  {
    assert Funnels(s, KEPT_ONLY, OLD, KEPT);
    TargetIsFunnel(s, KEPT_ONLY, OLD);
  }

  lemma LateLines(p: Coord, blob: ChunkHash)
    ensures OLD in Ancestors(WithLate(p, blob).parents, KEPT) && Line(WithLate(p, blob).parents, LATE) == {LATE, OLD}
  {
    var g := WithLate(p, blob).parents;
    ParentIsAncestor(g, KEPT, OLD);
    AncestorsAreReached(g, KEPT, OLD);
    ParentIsAncestor(g, LATE, OLD);
    AncestorsAreReached(g, LATE, OLD);
    ClosedHoldsAncestors(g, {OLD}, LATE);
  }

  /**
   The plan is made for `OLD` and `KEPT`, a commit is recorded on `OLD`, and the plan is still
   accepted. Running it changes that commit: the row it inherits moves onto a commit it does
   not continue.
   */
  lemma BranchingFromADeletionBreaks(p: Coord, blob: ChunkHash)
    ensures var before, s := Pair({Row(p, OLD, Some(blob))}, OLD), WithLate(p, blob);
      && Reachable(before) && Reachable(s) && Valid(before) && Valid(s)
      && Accepted(before, KEPT_ONLY) && Accepted(s, KEPT_ONLY) && Target(s, KEPT_ONLY, OLD) == Ok(KEPT)
      && Retirable(s, OLD, KEPT) && Valid(Retired(s, OLD, KEPT)) && LATE !in KEPT_ONLY.delete
      && StateAt(Retired(s, OLD, KEPT), LATE) != StateAt(s, LATE)
  {
    var before, s := Pair({Row(p, OLD, Some(blob))}, OLD), WithLate(p, blob);
    WithLateIsReachable(p, blob);
    ReachableIsValid(before);
    ReachableIsValid(s);
    PairIsRetirable(before.rows, OLD);
    PlanIsAccepted(before);
    LateLines(p, blob);
    PlanIsAccepted(s);
    LateIsHarmed(p, blob);
    RetireIsExact(s, OLD, KEPT, LATE);
  }

  lemma LateIsHarmed(p: Coord, blob: ChunkHash)
    requires Valid(WithLate(p, blob)) && Line(WithLate(p, blob).parents, LATE) == {LATE, OLD}
    ensures !Undisturbed(WithLate(p, blob), OLD, KEPT, LATE)
  {
    var s := WithLate(p, blob);
    var r := Row(p, OLD, Some(blob));
    assert r in RowsOf(s, OLD) && Wins(s, Line(s.parents, LATE), r);
    assert !Harmless(s, OLD, KEPT, LATE, r);
  }

  // ----- a merge -----

  const BASE: CommitId := 1
  const LEFT: CommitId := 2
  const RIGHT: CommitId := 3
  const TARGET: CommitId := 4
  const MERGE: CommitId := 5

  /** Two branches from `BASE`, each writing `p`; then `TARGET` on the left one, and their merge. */
  function Branched(p: Coord, left: ChunkHash, right: ChunkHash, at: CommitId): Store {
    Store(
      map[BASE := 0, LEFT := 0, RIGHT := 0],
      map[BASE := {}, LEFT := {BASE}, RIGHT := {BASE}],
      map[BASE := 1, LEFT := 2, RIGHT := 3], 3,
      {Row(p, LEFT, Some(left)), Row(p, RIGHT, Some(right))}, Alone(Some(at)))
  }

  function Continued(p: Coord, left: ChunkHash, right: ChunkHash): Store {
    var s := Branched(p, left, right, LEFT);
    Store(s.times[TARGET := 0], s.parents[TARGET := {LEFT}], s.seqs[TARGET := 4], 4, s.rows, Alone(Some(TARGET)))
  }

  function Merged(p: Coord, left: ChunkHash, right: ChunkHash): Store {
    var s := Continued(p, left, right);
    Store(s.times[MERGE := 0], s.parents[MERGE := {TARGET, RIGHT}], s.seqs[MERGE := 5], 5, s.rows, Alone(Some(MERGE)))
  }

  const ROOT: Store := Store(map[BASE := 0], map[BASE := {}], map[BASE := 1], 1, {}, Alone(Some(BASE)))

  /** A root without rows. */
  lemma RootIsReachable()
    ensures Reachable(ROOT)
  {
    StartIsReachable();
    assert Elements<CommitId>([]) == {} && RowsFor(BASE, []) == {};
    Recorded(Fresh(MAIN), ROOT, None, BASE, [], []);
  }

  function OneBranch(p: Coord, left: ChunkHash, at: CommitId): Store {
    Store(map[BASE := 0, LEFT := 0], map[BASE := {}, LEFT := {BASE}], map[BASE := 1, LEFT := 2], 2,
          {Row(p, LEFT, Some(left))}, Alone(Some(at)))
  }

  lemma OneBranchIsReachable(p: Coord, left: ChunkHash)
    ensures Reachable(OneBranch(p, left, BASE))
  {
    var entries := [Entry(p, Some(left))];
    RootIsReachable();
    assert Elements([BASE]) == {BASE} && RowsFor(LEFT, entries) == {Row(p, LEFT, Some(left))};
    Recorded(ROOT, OneBranch(p, left, LEFT), Some(BASE), LEFT, [BASE], entries);
    RefMoved(OneBranch(p, left, LEFT), Some(LEFT), BASE);
  }

  lemma BranchedIsReachable(p: Coord, left: ChunkHash, right: ChunkHash)
    ensures Reachable(Branched(p, left, right, LEFT))
  {
    var entries := [Entry(p, Some(right))];
    OneBranchIsReachable(p, left);
    assert Elements([BASE]) == {BASE} && RowsFor(RIGHT, entries) == {Row(p, RIGHT, Some(right))};
    Recorded(OneBranch(p, left, BASE), Branched(p, left, right, RIGHT), Some(BASE), RIGHT, [BASE], entries);
    RefMoved(Branched(p, left, right, RIGHT), Some(RIGHT), LEFT);
  }

  lemma MergedIsReachable(p: Coord, left: ChunkHash, right: ChunkHash)
    ensures Reachable(Merged(p, left, right))
  {
    var s, u := Branched(p, left, right, LEFT), Continued(p, left, right);
    BranchedIsReachable(p, left, right);
    assert Elements([LEFT]) == {LEFT} && Elements([TARGET, RIGHT]) == {TARGET, RIGHT};
    assert s.rows + RowsFor(TARGET, []) == s.rows && u.rows + RowsFor(MERGE, []) == u.rows;
    Recorded(s, u, Some(LEFT), TARGET, [LEFT], []);
    Recorded(u, Merged(p, left, right), Some(TARGET), MERGE, [TARGET, RIGHT], []);
  }

  /**
   The unconditional promise fails on merges: folding the left row into the newer target
   puts it above the right row, and the merge commit changes state.
   */
  lemma MergeIsOvertaken(p: Coord, left: ChunkHash, right: ChunkHash)
    requires left != right
    ensures var s := Merged(p, left, right);
      && Reachable(s) && Valid(s) && Retirable(s, LEFT, TARGET) && TARGET in Line(s.parents, MERGE)
      && Valid(Retired(s, LEFT, TARGET))
      && StateAt(Retired(s, LEFT, TARGET), MERGE) != StateAt(s, MERGE)
  {
    var s := Merged(p, left, right);
    MergedIsReachable(p, left, right);
    ReachableIsValid(s);
    MergedLines(p, left, right);
    RetireKeepsValid(s, LEFT, TARGET);
    MergeIsHarmed(p, left, right);
    RetireIsExact(s, LEFT, TARGET, MERGE);
  }

  lemma MergeIsHarmed(p: Coord, left: ChunkHash, right: ChunkHash)
    requires left != right && Valid(Merged(p, left, right))
    requires RIGHT !in Line(Merged(p, left, right).parents, TARGET)
    requires {LEFT, RIGHT, TARGET} <= Line(Merged(p, left, right).parents, MERGE)
    ensures !Undisturbed(Merged(p, left, right), LEFT, TARGET, MERGE)
  {
    var s := Merged(p, left, right);
    var r, w := Row(p, LEFT, Some(left)), Row(p, RIGHT, Some(right));
    assert Wins(s, Line(s.parents, MERGE), w);
    assert r in RowsOf(s, LEFT) && !Superseded(s, LEFT, TARGET, r);
    assert !Harmless(s, LEFT, TARGET, MERGE, r);
  }

  lemma MergedLines(p: Coord, left: ChunkHash, right: ChunkHash)
    ensures var g := Merged(p, left, right).parents;
      && LEFT in Ancestors(g, TARGET) && RIGHT !in Line(g, TARGET) && {LEFT, RIGHT, TARGET} <= Line(g, MERGE)
  {
    var g := Merged(p, left, right).parents;
    ParentIsAncestor(g, TARGET, LEFT);
    ParentIsAncestor(g, MERGE, TARGET);
    ParentIsAncestor(g, MERGE, RIGHT);
    DescendsTransitive(g, MERGE, TARGET, LEFT);
    AncestorsAreReached(g, TARGET, LEFT);
    AncestorsAreReached(g, MERGE, TARGET);
    AncestorsAreReached(g, MERGE, RIGHT);
    AncestorsAreReached(g, MERGE, LEFT);
    ClosedHoldsAncestors(g, {LEFT, BASE}, TARGET);
  }

  // ----- parent edges inserted again -----

  /** `OLD` was folded into `KEPT` and recorded again, so it is now the newer of the two. */
  const AGAIN: Store :=
    Store(map[OLD := 0, KEPT := 0], map[OLD := {}, KEPT := {}], map[OLD := 3, KEPT := 2], 3, {}, Alone(Some(KEPT)))

  const FOLDED: Store := Store(map[KEPT := 0], map[KEPT := {}], map[KEPT := 2], 2, {}, Alone(Some(KEPT)))

  lemma FoldedIsReachable()
    ensures Reachable(FOLDED)
  {
    var s := Pair({}, KEPT);
    RootIsReachable();
    assert Elements([OLD]) == {OLD} && RowsFor(KEPT, []) == {};
    Recorded(ROOT, s, Some(OLD), KEPT, [OLD], []);
    StepIsReachable(s, RetireInto(OLD, KEPT));
    PairFolds();
  }

  lemma PairFolds()
    ensures Keyed(Pair({}, KEPT)) && Step(Pair({}, KEPT), RetireInto(OLD, KEPT)) == FOLDED
  {
    PairIsRetirable({}, KEPT);
    PairContracts();
    RefStays();
  }

  lemma PairContracts()
    ensures Contract(Pair({}, KEPT).parents, OLD) == FOLDED.parents
    ensures Pair({}, KEPT).seqs - {OLD} == FOLDED.seqs && Pair({}, KEPT).times - {OLD} == FOLDED.times
  {
    var g := Pair({}, KEPT).parents;
    SameMembers(g[KEPT] - {OLD} + ParentsOf(g, OLD), {});
  }

  lemma RefStays()
    ensures FollowFold(Alone(Some(KEPT)), OLD, KEPT) == Alone(Some(KEPT))
  {
  }

  lemma AgainIsReachable()
    ensures Reachable(AGAIN)
  {
    FoldedIsReachable();
    StepIsReachable(FOLDED, Create(OLD, 0, []));
    AgainIsStep();
  }

  lemma AgainIsStep()
    ensures Keyed(FOLDED) && Step(FOLDED, Create(OLD, 0, [])) == AGAIN
  {
    assert Elements<CommitId>([]) == {} && RowsFor(OLD, []) == {};
    assert FOLDED.seqs[OLD := 3] == AGAIN.seqs && FOLDED.times[OLD := 0] == AGAIN.times;
    assert FOLDED.parents[OLD := {}] == AGAIN.parents;
  }

  /**
   Recording `KEPT` once more with its old parent is meant to change nothing. The SQL form
   adds the edge all the same, and a parent now comes after its child.
   */
  lemma ReinsertedEdgeBreaksOrder()
    ensures Reachable(AGAIN) && Valid(AGAIN)
    ensures Inserted(AGAIN, KEPT, 0, {OLD}, []) == AGAIN
    ensures !Ordered(SqlInserted(AGAIN, KEPT, 0, {OLD}).parents, SqlInserted(AGAIN, KEPT, 0, {OLD}).seqs)
  {
    AgainIsReachable();
    ReachableIsValid(AGAIN);
    SqlInsertKeepsOrder(AGAIN, KEPT, 0, {OLD});
  }
}
