/** A prune plan that waits while commits are recorded. */
module LaterCommits {
  import opened Base
  import opened Ancestry
  import opened History
  import opened Prune
  import opened Port

  /** A new commit does not change where a planned deletion folds. */
  lemma RecordKeepsTarget(s: Store, id: CommitId, t: u64, parents: set<CommitId>, entries: seq<Entry>, plan: PrunePlan,
                          x: CommitId)
    requires Valid(s) && parents <= s.seqs.Keys && DistinctCoords(entries) && id !in s.seqs
    requires Elements(plan.retained) <= s.seqs.Keys
    ensures Target(Inserted(s, id, t, parents, entries), plan, x) == Target(s, plan, x)
  {
    var u := Inserted(s, id, t, parents, entries);
    var retained := Elements(plan.retained);
    forall k | k in retained ensures Ancestors(u.parents, k) == Ancestors(s.parents, k) {
      SameAncestors(s, id, t, parents, entries, k);
    }
    assert SnapshotOf(u.parents, retained) == SnapshotOf(s.parents, retained);
  }

  lemma SameAncestors(s: Store, id: CommitId, t: u64, parents: set<CommitId>, entries: seq<Entry>, k: CommitId)
    requires Valid(s) && parents <= s.seqs.Keys && DistinctCoords(entries) && id !in s.seqs && k in s.seqs
    ensures Ancestors(Inserted(s, id, t, parents, entries).parents, k) == Ancestors(s.parents, k)
  {
    var u := Inserted(s, id, t, parents, entries);
    InsertKeepsValid(s, id, t, parents, entries);
    InsertKeepsLines(s, id, t, parents, entries, k);
    NotOwnAncestor(s, k);
    NotOwnAncestor(u, k);
    assert Line(u.parents, k) - {k} == Line(s.parents, k) - {k};
  }

  /** A plan stays accepted while commits are recorded. */
  lemma RecordKeepsAccepted(s: Store, id: CommitId, t: u64, parents: set<CommitId>, entries: seq<Entry>,
                            plan: PrunePlan)
    requires Valid(s) && parents <= s.seqs.Keys && DistinctCoords(entries) && id !in s.seqs
    requires Accepted(s, plan) && Elements(plan.retained) <= s.seqs.Keys
    ensures Accepted(Inserted(s, id, t, parents, entries), plan)
    ensures Elements(plan.retained) <= Inserted(s, id, t, parents, entries).seqs.Keys
  {
    forall x | x in plan.delete ensures Target(Inserted(s, id, t, parents, entries), plan, x).Ok? {
      RecordKeepsTarget(s, id, t, parents, entries, plan, x);
    }
  }

  /**
   A commit recorded on a retained commit, or on one recorded so before it, is anchored:
   pruning keeps its state. The commits already stored stay anchored.
   */
  lemma RecordedIsAnchored(s: Store, id: CommitId, t: u64, base: CommitId, entries: seq<Entry>, plan: PrunePlan)
    requires Valid(s) && base in s.seqs && DistinctCoords(entries) && id !in s.seqs && id !in plan.delete
    requires base in plan.retained || (base !in plan.delete && Anchored(s, plan, base))
    ensures Anchored(Inserted(s, id, t, {base}, entries), plan, id)
    ensures forall d | d in s.seqs && Anchored(s, plan, d) :: Anchored(Inserted(s, id, t, {base}, entries), plan, d)
  {
    var u := Inserted(s, id, t, {base}, entries);
    InsertKeepsValid(s, id, t, {base}, entries);
    NewLine(s, id, t, {base}, entries);
    assert Inherited(s.parents, {base}) == Line(s.parents, base);
    forall d | d in s.seqs && Anchored(s, plan, d) ensures Anchored(u, plan, d) {
      AnchorStays(s, id, t, base, entries, plan, d);
    }
    var k :| k in plan.retained && k in Line(s.parents, base)
             && forall x | x in plan.delete && x in Line(s.parents, base) :: x in Line(s.parents, k);
    LineIsStored(s.parents, s.seqs, base);
    InsertKeepsLines(s, id, t, {base}, entries, k);
  }

  lemma AnchorStays(s: Store, id: CommitId, t: u64, base: CommitId, entries: seq<Entry>, plan: PrunePlan, d: CommitId)
    requires Valid(s) && base in s.seqs && DistinctCoords(entries) && id !in s.seqs
    requires d in s.seqs && Anchored(s, plan, d)
    ensures Anchored(Inserted(s, id, t, {base}, entries), plan, d)
  {
    var k :| k in plan.retained && k in Line(s.parents, d)
             && forall x | x in plan.delete && x in Line(s.parents, d) :: x in Line(s.parents, k);
    LineIsStored(s.parents, s.seqs, d);
    InsertKeepsLines(s, id, t, {base}, entries, d);
    InsertKeepsLines(s, id, t, {base}, entries, k);
  }
}
