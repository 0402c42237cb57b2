/**
 Retiring a commit: its rows superseded on the way to a descendant are dropped, the rest
 are re-stamped onto that descendant, and its children continue its parents.

 The contract of the operation is that no other commit's effective state changes. That
 holds under an exact condition, given here for every observer and every history graph.
 */
module Retire {
  import opened Base
  import opened Ancestry
  import opened History

  /** A row of `from` that the history `into` continues already supersedes. */
  ghost predicate Superseded(s: Store, from: CommitId, into: CommitId, r: Row)
    requires Keyed(s) && from in s.seqs
  {
    exists o ::
      o in s.rows && o.coord == r.coord && o.commit in Line(s.parents, into) && s.seqs[o.commit] > s.seqs[from]
  }

  ghost predicate Dropped(s: Store, from: CommitId, into: CommitId, r: Row)
    requires Keyed(s) && from in s.seqs
  {
    r.commit == from && Superseded(s, from, into, r)
  }

  function Moved(r: Row, from: CommitId, into: CommitId): Row {
    if r.commit == from then r.(commit := into) else r
  }

  function FollowFold(refs: map<RefName, Ref>, from: CommitId, into: CommitId): map<RefName, Ref> {
    map n | n in refs :: if refs[n].commit == Some(from) then refs[n].(commit := Some(into)) else refs[n]
  }

  /** The refs on `from` name `into` instead; flags, times and every other ref are as they were. */
  predicate RefsFollow(before: map<RefName, Ref>, after: map<RefName, Ref>, from: CommitId, into: CommitId) {
    && after.Keys == before.Keys
    && forall n | n in before ::
         && after[n].active == before[n].active && after[n].createdAtMs == before[n].createdAtMs
         && (before[n].commit == Some(from) ==> after[n].commit == Some(into))
         && (before[n].commit != Some(from) ==> after[n].commit == before[n].commit)
  }

  lemma FoldMovesItsRefs(refs: map<RefName, Ref>, from: CommitId, into: CommitId)
    ensures RefsFollow(refs, FollowFold(refs, from, into), from, into)
  {
  }

  /** When a retirement is accepted: both commits stored, `into` newer and continuing `from`. */
  ghost predicate Retirable(s: Store, from: CommitId, into: CommitId) {
    && from in s.seqs && into in s.seqs
    && s.seqs[from] < s.seqs[into]
    && from in Ancestors(s.parents, into)
  }

  ghost function Retired(s: Store, from: CommitId, into: CommitId): Store
    requires Keyed(s) && from in s.seqs
  {
    Store(
      s.times - {from},
      Contract(s.parents, from),
      s.seqs - {from},
      s.nextSeq,
      set r | r in s.rows && !Dropped(s, from, into, r) :: Moved(r, from, into),
      FollowFold(s.refs, from, into))
  }

  ghost function RowsOf(s: Store, c: CommitId): set<Row> {
    set r | r in s.rows && r.commit == c
  }

  // ----- what a retirement does to the rows -----

  /**
   Row by row: rows elsewhere stay, none is left on `from`, and one of its rows stands on
   `into` unless a more recent one of its coordinate is on the line of `into`.
   */
  lemma RetiredRows(s: Store, from: CommitId, into: CommitId, r: Row)
    requires Keyed(s) && from in s.seqs && from != into
    ensures r in Retired(s, from, into).rows <==>
      && r.commit != from
      && (r in s.rows || (
            && r.commit == into && r.(commit := from) in s.rows
            && forall o | o in s.rows && o.coord == r.coord && o.commit in Line(s.parents, into) ::
                 s.seqs[o.commit] <= s.seqs[from]))
  {
    var moved := r.(commit := from);
    if r in Retired(s, from, into).rows {
      var a :| a in s.rows && !Dropped(s, from, into, a) && Moved(a, from, into) == r;
    }
    if r.commit == into && moved in s.rows && !Superseded(s, from, into, moved) {
      RowMoves(s, from, into, moved);
    }
    if r in s.rows && r.commit != from {
      RowStays(s, from, into, r);
    }
  }

  /** The other commits keep time and place; children of `from` continue its parents instead. */
  lemma RetiredCommits(s: Store, from: CommitId, into: CommitId, c: CommitId)
    requires Keyed(s) && from in s.seqs && from !in ParentsOf(s.parents, from)
    ensures var t := Retired(s, from, into);
      && t.nextSeq == s.nextSeq && t.seqs.Keys == s.seqs.Keys - {from} && t.times.Keys == s.times.Keys - {from}
      && (c in t.seqs ==> t.seqs[c] == s.seqs[c]) && (c in t.times ==> t.times[c] == s.times[c])
      && forall p :: p in ParentsOf(t.parents, c) <==>
           && c != from && p != from
           && (p in ParentsOf(s.parents, c)
               || (from in ParentsOf(s.parents, c) && p in ParentsOf(s.parents, from)))
  {
  }

  lemma RowStays(s: Store, from: CommitId, into: CommitId, r: Row)
    requires Keyed(s) && from in s.seqs && from != into
    requires r in s.rows && r.commit != from
    ensures r in Retired(s, from, into).rows
  {
    assert !Dropped(s, from, into, r) && Moved(r, from, into) == r;
  }

  lemma RowMoves(s: Store, from: CommitId, into: CommitId, r: Row)
    requires Keyed(s) && from in s.seqs && from != into
    requires r in s.rows && r.commit == from && !Superseded(s, from, into, r)
    ensures r.(commit := into) in Retired(s, from, into).rows
  {
    assert !Dropped(s, from, into, r) && Moved(r, from, into) == r.(commit := into);
  }

  /** Every row after the retirement is an old row of another commit, or a folded one. */
  lemma RowCameFrom(s: Store, from: CommitId, into: CommitId, v: Row) returns (r: Row)
    requires Keyed(s) && from in s.seqs && from != into
    requires v in Retired(s, from, into).rows
    ensures r in s.rows && r.coord == v.coord && r.blob == v.blob
    ensures v.commit != from
    ensures if r.commit == from then v == r.(commit := into) && !Superseded(s, from, into, r) else v == r
  {
    r :| r in s.rows && !Dropped(s, from, into, r) && Moved(r, from, into) == v;
  }

  /** Retirement keeps the store invariant. */
  lemma RetireKeepsValid(s: Store, from: CommitId, into: CommitId)
    requires Valid(s) && Retirable(s, from, into)
    ensures Valid(Retired(s, from, into))
  {
    var t := Retired(s, from, into);
    ContractForgets(s.parents, s.seqs, from);
    assert Sequenced(t);
    forall v, w | v in t.rows && w in t.rows && v.commit == w.commit && v.coord == w.coord ensures v == w {
      var a := RowCameFrom(s, from, into, v);
      var b := RowCameFrom(s, from, into, w);
    }
    forall v | v in t.rows ensures v.commit in t.seqs {
      var a := RowCameFrom(s, from, into, v);
    }
    assert RefsBound(t);
  }

  // ----- what another commit sees -----

  /** The line of a commit that stays only loses the retired one. */
  lemma RetiredLine(s: Store, from: CommitId, into: CommitId, d: CommitId)
    requires Valid(s) && Retirable(s, from, into) && d != from
    ensures Line(Retired(s, from, into).parents, d) == Line(s.parents, d) - {from}
  {
    ContractKeepsLine(s.parents, s.seqs, from, d);
  }

  /**
   What the retirement does to the row `r` of `from`, as seen from `d`, is harmless.
   With the target in view, either the row was superseded anyway, or no differing row
   recorded between `from` and `into` hides it; without the target in view, either the row
   was hidden, or the row below it says the same.
   */
  ghost predicate Harmless(s: Store, from: CommitId, into: CommitId, d: CommitId, r: Row)
    requires Valid(s) && from in s.seqs && into in s.seqs
  {
    var line := Line(s.parents, d);
    if into in line then
      || Superseded(s, from, into, r)
      || forall w | Wins(s, line, w) && w.coord == r.coord && s.seqs[w.commit] < s.seqs[into] :: w.blob == r.blob
    else
      Wins(s, line, r) ==> exists w :: Wins(s, line - {from}, w) && w.coord == r.coord && w.blob == r.blob
  }

  /** The exact condition under which `d` keeps its state; nothing is asked when `d` does not inherit `from`. */
  ghost predicate Undisturbed(s: Store, from: CommitId, into: CommitId, d: CommitId)
    requires Valid(s) && from in s.seqs && into in s.seqs
  {
    from in Line(s.parents, d) ==> forall r | r in RowsOf(s, from) :: Harmless(s, from, into, d, r)
  }

  // ----- the three ways a commit can see a retirement -----

  /** A state depends only on the rows and the order of the commits of its line. */
  lemma ShownIsLocal(s: Store, t: Store, line: set<CommitId>)
    requires Valid(s) && Valid(t)
    requires forall c | c in line && c in s.seqs && c in t.seqs :: s.seqs[c] == t.seqs[c]
    requires forall r: Row | r.commit in line :: r in s.rows <==> r in t.rows
    ensures Shown(s, line) == Shown(t, line)
  {
    forall r ensures Wins(s, line, r) <==> Wins(t, line, r) {}
  }

  /** The rows that win on `line` from outside `rest` say what the winners on `rest` say. */
  ghost predicate Repeated(s: Store, line: set<CommitId>, rest: set<CommitId>)
    requires Valid(s)
  {
    forall r | Wins(s, line, r) && r.commit !in rest ::
      exists w :: Wins(s, rest, w) && w.coord == r.coord && w.blob == r.blob
  }

  /** Leaving commits out of a line is invisible exactly when their winning rows are repeated by the rest. */
  lemma ShownWithout(s: Store, line: set<CommitId>, rest: set<CommitId>)
    requires Valid(s) && rest <= line
    ensures Shown(s, rest) == Shown(s, line) <==> Repeated(s, line, rest)
  {
    if Shown(s, rest) == Shown(s, line) {
      forall r | Wins(s, line, r) && r.commit !in rest
        ensures exists w :: Wins(s, rest, w) && w.coord == r.coord && w.blob == r.blob
      {
        WinnerIsShown(s, line, r);
        var w := ShownHasWinner(s, rest, r.coord);
      }
    }
    if Repeated(s, line, rest) {
      forall p ensures p in Shown(s, rest) <==> p in Shown(s, line) {
        ShownKnows(s, rest, p);
        ShownKnows(s, line, p);
        if p in Shown(s, line) { RestRepeats(s, line, rest, p); }
      }
      forall p | p in Shown(s, line) ensures Shown(s, rest)[p] == Shown(s, line)[p] {
        RestRepeats(s, line, rest, p);
      }
    }
  }

  lemma RestRepeats(s: Store, line: set<CommitId>, rest: set<CommitId>, p: Coord)
    requires Valid(s) && rest <= line && Repeated(s, line, rest) && p in Shown(s, line)
    ensures p in Shown(s, rest) && Shown(s, rest)[p] == Shown(s, line)[p]
  {
    var v := ShownHasWinner(s, line, p);
    if v.commit in rest {
      WinnerIsShown(s, rest, v);
    } else {
      var w :| Wins(s, rest, w) && w.coord == v.coord && w.blob == v.blob;
      WinnerIsShown(s, rest, w);
    }
  }

  /** With the target in view, a coordinate that folds no row keeps its winner. */
  lemma WinnerKept(s: Store, from: CommitId, into: CommitId, d: CommitId, w: Row)
    requires Valid(s) && Retirable(s, from, into) && d != from && into in Line(s.parents, d)
    requires Wins(s, Line(s.parents, d), w)
    requires forall r | r in RowsOf(s, from) && r.coord == w.coord ::
      Superseded(s, from, into, r) || s.seqs[w.commit] > s.seqs[into]
    requires Valid(Retired(s, from, into))
    ensures Wins(Retired(s, from, into), Line(s.parents, d) - {from}, w)
  {
    var t := Retired(s, from, into);
    var line := Line(s.parents, d);
    LineNests(s.parents, d, into);
    assert w.commit != from;
    RowStays(s, from, into, w);
    forall v | v in t.rows && v.coord == w.coord && v.commit in line - {from}
      ensures t.seqs[v.commit] <= t.seqs[w.commit]
    {
      var a := RowCameFrom(s, from, into, v);
    }
  }

  /** With the target in view, a folded row wins as soon as the old winner is older than the target. */
  lemma FoldedRowWins(s: Store, from: CommitId, into: CommitId, d: CommitId, r: Row, w: Row)
    requires Valid(s) && Retirable(s, from, into) && d != from && into in Line(s.parents, d)
    requires r in RowsOf(s, from) && !Superseded(s, from, into, r)
    requires Wins(s, Line(s.parents, d), w) && w.coord == r.coord && s.seqs[w.commit] < s.seqs[into]
    requires Valid(Retired(s, from, into))
    ensures Wins(Retired(s, from, into), Line(s.parents, d) - {from}, r.(commit := into))
  {
    var t := Retired(s, from, into);
    var line := Line(s.parents, d);
    RowMoves(s, from, into, r);
    forall v | v in t.rows && v.coord == r.coord && v.commit in line - {from}
      ensures t.seqs[v.commit] <= t.seqs[into]
    {
      var a := RowCameFrom(s, from, into, v);
    }
  }

  /** What `d` shows for a known coordinate after the retirement, target in view. */
  lemma ShownAfterFold(s: Store, from: CommitId, into: CommitId, d: CommitId, w: Row)
    requires Valid(s) && Retirable(s, from, into) && d != from && into in Line(s.parents, d)
    requires Valid(Retired(s, from, into))
    requires Wins(s, Line(s.parents, d), w)
    ensures var after := Shown(Retired(s, from, into), Line(s.parents, d) - {from});
      && w.coord in after
      && (after[w.coord] == w.blob <==>
          forall r | r in RowsOf(s, from) && r.coord == w.coord :: Harmless(s, from, into, d, r))
  {
    var t := Retired(s, from, into);
    var line := Line(s.parents, d);
    LineNests(s.parents, d, into);
    if r :|
      r in RowsOf(s, from) && r.coord == w.coord
      && !Superseded(s, from, into, r) && s.seqs[w.commit] <= s.seqs[into]
    {
      assert w.commit != into;
      FoldedRowWins(s, from, into, d, r, w);
      WinnerIsShown(t, line - {from}, r.(commit := into));
      forall o | o in RowsOf(s, from) && o.coord == w.coord ensures o == r {}
      forall v | Wins(s, line, v) && v.coord == w.coord ensures v == w { WinnerIsUnique(s, line, v, w); }
    } else {
      WinnerKept(s, from, into, d, w);
      WinnerIsShown(t, line - {from}, w);
      forall r, v | r in RowsOf(s, from) && r.coord == w.coord && Wins(s, line, v) && v.coord == w.coord
        ensures v == w
      {
        WinnerIsUnique(s, line, v, w);
      }
    }
  }

  /** The fold teaches a commit no coordinate it did not know. */
  lemma FoldIsNotNews(s: Store, from: CommitId, into: CommitId, d: CommitId, p: Coord)
    requires Valid(s) && Retirable(s, from, into) && from in Line(s.parents, d)
    requires Valid(Retired(s, from, into))
    requires p in Shown(Retired(s, from, into), Line(s.parents, d) - {from})
    ensures p in StateAt(s, d)
  {
    var v := ShownHasWinner(Retired(s, from, into), Line(s.parents, d) - {from}, p);
    var a := RowCameFrom(s, from, into, v);
    ShownKnows(s, Line(s.parents, d), p);
  }

  /**
   The contract of a retirement, exactly: a commit keeps its effective state if and only
   if the retirement leaves it undisturbed. This covers every history graph, merges included.
   */
  lemma RetireIsExact(s: Store, from: CommitId, into: CommitId, d: CommitId)
    requires Valid(s) && Retirable(s, from, into) && d in s.seqs && d != from
    ensures Valid(Retired(s, from, into))
    ensures StateAt(Retired(s, from, into), d) == StateAt(s, d) <==> Undisturbed(s, from, into, d)
  {
    var t := Retired(s, from, into);
    var line := Line(s.parents, d);
    RetireKeepsValid(s, from, into);
    RetiredLine(s, from, into, d);
    if from !in line {
      if into in line { LineNests(s.parents, d, into); }
      RowsElsewhereStay(s, from, into, line);
      assert line - {from} == line;
    } else if into !in line {
      RetireIsExactWithoutTarget(s, from, into, d);
    } else {
      RetireIsExactWithTarget(s, from, into, d);
    }
  }

  lemma RowsElsewhereStay(s: Store, from: CommitId, into: CommitId, line: set<CommitId>)
    requires Valid(s) && Retirable(s, from, into) && Valid(Retired(s, from, into))
    requires from !in line && into !in line
    ensures Shown(Retired(s, from, into), line) == Shown(s, line)
  {
    var t := Retired(s, from, into);
    forall r: Row | r.commit in line ensures r in s.rows <==> r in t.rows {
      if r in s.rows { RowStays(s, from, into, r); }
      if r in t.rows { var a := RowCameFrom(s, from, into, r); }
    }
    ShownIsLocal(s, t, line);
  }

  lemma RetireIsExactWithoutTarget(s: Store, from: CommitId, into: CommitId, d: CommitId)
    requires Valid(s) && Retirable(s, from, into) && from in Line(s.parents, d) && into !in Line(s.parents, d)
    requires Valid(Retired(s, from, into))
    ensures Shown(Retired(s, from, into), Line(s.parents, d) - {from}) == StateAt(s, d) <==>
      Undisturbed(s, from, into, d)
  {
    var line := Line(s.parents, d);
    RowsElsewhereStay(s, from, into, line - {from});
    ShownWithout(s, line, line - {from});
    assert Undisturbed(s, from, into, d) <==> Repeated(s, line, line - {from}) by {
      forall r | r in RowsOf(s, from) ensures Harmless(s, from, into, d, r) <==>
        (Wins(s, line, r) ==> exists w :: Wins(s, line - {from}, w) && w.coord == r.coord && w.blob == r.blob) {}
    }
  }

  lemma RetireIsExactWithTarget(s: Store, from: CommitId, into: CommitId, d: CommitId)
    requires Valid(s) && Retirable(s, from, into) && d != from && into in Line(s.parents, d)
    requires Valid(Retired(s, from, into))
    ensures Shown(Retired(s, from, into), Line(s.parents, d) - {from}) == StateAt(s, d) <==>
      Undisturbed(s, from, into, d)
  {
    var line := Line(s.parents, d);
    var before := StateAt(s, d);
    var after := Shown(Retired(s, from, into), line - {from});
    LineNests(s.parents, d, into);
    if after == before {
      forall r | r in RowsOf(s, from) ensures Harmless(s, from, into, d, r) {
        var w := SomeRowWins(s, line, r);
        WinnerIsShown(s, line, w);
        ShownAfterFold(s, from, into, d, w);
      }
    }
    if Undisturbed(s, from, into, d) {
      forall p ensures AgreeAt(after, before, p) {
        UndisturbedAt(s, from, into, d, p);
      }
      MapsAgree(after, before);
    }
  }

  lemma UndisturbedAt(s: Store, from: CommitId, into: CommitId, d: CommitId, p: Coord)
    requires Valid(s) && Retirable(s, from, into) && d != from && into in Line(s.parents, d)
    requires Valid(Retired(s, from, into)) && Undisturbed(s, from, into, d)
    ensures AgreeAt(Shown(Retired(s, from, into), Line(s.parents, d) - {from}), StateAt(s, d), p)
  {
    LineNests(s.parents, d, into);
    if p in Shown(Retired(s, from, into), Line(s.parents, d) - {from}) { FoldIsNotNews(s, from, into, d, p); }
    if p in StateAt(s, d) {
      var w := ShownHasWinner(s, Line(s.parents, d), p);
      ShownAfterFold(s, from, into, d, w);
    }
  }

  // ----- when nothing is disturbed -----

  /** No row of a folded coordinate, outside the history of the target, was recorded between the two. */
  ghost predicate NoInterleaving(s: Store, from: CommitId, into: CommitId, d: CommitId)
    requires Valid(s) && from in s.seqs && into in s.seqs
  {
    forall r, w | r in RowsOf(s, from) && w in s.rows && w.coord == r.coord
                  && w.commit in Line(s.parents, d) && w.commit !in Line(s.parents, into) ::
      !(s.seqs[from] < s.seqs[w.commit] < s.seqs[into])
  }

  /** On any graph, a commit that continues the target keeps its state when no row interleaves. */
  lemma NoInterleavingSuffices(s: Store, from: CommitId, into: CommitId, d: CommitId)
    requires Valid(s) && Retirable(s, from, into)
    requires into in Line(s.parents, d) && NoInterleaving(s, from, into, d)
    ensures Undisturbed(s, from, into, d)
  {
    var line := Line(s.parents, d);
    LineNests(s.parents, d, into);
    forall r, w | r in RowsOf(s, from) && !Superseded(s, from, into, r)
                  && Wins(s, line, w) && w.coord == r.coord && s.seqs[w.commit] < s.seqs[into]
      ensures w.blob == r.blob
    {
      assert s.seqs[w.commit] >= s.seqs[from];
    }
  }

  /** The target of a retirement keeps its state on any graph. */
  lemma TargetKeepsState(s: Store, from: CommitId, into: CommitId)
    requires Valid(s) && Retirable(s, from, into)
    ensures Valid(Retired(s, from, into)) && StateAt(Retired(s, from, into), into) == StateAt(s, into)
  {
    NoInterleavingSuffices(s, from, into, into);
    RetireIsExact(s, from, into, into);
  }

  /**
   A ref on the retired commit follows the fold. It still names the state it named exactly
   when every row the target shows from outside the retired commit's history repeats one of it.
   */
  lemma TargetShowsSource(s: Store, from: CommitId, into: CommitId)
    requires Valid(s) && Retirable(s, from, into)
    ensures Valid(Retired(s, from, into))
    ensures forall n | n in s.refs && s.refs[n].commit == Some(from) ::
      Retired(s, from, into).refs[n].commit == Some(into)
    ensures StateAt(Retired(s, from, into), into) == StateAt(s, from)
      <==> forall w | Wins(s, Line(s.parents, into), w) && w.commit !in Line(s.parents, from) ::
             exists v :: Wins(s, Line(s.parents, from), v) && v.coord == w.coord && v.blob == w.blob
  {
    TargetKeepsState(s, from, into);
    LineNests(s.parents, into, from);
    ShownWithout(s, Line(s.parents, into), Line(s.parents, from));
  }

  /** In a forest nothing can interleave. */
  lemma ForestHasNoInterleaving(s: Store, from: CommitId, into: CommitId, d: CommitId)
    requires Valid(s) && Retirable(s, from, into) && Forest(s.parents) && into in Line(s.parents, d)
    ensures NoInterleaving(s, from, into, d)
  {
    forall w | w in s.rows && w.commit in Line(s.parents, d) && w.commit !in Line(s.parents, into)
      ensures s.seqs[w.commit] > s.seqs[into]
    {
      ForestComparable(s.parents, d, w.commit, into);
      AncestorsAreReached(s.parents, into, w.commit);
      DescendsGoesBack(s.parents, s.seqs, w.commit, into);
    }
  }
}
