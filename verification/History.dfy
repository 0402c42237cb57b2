/**
 The history store as relations: commits with a local sequence number and parent edges,
 one row per commit and coordinate, and named refs. This is the form the SQL statements
 work on; the in-memory store is proved against it.
 */
module History {
  import opened Base
  import opened Ancestry

  datatype Store = Store(
    times: map<CommitId, u64>,
    parents: Graph,
    seqs: map<CommitId, nat>,
    nextSeq: nat,
    rows: set<Row>,
    refs: map<RefName, Ref>)

  datatype MetaError =
    | UnknownParent(id: CommitId)
    | UnknownCommit(id: CommitId)
    | InvalidRetirement(from: CommitId, into: CommitId)
    | UnknownRef(name: RefName)
    | NoActiveRef
    | NotContinuing(base: CommitId)
    | ActiveRefProtected(name: RefName)

  /** What one retirement did to the rows of the retired commit. */
  datatype FoldOutcome = FoldOutcome(folded: nat, dropped: nat)

  // ----- invariant -----

  ghost predicate Sequenced(s: Store) {
    && (forall c :: c in s.times <==> c in s.seqs)
    && Ordered(s.parents, s.seqs)
    && (forall c | c in s.seqs :: s.seqs[c] <= s.nextSeq)
    && (forall c, d | c in s.seqs && d in s.seqs && c != d :: s.seqs[c] != s.seqs[d])
  }

  /** One row per commit and coordinate, each on a stored commit. */
  ghost predicate Keyed(s: Store) {
    && (forall r | r in s.rows :: r.commit in s.seqs)
    && forall r, o | r in s.rows && o in s.rows && r.commit == o.commit && r.coord == o.coord :: r == o
  }

  /** Refs name stored commits and at most one is active. */
  ghost predicate RefsBound(s: Store) {
    && (forall n | n in s.refs && s.refs[n].commit.Some? :: s.refs[n].commit.value in s.seqs)
    && forall n, m | n in s.refs && m in s.refs && s.refs[n].active && s.refs[m].active :: n == m
  }

  ghost predicate Valid(s: Store) {
    Sequenced(s) && Keyed(s) && RefsBound(s)
  }

  // ----- effective rows -----

  /** `r` is the most recently recorded row of its coordinate on the commits of `line`. */
  ghost predicate Wins(s: Store, line: set<CommitId>, r: Row)
    requires Keyed(s)
  {
    && r in s.rows && r.commit in line
    && forall o | o in s.rows && o.coord == r.coord && o.commit in line :: s.seqs[o.commit] <= s.seqs[r.commit]
  }

  /** The state a set of commits shows: one blob or tombstone per coordinate they know. */
  ghost function Shown(s: Store, line: set<CommitId>): (state: map<Coord, Option<ChunkHash>>)
    requires Valid(s)
  {
    var coords := set r | r in s.rows && Wins(s, line, r) :: r.coord;
    map p | p in coords :: Winner(s, line, p).blob
  }

  ghost function Winner(s: Store, line: set<CommitId>, p: Coord): (w: Row)
    requires Keyed(s) && exists w :: Wins(s, line, w) && w.coord == p
    ensures Wins(s, line, w) && w.coord == p
  {
    var w :| Wins(s, line, w) && w.coord == p;
    w
  }

  /** The effective state of a commit, tombstones included. */
  ghost function StateAt(s: Store, c: CommitId): map<Coord, Option<ChunkHash>>
    requires Valid(s)
  {
    Shown(s, Line(s.parents, c))
  }

  /** The chunks present at a commit. */
  ghost function PresentAt(s: Store, c: CommitId): map<Coord, ChunkHash>
    requires Valid(s)
  {
    Present(StateAt(s, c))
  }

  /** Some row of a coordinate wins as soon as one is there. */
  lemma {:induction false} SomeRowWins(s: Store, line: set<CommitId>, r: Row) returns (w: Row)
    requires Keyed(s) && r in s.rows && r.commit in line
    ensures Wins(s, line, w) && w.coord == r.coord
    ensures s.seqs[r.commit] <= s.seqs[w.commit]
    decreases s.nextSeq + |set o | o in s.rows && s.seqs[o.commit] > s.seqs[r.commit]|
  {
    if o :| o in s.rows && o.coord == r.coord && o.commit in line && s.seqs[o.commit] > s.seqs[r.commit] {
      var above := set x | x in s.rows && s.seqs[x.commit] > s.seqs[r.commit];
      var next := set x | x in s.rows && s.seqs[x.commit] > s.seqs[o.commit];
      assert next <= above - {o};
      SetSmaller(next, above, o);
      w := SomeRowWins(s, line, o);
    } else {
      w := r;
    }
  }

  lemma SetSmaller<T>(a: set<T>, b: set<T>, x: T)
    requires a <= b - {x} && x in b
    ensures |a| < |b|
  {
    CardinalityMonotone(a, b - {x});
  }

  lemma {:induction false} CardinalityMonotone<T>(a: set<T>, b: set<T>)
    requires a <= b
    ensures |a| <= |b|
    decreases a
  {
    if x :| x in a {
      CardinalityMonotone(a - {x}, b - {x});
    }
  }

  lemma WinnerIsUnique(s: Store, line: set<CommitId>, r: Row, o: Row)
    requires Valid(s) && Wins(s, line, r) && Wins(s, line, o) && r.coord == o.coord
    ensures r == o
  {
  }

  /** A coordinate is shown exactly when some commit of the line holds a row for it. */
  lemma ShownKnows(s: Store, line: set<CommitId>, p: Coord)
    requires Valid(s)
    ensures p in Shown(s, line) <==> exists r :: r in s.rows && r.commit in line && r.coord == p
  {
    if r :| r in s.rows && r.commit in line && r.coord == p {
      var w := SomeRowWins(s, line, r);
    }
  }

  lemma WinnerIsShown(s: Store, line: set<CommitId>, w: Row)
    requires Valid(s) && Wins(s, line, w)
    ensures w.coord in Shown(s, line) && Shown(s, line)[w.coord] == w.blob
  {
  }

  /** The row behind a shown coordinate. */
  lemma ShownHasWinner(s: Store, line: set<CommitId>, p: Coord) returns (w: Row)
    requires Valid(s) && p in Shown(s, line)
    ensures Wins(s, line, w) && w.coord == p && Shown(s, line)[p] == w.blob
  {
    w := Winner(s, line, p);
  }

  /** Commits recorded later override what earlier ones show. */
  lemma LayersShow(s: Store, lo: set<CommitId>, hi: set<CommitId>)
    requires Valid(s)
    requires forall a, b | a in lo && b in hi && a in s.seqs && b in s.seqs :: s.seqs[a] < s.seqs[b]
    ensures Shown(s, lo + hi) == Shown(s, lo) + Shown(s, hi)
  {
    forall p ensures AgreeAt(Shown(s, lo + hi), Shown(s, lo) + Shown(s, hi), p) {
      LayerShows(s, lo, hi, p);
    }
    MapsAgree(Shown(s, lo + hi), Shown(s, lo) + Shown(s, hi));
  }

  lemma LayerShows(s: Store, lo: set<CommitId>, hi: set<CommitId>, p: Coord)
    requires Valid(s)
    requires forall a, b | a in lo && b in hi && a in s.seqs && b in s.seqs :: s.seqs[a] < s.seqs[b]
    ensures p in Shown(s, lo + hi) <==> p in Shown(s, lo) || p in Shown(s, hi)
    ensures p in Shown(s, hi) ==> Shown(s, lo + hi)[p] == Shown(s, hi)[p]
    ensures p in Shown(s, lo) && p !in Shown(s, hi) ==> Shown(s, lo + hi)[p] == Shown(s, lo)[p]
  {
    ShownKnows(s, lo + hi, p);
    ShownKnows(s, lo, p);
    ShownKnows(s, hi, p);
    if p in Shown(s, hi) {
      var w := ShownHasWinner(s, hi, p);
      WinnerIsShown(s, lo + hi, w);
    } else if p in Shown(s, lo) {
      var w := ShownHasWinner(s, lo, p);
      WinnerIsShown(s, lo + hi, w);
    }
  }

  /** The bound "not recorded after the commit" of the in-memory lookup changes nothing. */
  lemma SequenceBoundIsIdle(s: Store, c: CommitId, r: Row)
    requires Valid(s) && c in s.seqs
    ensures r in s.rows && r.commit in Line(s.parents, c) ==> s.seqs[r.commit] <= s.seqs[c]
  {
    LineIsStored(s.parents, s.seqs, c);
  }
}
