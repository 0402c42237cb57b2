/**
 The in-memory metadata store: lists it scans and edits in place. Every operation is
 proved to do what the relational form does.
 */
module MemStore {
  import opened Base
  import opened Order
  import opened Ancestry
  import opened History
  import opened Retire
  import Port

  predicate DistinctIds(commits: seq<Commit>) {
    forall i, j | 0 <= i < j < |commits| :: commits[i].id != commits[j].id
  }

  /** Commits stand in the list in the order of their sequence numbers, with sorted parents. */
  ghost predicate Shaped(commits: seq<Commit>, rows: seq<Row>, seqs: map<CommitId, nat>) {
    && DistinctIds(commits) && Distinct(rows)
    && (forall c | c in commits :: c.id in seqs && Ascending(c.parents))
    && forall i, j | 0 <= i < j < |commits| :: seqs[commits[i].id] < seqs[commits[j].id]
  }

  function Ids(commits: seq<Commit>): set<CommitId> {
    set c | c in commits :: c.id
  }

  function Edges(commits: seq<Commit>): Graph {
    if commits == [] then map[] else
      var last := commits[|commits| - 1];
      Edges(commits[..|commits| - 1])[last.id := Elements(last.parents)]
  }

  function Times(commits: seq<Commit>): map<CommitId, u64> {
    if commits == [] then map[] else
      var last := commits[|commits| - 1];
      Times(commits[..|commits| - 1])[last.id := last.createdAtMs]
  }

  function ParentIndex(commits: seq<Commit>): map<CommitId, seq<CommitId>> {
    if commits == [] then map[] else
      var last := commits[|commits| - 1];
      ParentIndex(commits[..|commits| - 1])[last.id := last.parents]
  }

  lemma {:induction false} CommitIsIndexed(commits: seq<Commit>, c: Commit)
    requires DistinctIds(commits) && c in commits
    ensures c.id in Edges(commits) && Edges(commits)[c.id] == Elements(c.parents)
    ensures c.id in Times(commits) && Times(commits)[c.id] == c.createdAtMs
  {
    var n := |commits| - 1;
    if c != commits[n] {
      assert c in commits[..n];
      CommitIsIndexed(commits[..n], c);
    }
  }

  lemma {:induction false} IndexedIsCommit(commits: seq<Commit>, k: CommitId)
    ensures k in Edges(commits) ==> exists c :: c in commits && c.id == k
    ensures k in Times(commits) <==> k in Edges(commits)
  {
    if commits != [] {
      IndexedIsCommit(commits[..|commits| - 1], k);
    }
  }

  /** Later entries win, as when the pairs are collected into a map. */
  lemma {:induction false} ParentIndexIsEdges(commits: seq<Commit>)
    ensures Indexes(ParentIndex(commits), Edges(commits))
  {
    if commits != [] {
      ParentIndexIsEdges(commits[..|commits| - 1]);
    }
  }

  ghost predicate Indexes(index: map<CommitId, seq<CommitId>>, g: Graph) {
    forall c :: (c in index <==> c in g) && (c in g ==> g[c] == Elements(index[c]))
  }

  /** The blobs a set of effective rows shows. */
  function Blobs(rows: map<Coord, Row>): map<Coord, Option<ChunkHash>> {
    map p | p in rows :: rows[p].blob
  }

  /** The map form of a visit: what is shown, tombstones dropped. */
  method PresentRows(rows: map<Coord, Row>) returns (state: map<Coord, ChunkHash>)
    ensures state == Present(Blobs(rows))
  {
    state := map c | c in rows && rows[c].blob.Some? :: rows[c].blob.value;
  }

  /** Ancestors of a commit, by a stack that remembers what it has seen. */
  method AncestorIds(commits: seq<Commit>, commit: CommitId) returns (seen: set<CommitId>)
    ensures seen == Ancestors(Edges(commits), commit)
  {
    ParentIndexIsEdges(commits);
    seen := Reachable(ParentIndex(commits), commit, Edges(commits));
  }

  method Reachable(index: map<CommitId, seq<CommitId>>, commit: CommitId, ghost g: Graph) returns (seen: set<CommitId>)
    requires Indexes(index, g)
    ensures seen == Ancestors(g, commit)
  {
    seen := {};
    var stack := if commit in index then index[commit] else [];
    Port.AncestorsClosed(g, commit);
    while stack != []
      invariant seen + Elements(stack) <= Ancestors(g, commit)
      invariant ParentsOf(g, commit) <= seen + Elements(stack)
      invariant forall b | b in seen :: ParentsOf(g, b) <= seen + Elements(stack)
      decreases Ancestors(g, commit) - seen, |stack|
    {
      var id := stack[|stack| - 1];
      PopElements(stack);
      stack := stack[..|stack| - 1];
      if id in seen { continue; }
      seen := seen + {id};
      if id in index {
        stack := stack + index[id];
      }
    }
    ClosedHoldsAncestors(g, seen, commit);
  }

  lemma PopElements<T>(s: seq<T>)
    requires s != []
    ensures Elements(s) == Elements(s[..|s| - 1]) + {s[|s| - 1]}
  {
    assert s == s[..|s| - 1] + [s[|s| - 1]];
  }

  /** The commits a lookup accepts rows from: the commit and its ancestors, none recorded later. */
  ghost function Scanned(seqs: map<CommitId, nat>, commit: CommitId, ancestors: set<CommitId>,
                         target: nat): set<CommitId>
  {
    set c | c in {commit} + ancestors && c in seqs && seqs[c] <= target
  }

  /** Of the rows of `line` among `rows`, `latest` keeps the newest of each coordinate. */
  ghost predicate Leads(rows: set<Row>, seqs: map<CommitId, nat>, line: set<CommitId>, latest: map<Coord, Row>) {
    && (forall p | p in latest ::
          latest[p] in rows && latest[p].coord == p && latest[p].commit in line && latest[p].commit in seqs)
    && forall r | r in rows && r.commit in line && r.commit in seqs ::
         r.coord in latest && seqs[r.commit] <= seqs[latest[r.coord].commit]
  }

  /** One pass over the rows, keeping the newest of each coordinate. */
  method LatestRows(rows: seq<Row>, seqs: map<CommitId, nat>, commit: CommitId, ancestors: set<CommitId>, target: nat)
    returns (latest: map<Coord, Row>)
    ensures Leads(Elements(rows), seqs, Scanned(seqs, commit, ancestors, target), latest)
  {
    latest := map[];
    for i := 0 to |rows|
      invariant Leads(Elements(rows[..i]), seqs, Scanned(seqs, commit, ancestors, target), latest)
    {
      var row := rows[i];
      PopElements(rows[..i + 1]);
      assert rows[..i + 1][..i] == rows[..i];
      if row.commit != commit && row.commit !in ancestors { continue; }
      if row.commit !in seqs { continue; }
      var newer := seqs[row.commit];
      if newer > target { continue; }
      if row.coord !in latest || newer > seqs[latest[row.coord].commit] {
        latest := latest[row.coord := row];
      }
    }
    assert rows[..|rows|] == rows;
  }

  /** The newest row of one coordinate; of equals the last scanned. */
  method NewestRow(rows: seq<Row>, seqs: map<CommitId, nat>, commit: CommitId, ancestors: set<CommitId>, target: nat,
                   coord: Coord)
    returns (found: Option<Row>)
    ensures var line := Scanned(seqs, commit, ancestors, target);
      && (found.Some? ==> found.value in rows && found.value.coord == coord && found.value.commit in line)
      && (forall r | r in Elements(rows) && r.commit in line && r.coord == coord ::
            found.Some? && seqs[r.commit] <= seqs[found.value.commit])
  {
    ghost var line := Scanned(seqs, commit, ancestors, target);
    found := None;
    for i := 0 to |rows|
      invariant found.Some? ==> found.value in rows && found.value.coord == coord && found.value.commit in line
      invariant forall r | r in Elements(rows[..i]) && r.commit in line && r.coord == coord ::
                  found.Some? && seqs[r.commit] <= seqs[found.value.commit]
    {
      var row := rows[i];
      PopElements(rows[..i + 1]);
      assert rows[..i + 1][..i] == rows[..i];
      if (row.commit == commit || row.commit in ancestors) && row.coord == coord
        && row.commit in seqs && seqs[row.commit] <= target
        && (found.None? || seqs[row.commit] >= seqs[found.value.commit])
      {
        found := Some(row);
      }
    }
    assert rows[..|rows|] == rows;
  }

  /** In a valid store the sequence bound hides nothing: what is scanned is the line. */
  lemma ScannedIsLine(s: Store, commit: CommitId)
    requires History.Valid(s) && commit in s.seqs
    ensures Scanned(s.seqs, commit, Ancestors(s.parents, commit), s.seqs[commit]) == Line(s.parents, commit)
  {
    LineIsStored(s.parents, s.seqs, commit);
  }

  /** A child of the retired commit continues the retired commit's parents. */
  function Rewired(c: Commit, from: CommitId, fromParents: seq<CommitId>): Commit {
    if from !in c.parents then c
    // Sorting a list without repeats lists its set in order.
    else c.(parents := InOrder(Elements(c.parents) - {from} + Elements(fromParents)))
  }

  /** The relations a set of lists stands for. */
  function StoreOf(commits: seq<Commit>, rows: seq<Row>, seqs: map<CommitId, nat>, nextSeq: nat,
                   refs: map<RefName, Ref>): Store
  {
    Store(Times(commits), Edges(commits), seqs, nextSeq, Elements(rows), refs)
  }

  class MemMeta {
    // Commits in local record order, oldest first.
    var commits: seq<Commit>
    var rows: seq<Row>
    var refs: map<RefName, Ref>
    var seqs: map<CommitId, nat>
    var nextSeq: nat
    // The content address of a commit, over its sorted parents, time and rows.
    const commitHash: (seq<CommitId>, u64, seq<Entry>) -> CommitId

    ghost function View(): Store
      reads this
    {
      StoreOf(commits, rows, seqs, nextSeq, refs)
    }

    ghost predicate Valid()
      reads this
    {
      Shaped(commits, rows, seqs) && History.Valid(View())
    }

    /** A fresh store: one active ref, unborn. */
    constructor (name: RefName, commitHash: (seq<CommitId>, u64, seq<Entry>) -> CommitId)
      ensures Valid() && View() == Port.Fresh(name) && this.commitHash == commitHash
    {
      commits := [];
      rows := [];
      refs := map[name := Ref(None, true, 0)];
      seqs := map[];
      nextSeq := 0;
      this.commitHash := commitHash;
    }

    // ----- reading -----

    method LookupCommit(id: CommitId) returns (found: Option<Commit>)
      requires Valid()
      ensures found.Some? <==> id in seqs
      ensures found.Some? ==> found.value in commits && found.value.id == id
    {
      for i := 0 to |commits|
        invariant forall k | 0 <= k < i :: commits[k].id != id
      {
        if commits[i].id == id {
          return Some(commits[i]);
        }
      }
      IndexedIsCommit(commits, id);
      return None;
    }

    method LookupChunk(commit: CommitId, coord: Coord) returns (found: Option<Row>)
      requires Valid()
      ensures found.Some? <==> coord in StateAt(View(), commit)
      ensures found.Some? ==> found.value.coord == coord && Wins(View(), Line(View().parents, commit), found.value)
    {
      if commit !in seqs {
        UnknownShowsNothing(View(), commit);
        return None;
      }
      var ancestors := AncestorIds(commits, commit);
      found := NewestRow(rows, seqs, commit, ancestors, seqs[commit], coord);
      ScannedIsLine(View(), commit);
      ShownKnows(View(), Line(View().parents, commit), coord);
    }

    /** The effective rows of a commit, one per coordinate, tombstones included. */
    method VisitCommitChunks(commit: CommitId) returns (latest: map<Coord, Row>)
      requires Valid()
      ensures Blobs(latest) == StateAt(View(), commit)
      ensures forall p | p in latest :: latest[p].coord == p && Wins(View(), Line(View().parents, commit), latest[p])
    {
      if commit !in seqs {
        UnknownShowsNothing(View(), commit);
        return map[];
      }
      var ancestors := AncestorIds(commits, commit);
      latest := LatestRows(rows, seqs, commit, ancestors, seqs[commit]);
      ScannedIsLine(View(), commit);
      LatestIsState(View(), Line(View().parents, commit), latest);
    }

    /** All commits, oldest first. The list is kept in that order, so sorting it by sequence changes nothing. */
    method VisitCommits() returns (visited: seq<Commit>)
      requires Valid()
      ensures visited == commits
    {
      visited := commits;
    }

    method ActiveName() returns (name: Option<RefName>)
      requires Valid()
      ensures name == Port.ActiveName(refs)
    {
      if n :| n in refs && refs[n].active {
        return Some(n);
      }
      return None;
    }

    /** The ref new commits hang from; a target that is gone would be corruption. */
    method ActiveRef() returns (r: Result<Option<Ref>, MetaError>)
      requires Valid()
      ensures r == Ok(match Port.ActiveName(refs) case None => None case Some(n) => Some(refs[n]))
    {
      var name := ActiveName();
      if name.None? { return Ok(None); }
      var record := refs[name.value];
      if record.commit.Some? {
        var target := record.commit.value;
        var held := LookupCommit(target);
        if held.None? { return Err(UnknownCommit(target)); }
      }
      return Ok(Some(record));
    }

    // ----- recording -----

    method UnknownAmong(parents: seq<CommitId>) returns (unknown: Option<CommitId>)
      requires Valid()
      ensures unknown == Port.FirstUnknown(seqs.Keys, parents)
    {
      for i := 0 to |parents|
        invariant Port.FirstUnknown(seqs.Keys, parents) == Port.FirstUnknown(seqs.Keys, parents[i..])
      {
        var held := LookupCommit(parents[i]);
        if held.None? { return Some(parents[i]); }
        assert parents[i..][1..] == parents[i + 1..];
      }
      return None;
    }

    /** Append a commit unless its identifier is stored already. */
    method InsertCommit(id: CommitId, createdAtMs: u64, parents: seq<CommitId>) returns (inserted: bool)
      requires Shaped(commits, rows, seqs) && Ascending(parents)
      requires forall c | c in seqs :: seqs[c] <= nextSeq
      modifies this`commits, this`seqs, this`nextSeq
      ensures Shaped(commits, rows, seqs)
      ensures inserted <==> id !in old(seqs)
      ensures View() == Port.Inserted(old(View()), id, createdAtMs, Elements(parents), [])
    {
      if id in seqs { return false; }
      Append(Commit(id, createdAtMs, parents));
      return true;
    }

    /** Stamp a new commit with the next sequence number and list it last. */
    method Append(c: Commit)
      requires Shaped(commits, rows, seqs) && Ascending(c.parents) && c.id !in seqs
      requires forall d | d in seqs :: seqs[d] <= nextSeq
      modifies this`commits, this`seqs, this`nextSeq
      ensures Shaped(commits, rows, seqs)
      ensures View() == Port.Inserted(old(View()), c.id, c.createdAtMs, Elements(c.parents), [])
    {
      ghost var was, order, last := commits, seqs, nextSeq;
      nextSeq := nextSeq + 1;
      seqs := seqs[c.id := nextSeq];
      commits := commits + [c];
      AppendedCommit(was, rows, order, last, refs, c);
    }

    method CreateCommit(createdAtMs: u64, parents: seq<CommitId>) returns (r: Result<CommitId, MetaError>)
      requires Valid()
      modifies this
      ensures Valid()
      ensures var id := commitHash(InOrder(Elements(parents)), createdAtMs, []);
        match Port.CreateCommit(old(View()), id, createdAtMs, parents)
        case Ok(t) => r == Ok(id) && View() == t
        case Err(e) => r == Err(e) && View() == old(View())
      ensures r.Ok? <==> forall p | p in parents :: p in old(seqs)
      ensures r.Err? ==> r.error.UnknownParent? && Port.FirstOutside(old(seqs).Keys, parents, r.error.id)
      ensures r.Ok? && r.value !in old(seqs) ==> Port.StoredAs(View(), r.value, Elements(parents), createdAtMs)
      ensures refs == old(refs) && rows == old(rows)
    {
      Port.FirstUnknownFinds(seqs.Keys, parents);
      var unknown := UnknownAmong(parents);
      if unknown.Some? { return Err(UnknownParent(unknown.value)); }
      InOrderLists(Elements(parents));
      var canonical := InOrder(Elements(parents));
      var id := commitHash(canonical, createdAtMs, []);
      Port.InsertKeepsValid(View(), id, createdAtMs, Elements(parents), []);
      Port.InsertRecords(View(), id, createdAtMs, Elements(parents), []);
      var _ := InsertCommit(id, createdAtMs, canonical);
      return Ok(id);
    }

    /** Record a commit with its rows and move the active ref onto it. */
    method ApplyCommitIncremental(createdAtMs: u64, parents: seq<CommitId>, entries: seq<Entry>)
      returns (r: Result<CommitId, MetaError>)
      requires Valid()
      modifies this
      ensures var id := commitHash(InOrder(Elements(parents)), createdAtMs, entries);
        match Port.ApplyCommit(old(View()), id, createdAtMs, parents, entries)
        case Ok(t) => r == Ok(id) && View() == t
        case Err(e) => r == Err(e) && View() == old(View())
      ensures r.Ok? ==> Port.ActiveMoves(old(refs), refs, r.value)
      ensures DistinctCoords(entries) || r.Err? ==> Valid()
    {
      ghost var before := View();
      var active := ActiveName();
      if active.None? { return Err(NoActiveRef); }
      var target := refs[active.value].commit;
      if target.Some? && target.value !in parents {
        return Err(NotContinuing(target.value));
      }
      var unknown := UnknownAmong(parents);
      if unknown.Some? { return Err(UnknownParent(unknown.value)); }
      Port.FirstUnknownFinds(seqs.Keys, parents);
      InOrderLists(Elements(parents));
      var canonical := InOrder(Elements(parents));
      var id := commitHash(canonical, createdAtMs, entries);
      Port.ApplyMovesActiveRef(before, id, createdAtMs, parents, entries);
      WriteCommit(id, createdAtMs, canonical, entries, active.value);
      if DistinctCoords(entries) {
        Port.ApplyKeepsValid(before, id, createdAtMs, parents, entries);
      }
      return Ok(id);
    }

    /** The write phase of recording: commit, rows and ref, none of which can fail. */
    method WriteCommit(id: CommitId, createdAtMs: u64, parents: seq<CommitId>, entries: seq<Entry>, active: RefName)
      requires Shaped(commits, rows, seqs) && Ascending(parents) && active in refs
      requires forall c | c in seqs :: seqs[c] <= nextSeq
      requires forall r | r in rows :: r.commit in seqs
      modifies this
      ensures View() == Port.Inserted(old(View()), id, createdAtMs, Elements(parents), entries)
                .(refs := old(refs)[active := old(refs)[active].(commit := Some(id))])
      ensures DistinctCoords(entries) ==> Shaped(commits, rows, seqs)
    {
      ghost var before := View();
      var record := refs[active];
      var inserted := InsertCommit(id, createdAtMs, parents);
      if inserted {
        NewRowsAreDistinct(rows, id, entries);
        RowsListed(rows, id, entries);
        var grown := PushRows(rows, id, entries);
        rows := grown;
        assert rows == grown;
      }
      refs := refs[active := record.(commit := Some(id))];
      assert View().rows == Port.Inserted(before, id, createdAtMs, Elements(parents), entries).rows;
    }

    // ----- retiring -----

    /** Fold a commit into a descendant and take it out of the graph. */
    method RetireCommit(from: CommitId, into: CommitId) returns (r: Result<FoldOutcome, MetaError>)
      requires Valid()
      modifies this
      ensures Valid()
      ensures match Port.RetireCommit(old(View()), from, into)
        case Ok(t) => r.Ok? && View() == t
        case Err(e) => r == Err(e) && View() == old(View())
      ensures r.Ok? <==> from in old(seqs) && into in old(seqs) && from in Ancestors(old(View()).parents, into)
      ensures r.Err? ==> r.error == InvalidRetirement(from, into)
      ensures r.Ok? ==> RefsFollow(old(refs), refs, from, into)
      ensures r.Ok? ==> r.value.folded + r.value.dropped == |RowsOf(old(View()), from)|
      ensures r.Ok? ==> |rows| + r.value.dropped == |old(rows)|
    {
      if from !in seqs || into !in seqs { return Err(InvalidRetirement(from, into)); }
      var ancestors := AncestorIds(commits, into);
      if from in ancestors { DescendsGoesBack(View().parents, seqs, into, from); }
      if seqs[into] <= seqs[from] || from !in ancestors { return Err(InvalidRetirement(from, into)); }
      RetireKeepsValid(View(), from, into);
      FoldMovesItsRefs(refs, from, into);
      var outcome := Fold(from, into, ancestors + {into});
      return Ok(outcome);
    }

    /** The edits of a retirement; every check has passed. */
    method Fold(from: CommitId, into: CommitId, superseding: set<CommitId>) returns (outcome: FoldOutcome)
      requires Valid() && Retirable(View(), from, into) && superseding == Line(View().parents, into)
      modifies this
      ensures Shaped(commits, rows, seqs) && View() == Retired(old(View()), from, into)
      ensures outcome.folded + outcome.dropped == |RowsOf(old(View()), from)|
      ensures |rows| + outcome.dropped == |old(rows)|
    {
      var kept, folded, dropped := FoldRows(rows, seqs, from, into, superseding);
      OutcomeCounts(rows, rows, seqs, from, into, superseding);
      assert RowsIn(rows, from) == RowsOf(View(), from);
      var retired := LookupCommit(from);
      var fromParents := retired.value.parents;
      CommitIsIndexed(commits, retired.value);
      var rewired := RewireLoop(commits, from, fromParents);
      RetiredLists(commits, rows, seqs, nextSeq, refs, from, into, fromParents);
      Replace(Without(rewired, from), kept, seqs - {from}, FollowFold(refs, from, into));
      return FoldOutcome(folded, dropped);
    }

    method Replace(commits: seq<Commit>, rows: seq<Row>, seqs: map<CommitId, nat>, refs: map<RefName, Ref>)
      modifies this
      ensures View() == StoreOf(commits, rows, seqs, old(nextSeq), refs)
      ensures this.commits == commits && this.rows == rows && this.seqs == seqs
    {
      this.commits := commits;
      this.rows := rows;
      this.seqs := seqs;
      this.refs := refs;
    }

    // ----- refs -----

    method SetRef(name: RefName, commit: Option<CommitId>, createdAtMs: u64) returns (r: Result<(), MetaError>)
      requires Valid()
      modifies this`refs
      ensures Valid()
      ensures match Port.SetRef(old(View()), name, commit, createdAtMs)
        case Ok(t) => r.Ok? && View() == t
        case Err(e) => r == Err(e) && View() == old(View())
      ensures r.Ok? <==> commit.None? || commit.value in seqs
      ensures r.Err? ==> r.error == UnknownCommit(commit.value) && refs == old(refs)
      ensures r.Ok? ==> Port.RefIsSet(old(refs), refs, name, commit, createdAtMs)
    {
      if commit.Some? {
        var target := commit.value;
        var held := LookupCommit(target);
        if held.None? { return Err(UnknownCommit(target)); }
      }
      // An existing ref only changes its target.
      var record := if name in refs then refs[name].(commit := commit) else Ref(commit, false, createdAtMs);
      Port.MovedRefIsBound(View(), name, commit, createdAtMs);
      Port.RefsChangeAsAsked(View(), name, commit, createdAtMs);
      refs := refs[name := record];
      return Ok(());
    }

    method DeleteRef(name: RefName) returns (r: Result<bool, MetaError>)
      requires Valid()
      modifies this`refs
      ensures Valid()
      ensures match Port.DeleteRef(old(View()), name)
        case Ok(t) => r == Ok(name in old(refs)) && View() == t
        case Err(e) => r == Err(e) && View() == old(View())
      ensures r.Err? <==> name in old(refs) && old(refs)[name].active
      ensures r.Err? ==> r.error == ActiveRefProtected(name) && refs == old(refs)
      ensures r.Ok? ==> Port.RefIsGone(old(refs), refs, name)
    {
      if name in refs && refs[name].active { return Err(ActiveRefProtected(name)); }
      var held := name in refs;
      Port.RefsChangeAsAsked(View(), name, None, 0);
      refs := refs - {name};
      return Ok(held);
    }

    method ActivateRef(name: RefName) returns (r: Result<(), MetaError>)
      requires Valid()
      modifies this`refs
      ensures Valid()
      ensures match Port.ActivateRef(old(View()), name)
        case Ok(t) => r.Ok? && View() == t
        case Err(e) => r == Err(e) && View() == old(View())
      ensures r.Ok? <==> name in old(refs)
      ensures r.Err? ==> r.error == UnknownRef(name) && refs == old(refs)
      ensures r.Ok? ==> Port.OnlyActive(old(refs), refs, name)
    {
      if name !in refs { return Err(UnknownRef(name)); }
      if refs[name].commit.Some? {
        var target := refs[name].commit.value;
        var held := LookupCommit(target);
        if held.None? { return Err(UnknownCommit(target)); }
      }
      Port.RefsChangeAsAsked(View(), name, None, 0);
      refs := map n | n in refs :: refs[n].(active := n == name);
      return Ok(());
    }
  }

  // ----- the lists a retirement edits -----

  /** A row the history of the target supersedes. */
  predicate Hidden(rows: seq<Row>, seqs: map<CommitId, nat>, from: CommitId, superseding: set<CommitId>, r: Row)
    requires from in seqs
  {
    exists o | o in rows ::
      o.coord == r.coord && o.commit in seqs && seqs[o.commit] > seqs[from] && o.commit in superseding
  }

  lemma HiddenIsSuperseded(s: Store, rows: seq<Row>, from: CommitId, into: CommitId, r: Row)
    requires Keyed(s) && from in s.seqs && s.rows == Elements(rows)
    ensures Hidden(rows, s.seqs, from, Line(s.parents, into), r) <==> Superseded(s, from, into, r)
  {
  }

  /** The rows a retirement leaves, in order: `part` is scanned, `rows` is searched. */
  function Kept(part: seq<Row>, rows: seq<Row>, seqs: map<CommitId, nat>, from: CommitId, into: CommitId,
                superseding: set<CommitId>): seq<Row>
    requires from in seqs
  {
    if part == [] then [] else
      var row := part[|part| - 1];
      Kept(part[..|part| - 1], rows, seqs, from, into, superseding)
      + if row.commit != from then [row]
        else if Hidden(rows, seqs, from, superseding, row) then []
        else [row.(commit := into)]
  }

  /** How many of the retired commit's rows are dropped and how many fold. */
  function Outcome(part: seq<Row>, rows: seq<Row>, seqs: map<CommitId, nat>, from: CommitId,
                   superseding: set<CommitId>): FoldOutcome
    requires from in seqs
  {
    if part == [] then FoldOutcome(0, 0) else
      var row := part[|part| - 1];
      var before := Outcome(part[..|part| - 1], rows, seqs, from, superseding);
      if row.commit != from then before
      else if Hidden(rows, seqs, from, superseding, row) then before.(dropped := before.dropped + 1)
      else before.(folded := before.folded + 1)
  }

  /** Drop the superseded rows of the retired commit and re-stamp the others; keep the rest. */
  method FoldRows(rows: seq<Row>, seqs: map<CommitId, nat>, from: CommitId, into: CommitId, superseding: set<CommitId>)
    returns (kept: seq<Row>, folded: nat, dropped: nat)
    requires from in seqs
    ensures kept == Kept(rows, rows, seqs, from, into, superseding)
    ensures FoldOutcome(folded, dropped) == Outcome(rows, rows, seqs, from, superseding)
  {
    folded, dropped, kept := 0, 0, [];
    for i := 0 to |rows|
      invariant kept == Kept(rows[..i], rows, seqs, from, into, superseding)
      invariant FoldOutcome(folded, dropped) == Outcome(rows[..i], rows, seqs, from, superseding)
    {
      var row := rows[i];
      assert rows[..i + 1][..i] == rows[..i];
      if row.commit != from {
        kept := kept + [row];
        continue;
      }
      if Hidden(rows, seqs, from, superseding, row) {
        dropped := dropped + 1;
      } else {
        kept := kept + [row.(commit := into)];
        folded := folded + 1;
      }
    }
    assert rows[..|rows|] == rows;
  }

  /** Distinct rows stay distinct. */
  lemma FoldedRowsApart(s: Store, from: CommitId, into: CommitId, r: Row, o: Row)
    requires Keyed(s) && Retirable(s, from, into) && r in s.rows && o in s.rows && r != o
    requires !Dropped(s, from, into, r) && !Dropped(s, from, into, o)
    ensures Moved(r, from, into) != Moved(o, from, into)
  {
  }

  /** `kept` holds exactly the rows of `part` a retirement keeps, each once. */
  ghost predicate KeepsOf(s: Store, part: seq<Row>, from: CommitId, into: CommitId, kept: seq<Row>)
    requires Keyed(s) && from in s.seqs
  {
    && (forall r | r in part && !Dropped(s, from, into, r) :: Moved(r, from, into) in kept)
    && (forall v | v in kept :: exists r :: r in part && !Dropped(s, from, into, r) && Moved(r, from, into) == v)
    && Distinct(kept)
  }

  lemma KeepsOn(s: Store, part: seq<Row>, row: Row, from: CommitId, into: CommitId, kept: seq<Row>)
    requires Keyed(s) && Retirable(s, from, into) && KeepsOf(s, part, from, into, kept)
    requires Elements(part + [row]) <= s.rows && row !in part
    ensures KeepsOf(s, part + [row], from, into,
                    kept + if Dropped(s, from, into, row) then [] else [Moved(row, from, into)])
  {
    assert row in Elements(part + [row]);
    forall r | r in part && !Dropped(s, from, into, r) && !Dropped(s, from, into, row)
      ensures Moved(r, from, into) != Moved(row, from, into)
    {
      assert r in Elements(part + [row]);
      FoldedRowsApart(s, from, into, r, row);
    }
    var grown := kept + if Dropped(s, from, into, row) then [] else [Moved(row, from, into)];
    forall v | v in grown
      ensures exists r :: r in part + [row] && !Dropped(s, from, into, r) && Moved(r, from, into) == v
    {
      if v in kept {
        var r :| r in part && !Dropped(s, from, into, r) && Moved(r, from, into) == v;
        assert r in part + [row];
      } else {
        assert row in part + [row];
      }
    }
    forall r | r in part + [row] && !Dropped(s, from, into, r) ensures Moved(r, from, into) in grown {
      if r in part {
        assert Moved(r, from, into) in kept;
      }
    }
    forall i | 0 <= i < |kept| && !Dropped(s, from, into, row) ensures kept[i] != Moved(row, from, into) {
      assert kept[i] in kept;
      var r :| r in part && !Dropped(s, from, into, r) && Moved(r, from, into) == kept[i];
    }
  }

  lemma {:induction false} KeptRows(s: Store, part: seq<Row>, rows: seq<Row>, from: CommitId, into: CommitId)
    requires Keyed(s) && Retirable(s, from, into) && s.rows == Elements(rows)
    requires Elements(part) <= s.rows && Distinct(part)
    ensures KeepsOf(s, part, from, into, Kept(part, rows, s.seqs, from, into, Line(s.parents, into)))
  {
    if part != [] {
      var init, row := part[..|part| - 1], part[|part| - 1];
      assert part == init + [row];
      PopElements(part);
      KeptRows(s, init, rows, from, into);
      HiddenIsSuperseded(s, rows, from, into, row);
      KeepsOn(s, init, row, from, into, Kept(init, rows, s.seqs, from, into, Line(s.parents, into)));
    }
  }

  ghost function RowsIn(part: seq<Row>, from: CommitId): set<Row> {
    set r | r in part && r.commit == from
  }

  lemma {:induction false} OutcomeCounts(part: seq<Row>, rows: seq<Row>, seqs: map<CommitId, nat>, from: CommitId,
                                         into: CommitId, superseding: set<CommitId>)
    requires from in seqs && Distinct(part)
    ensures var outcome := Outcome(part, rows, seqs, from, superseding);
      && outcome.folded + outcome.dropped == |RowsIn(part, from)|
      && |Kept(part, rows, seqs, from, into, superseding)| + outcome.dropped == |part|
  {
    if part != [] {
      var init, row := part[..|part| - 1], part[|part| - 1];
      OutcomeCounts(init, rows, seqs, from, into, superseding);
      assert part == init + [row];
      assert row !in RowsIn(init, from);
      assert RowsIn(part, from) == if row.commit == from then RowsIn(init, from) + {row} else RowsIn(init, from);
    }
  }

  function RewireAll(commits: seq<Commit>, from: CommitId, fromParents: seq<CommitId>): seq<Commit> {
    seq(|commits|, i requires 0 <= i < |commits| => Rewired(commits[i], from, fromParents))
  }

  method RewireLoop(commits: seq<Commit>, from: CommitId, fromParents: seq<CommitId>) returns (rewired: seq<Commit>)
    ensures rewired == RewireAll(commits, from, fromParents)
  {
    rewired := commits;
    for i := 0 to |commits|
      invariant |rewired| == |commits|
      invariant forall k | 0 <= k < i :: rewired[k] == Rewired(commits[k], from, fromParents)
      invariant forall k | i <= k < |commits| :: rewired[k] == commits[k]
    {
      if from in rewired[i].parents {
        rewired := rewired[i := Rewired(rewired[i], from, fromParents)];
      }
    }
  }

  /** The commits other than one. */
  function Without(commits: seq<Commit>, from: CommitId): seq<Commit> {
    if commits == [] then [] else
      var last := commits[|commits| - 1];
      Without(commits[..|commits| - 1], from) + if last.id == from then [] else [last]
  }

  /** Contraction with the inherited parents given. */
  function ContractWith(g: Graph, from: CommitId, inherited: set<CommitId>): Graph {
    map c | c in g && c != from :: Heir(g[c], from, inherited)
  }

  function Heir(parents: set<CommitId>, from: CommitId, inherited: set<CommitId>): set<CommitId> {
    if from in parents then parents - {from} + inherited else parents
  }

  lemma ContractGrows(g: Graph, from: CommitId, inherited: set<CommitId>, k: CommitId, v: set<CommitId>)
    ensures ContractWith(g[k := v], from, inherited)
         == if k == from then ContractWith(g, from, inherited)
            else ContractWith(g, from, inherited)[k := Heir(v, from, inherited)]
  {
  }

  lemma RewiredParents(c: Commit, from: CommitId, ps: seq<CommitId>)
    ensures Elements(Rewired(c, from, ps).parents) == Heir(Elements(c.parents), from, Elements(ps))
    ensures Ascending(c.parents) ==> Ascending(Rewired(c, from, ps).parents)
  {
    InOrderLists(Elements(c.parents) - {from} + Elements(ps));
  }

  lemma LeftGrows(commits: seq<Commit>, from: CommitId, ps: seq<CommitId>)
    requires commits != []
    ensures var last := commits[|commits| - 1];
      Without(RewireAll(commits, from, ps), from)
      == Without(RewireAll(commits[..|commits| - 1], from, ps), from)
         + if last.id == from then [] else [Rewired(last, from, ps)]
  {
    var n := |commits| - 1;
    var rewired := RewireAll(commits, from, ps);
    assert rewired[..n] == RewireAll(commits[..n], from, ps);
    assert rewired[n] == Rewired(commits[n], from, ps);
  }

  lemma {:induction false} EdgesContract(commits: seq<Commit>, from: CommitId, ps: seq<CommitId>)
    ensures Edges(Without(RewireAll(commits, from, ps), from)) == ContractWith(Edges(commits), from, Elements(ps))
  {
    if commits == [] {
      assert RewireAll(commits, from, ps) == [];
    } else {
      var n := |commits| - 1;
      var left := Without(RewireAll(commits[..n], from, ps), from);
      EdgesContract(commits[..n], from, ps);
      LeftGrows(commits, from, ps);
      ContractGrows(Edges(commits[..n]), from, Elements(ps), commits[n].id, Elements(commits[n].parents));
      if commits[n].id == from {
        assert left + [] == left;
      } else {
        RewiredParents(commits[n], from, ps);
      }
    }
  }

  lemma {:induction false} TimesContract(commits: seq<Commit>, from: CommitId, ps: seq<CommitId>)
    ensures Times(Without(RewireAll(commits, from, ps), from)) == Times(commits) - {from}
  {
    if commits == [] {
      assert RewireAll(commits, from, ps) == [];
    } else {
      var n := |commits| - 1;
      var left := Without(RewireAll(commits[..n], from, ps), from);
      TimesContract(commits[..n], from, ps);
      LeftGrows(commits, from, ps);
      ForgetGrows(Times(commits[..n]), from, commits[n].id, commits[n].createdAtMs);
      if commits[n].id == from {
        assert left + [] == left;
      }
    }
  }

  lemma ForgetGrows(m: map<CommitId, u64>, from: CommitId, k: CommitId, t: u64)
    ensures m[k := t] - {from} == if k == from then m - {from} else (m - {from})[k := t]
  {
  }

  lemma {:induction false} WithoutKeepsOrder(commits: seq<Commit>, seqs: map<CommitId, nat>, from: CommitId)
    requires forall c | c in commits :: c.id in seqs
    requires forall i, j | 0 <= i < j < |commits| :: seqs[commits[i].id] < seqs[commits[j].id]
    ensures var left := Without(commits, from);
      && (forall c | c in left :: c in commits && c.id != from)
      && forall i, j | 0 <= i < j < |left| :: seqs[left[i].id] < seqs[left[j].id]
  {
    if commits != [] {
      var n := |commits| - 1;
      WithoutKeepsOrder(commits[..n], seqs, from);
      var init := Without(commits[..n], from);
      forall c | c in init ensures seqs[c.id] < seqs[commits[n].id] {
        assert c in commits[..n];
      }
    }
  }

  lemma ContractedShape(commits: seq<Commit>, rows: seq<Row>, kept: seq<Row>, seqs: map<CommitId, nat>, from: CommitId,
                        ps: seq<CommitId>)
    requires Shaped(commits, rows, seqs) && Distinct(kept)
    ensures Shaped(Without(RewireAll(commits, from, ps), from), kept, seqs - {from})
  {
    var rewired := RewireAll(commits, from, ps);
    forall c | c in rewired ensures c.id in seqs && Ascending(c.parents) {
      var i :| 0 <= i < |rewired| && rewired[i] == c;
      RewiredParents(commits[i], from, ps);
    }
    WithoutKeepsOrder(rewired, seqs, from);
  }

  /** The edited lists stand for the retired store. */
  lemma ContractsAgree(g: Graph, from: CommitId)
    ensures ContractWith(g, from, ParentsOf(g, from)) == Contract(g, from)
  {
  }

  lemma RetiredLists(commits: seq<Commit>, rows: seq<Row>, seqs: map<CommitId, nat>, nextSeq: nat,
                     refs: map<RefName, Ref>, from: CommitId, into: CommitId, ps: seq<CommitId>)
    requires Shaped(commits, rows, seqs) && History.Valid(StoreOf(commits, rows, seqs, nextSeq, refs))
    requires Retirable(StoreOf(commits, rows, seqs, nextSeq, refs), from, into)
    requires Elements(ps) == ParentsOf(Edges(commits), from)
    ensures var s := StoreOf(commits, rows, seqs, nextSeq, refs);
      var kept := Kept(rows, rows, seqs, from, into, Line(s.parents, into));
      var left := Without(RewireAll(commits, from, ps), from);
      && Shaped(left, kept, seqs - {from})
      && StoreOf(left, kept, seqs - {from}, nextSeq, FollowFold(refs, from, into)) == Retired(s, from, into)
  {
    var s := StoreOf(commits, rows, seqs, nextSeq, refs);
    var kept := Kept(rows, rows, seqs, from, into, Line(s.parents, into));
    KeptRows(s, rows, rows, from, into);
    assert Elements(kept) == Retired(s, from, into).rows;
    EdgesContract(commits, from, ps);
    TimesContract(commits, from, ps);
    ContractsAgree(s.parents, from);
    ContractedShape(commits, rows, kept, seqs, from, ps);
  }

  function Rows(id: CommitId, entries: seq<Entry>): seq<Row> {
    seq(|entries|, i requires 0 <= i < |entries| => Row(entries[i].coord, id, entries[i].blob))
  }

  method PushRows(before: seq<Row>, id: CommitId, entries: seq<Entry>) returns (rows: seq<Row>)
    ensures rows == before + Rows(id, entries)
  {
    rows := before;
    for i := 0 to |entries|
      invariant rows == before + Rows(id, entries)[..i]
    {
      rows := rows + [Row(entries[i].coord, id, entries[i].blob)];
    }
  }

  lemma NewRowsAreDistinct(rows: seq<Row>, id: CommitId, entries: seq<Entry>)
    requires forall r | r in rows :: r.commit != id
    ensures Distinct(rows) && DistinctCoords(entries) ==> Distinct(rows + Rows(id, entries))
  {
  }

  lemma UnknownShowsNothing(s: Store, c: CommitId)
    requires History.Valid(s) && c !in s.seqs
    ensures StateAt(s, c) == map[]
  {
    forall a ensures a !in Ancestors(s.parents, c) {
      DescendsUnfold(s.parents, c, a);
      AncestorsAreReached(s.parents, c, a);
    }
  }

  lemma LatestIsState(s: Store, line: set<CommitId>, latest: map<Coord, Row>)
    requires History.Valid(s)
    requires forall p | p in latest :: latest[p].coord == p && Wins(s, line, latest[p])
    requires forall r | r in s.rows && r.commit in line :: r.coord in latest
    ensures Blobs(latest) == Shown(s, line)
  {
    forall p ensures AgreeAt(Blobs(latest), Shown(s, line), p) {
      ShownKnows(s, line, p);
      if p in latest { WinnerIsShown(s, line, latest[p]); }
    }
    MapsAgree(Blobs(latest), Shown(s, line));
  }

  lemma AppendedCommit(commits: seq<Commit>, rows: seq<Row>, seqs: map<CommitId, nat>, nextSeq: nat,
                       refs: map<RefName, Ref>, c: Commit)
    requires Shaped(commits, rows, seqs) && c.id !in seqs && Ascending(c.parents)
    requires forall d | d in seqs :: seqs[d] <= nextSeq
    ensures Shaped(commits + [c], rows, seqs[c.id := nextSeq + 1])
    ensures StoreOf(commits + [c], rows, seqs[c.id := nextSeq + 1], nextSeq + 1, refs)
         == Port.Inserted(StoreOf(commits, rows, seqs, nextSeq, refs), c.id, c.createdAtMs, Elements(c.parents), [])
  {
    AppendedView(commits, rows, seqs, nextSeq, refs, c, []);
  }

  lemma AppendedView(commits: seq<Commit>, rows: seq<Row>, seqs: map<CommitId, nat>, nextSeq: nat,
                     refs: map<RefName, Ref>, c: Commit, entries: seq<Entry>)
    requires c.id !in seqs
    ensures StoreOf(commits + [c], rows + Rows(c.id, entries), seqs[c.id := nextSeq + 1], nextSeq + 1, refs)
         == Port.Inserted(StoreOf(commits, rows, seqs, nextSeq, refs), c.id, c.createdAtMs, Elements(c.parents),
                          entries)
    ensures entries == [] ==> rows + Rows(c.id, entries) == rows
  {
    RowsListed(rows, c.id, entries);
  }

  lemma RowsListed(rows: seq<Row>, id: CommitId, entries: seq<Entry>)
    ensures Elements(rows + Rows(id, entries)) == Elements(rows) + Port.RowsFor(id, entries)
  {
    var added := Rows(id, entries);
    forall r ensures r in added <==> r in Port.RowsFor(id, entries) {
      if r in Port.RowsFor(id, entries) {
        var i :| 0 <= i < |entries| && r == Row(entries[i].coord, id, entries[i].blob);
        assert added[i] == r;
      }
    }
  }
}
