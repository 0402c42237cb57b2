/**
 Recording a world as a commit: plan against the active ref, assemble the delta of a scan,
 record it. The delta is an encoding of the scan; the effective state of the new commit
 decodes it.
 */
module CommitPlan {
  import opened Base
  import opened Order
  import opened Ancestry
  import opened History
  import opened Scopes
  import opened Deltas
  import opened MemStore
  import Port

  datatype CommitReport = CommitReport(commit: CommitId, chunks: nat, newBlobs: nat, tombstones: nat)

  // ----- planning -----

  /** The commit the active ref names. */
  ghost function BaseOf(s: Store): Option<CommitId> {
    match Port.ActiveName(s.refs) case None => None case Some(n) => s.refs[n].commit
  }

  ghost function BaseState(s: Store, base: Option<CommitId>): map<Coord, Option<ChunkHash>>
    requires Valid(s)
  {
    match base case None => map[] case Some(b) => StateAt(s, b)
  }

  function Matching(keys: seq<RegionKey>, scope: Scope): seq<RegionKey> {
    if keys == [] then []
    else Matching(keys[..|keys| - 1], scope) + if scope.MatchesRegion(keys[|keys| - 1]) then [keys[|keys| - 1]] else []
  }

  /** Load the base state and list the files to ingest. */
  method PlanCommit(meta: MemMeta, discovered: seq<RegionKey>, scope: Scope)
    returns (r: Result<(Previous, Plan), MetaError>)
    requires meta.Valid()
    ensures r.Ok? && PlannedOn(r.value.0, meta)
    ensures r.value.1.ingest == Matching(discovered, scope)
    ensures forall k :: k in r.value.1.discovered <==> k in discovered && scope.MatchesRegion(k)
    ensures forall k :: k in r.value.1.removed <==>
      scope.MatchesRegion(k) && k !in r.value.1.discovered && exists c :: c in r.value.0.state && RegionOf(c) == k
  {
    var previous := LoadBase(meta);
    var ingest, found := ListMatching(discovered, scope);
    var removed := ListMissing(previous.state, found, scope);
    r := Ok((previous, Plan(ingest, removed, found)));
  }

  /** Regions with chunks present at the base and no file now. */
  method ListMissing(state: Chunks, found: set<RegionKey>, scope: Scope) returns (removed: set<RegionKey>)
    ensures forall k :: k in removed <==>
      scope.MatchesRegion(k) && k !in found && exists c :: c in state && RegionOf(c) == k
  {
    removed := {};
    var rest := state.Keys;
    while rest != {}
      invariant rest <= state.Keys
      invariant forall k :: k in removed <==>
        scope.MatchesRegion(k) && k !in found && exists c :: c in state && c !in rest && RegionOf(c) == k
      decreases rest
    {
      var c :| c in rest;
      rest := rest - {c};
      var key := RegionOf(c);
      if scope.MatchesRegion(key) && key !in found {
        removed := removed + {key};
      }
    }
  }

  /** Planned on what the active ref names now, with the chunks present there. */
  ghost predicate PlannedOn(previous: Previous, meta: MemMeta)
    requires meta.Valid()
    reads meta
  {
    && BaseOf(meta.View()) == IdOf(previous.commit)
    && (previous.commit.Some? ==> previous.commit.value in meta.commits)
    && previous.state == Present(BaseState(meta.View(), BaseOf(meta.View())))
  }

  method LoadBase(meta: MemMeta) returns (previous: Previous)
    requires meta.Valid()
    ensures PlannedOn(previous, meta)
  {
    var active := meta.ActiveRef();
    if active.value.None? || active.value.value.commit.None? {
      return Previous(None, map[]);
    }
    var base := meta.LookupCommit(active.value.value.commit.value);
    if base.None? { return Previous(None, map[]); }
    var rows := meta.VisitCommitChunks(base.value.id);
    var state := PresentRows(rows);
    return Previous(base, state);
  }

  method ListMatching(keys: seq<RegionKey>, scope: Scope) returns (ingest: seq<RegionKey>, found: set<RegionKey>)
    ensures ingest == Matching(keys, scope)
    ensures forall k :: k in found <==> k in ingest
    ensures forall k :: k in ingest <==> k in keys && scope.MatchesRegion(k)
  {
    ingest, found := [], {};
    for i := 0 to |keys|
      invariant ingest == Matching(keys[..i], scope)
      invariant forall k :: k in found <==> k in ingest
      invariant forall k :: k in ingest <==> k in keys[..i] && scope.MatchesRegion(k)
    {
      assert keys[..i + 1] == keys[..i] + [keys[i]];
      if scope.MatchesRegion(keys[i]) {
        found := found + {keys[i]};
        ingest := ingest + [keys[i]];
      }
    }
    assert keys[..|keys|] == keys;
  }

  // ----- recording -----

  /** Record assembled rows on top of the planned base. */
  method RecordCommit(meta: MemMeta, previous: Previous, staged: Assembled, createdAtMs: u64)
    returns (r: Result<CommitReport, MetaError>)
    requires meta.Valid()
    modifies meta
    ensures var parents := ParentList(IdOf(previous.commit));
      var id := meta.commitHash(InOrder(Elements(parents)), createdAtMs, staged.entries);
      match Port.ApplyCommit(old(meta.View()), id, createdAtMs, parents, staged.entries)
      case Ok(t) => r == Ok(CommitReport(id, staged.chunks, staged.newBlobs, staged.tombstones)) && meta.View() == t
      case Err(e) => r == Err(e) && meta.View() == old(meta.View())
    ensures r.Ok? ==> Port.ActiveMoves(old(meta.refs), meta.refs, r.value.commit)
    ensures DistinctCoords(staged.entries) || r.Err? ==> meta.Valid()
  {
    var outcome := meta.ApplyCommitIncremental(createdAtMs, ParentList(IdOf(previous.commit)), staged.entries);
    match outcome
    case Err(e) => r := Err(e);
    case Ok(id) => r := Ok(CommitReport(id, staged.chunks, staged.newBlobs, staged.tombstones));
  }

  function IdOf(commit: Option<Commit>): Option<CommitId> {
    match commit case None => None case Some(c) => Some(c.id)
  }

  /** A recorded commit has no parent or one. */
  function ParentList(base: Option<CommitId>): seq<CommitId> {
    match base case None => [] case Some(b) => [b]
  }

  function BaseSet(base: Option<CommitId>): set<CommitId> {
    match base case None => {} case Some(b) => {b}
  }

  lemma InheritedFromBase(s: Store, base: Option<CommitId>)
    requires Valid(s)
    ensures Shown(s, Port.Inherited(s.parents, BaseSet(base))) == BaseState(s, base)
  {
    match base
    case None =>
      assert Port.Inherited(s.parents, {}) == {};
    case Some(b) =>
      assert Port.Inherited(s.parents, {b}) == Line(s.parents, b);
  }

  /**
   A commit of a scan shows the scan inside the scope and its base outside it; every other
   commit shows what it showed.
   */
  lemma CommitIsSound(s: Store, id: CommitId, t: u64, base: Option<CommitId>, entries: seq<Entry>, scan: Chunks,
                      scope: Scope)
    requires Valid(s) && id !in s.seqs && BaseSet(base) <= s.seqs.Keys && InScope(scan, scope)
    requires DistinctCoords(entries) && Delta(entries) == DeltaOf(Present(BaseState(s, base)), scan, scope)
    ensures var u := Port.Inserted(s, id, t, BaseSet(base), entries);
      && Valid(u) && PresentAt(u, id) == Updated(Present(BaseState(s, base)), scan, scope)
      && forall c | c in s.seqs :: StateAt(u, c) == StateAt(s, c)
  {
    Port.InsertShowsDelta(s, id, t, BaseSet(base), entries);
    InheritedFromBase(s, base);
    DeltaIsSound(BaseState(s, base), scan, scope);
    forall c | c in s.seqs ensures StateAt(Port.Inserted(s, id, t, BaseSet(base), entries), c) == StateAt(s, c) {
      Port.InsertKeepsStates(s, id, t, BaseSet(base), entries, c);
    }
  }

  /** `id` shows the scan over the old active commit; every older commit shows what it did. */
  ghost predicate Committed(before: Store, after: Store, id: CommitId, scan: Chunks, scope: Scope)
    requires Valid(before) && Valid(after)
  {
    && PresentAt(after, id) == Updated(Present(BaseState(before, BaseOf(before))), scan, scope)
    && forall c | c in before.seqs :: c in after.seqs && StateAt(after, c) == StateAt(before, c)
  }

  lemma BaseIsStored(s: Store)
    requires Valid(s)
    ensures BaseSet(BaseOf(s)) <= s.seqs.Keys
  {
  }

  /** Moving the active ref changes no state. */
  lemma RefsShowNothing(s: Store, refs: map<RefName, Ref>, c: CommitId)
    requires Valid(s) && Valid(s.(refs := refs))
    ensures StateAt(s.(refs := refs), c) == StateAt(s, c)
  {
    var u := s.(refs := refs);
    forall r ensures Wins(u, Line(s.parents, c), r) <==> Wins(s, Line(s.parents, c), r) {}
  }

  method Record(meta: MemMeta, previous: Previous, staged: Assembled, createdAtMs: u64, ghost s: Store,
                ghost base: Option<CommitId>, ghost scan: Chunks, ghost scope: Scope)
    returns (r: Result<CommitReport, MetaError>)
    requires meta.Valid() && meta.View() == s && base == BaseOf(s) && PlannedOn(previous, meta) && InScope(scan, scope)
    requires DistinctCoords(staged.entries) && Delta(staged.entries) == DeltaOf(previous.state, scan, scope)
    modifies meta
    ensures meta.Valid()
    ensures r.Ok? <==> Port.ActiveName(s.refs).Some?
    ensures r.Err? ==> meta.View() == s && r.error == NoActiveRef
    ensures r.Ok? ==> r.value == CommitReport(r.value.commit, staged.chunks, staged.newBlobs, staged.tombstones)
    ensures r.Ok? ==>
      meta.View().rows == Port.Inserted(s, r.value.commit, createdAtMs, BaseSet(base), staged.entries).rows
    ensures r.Ok? ==> BaseOf(meta.View()) == Some(r.value.commit)
    ensures r.Ok? ==> Port.ActiveMoves(s.refs, meta.refs, r.value.commit)
    ensures r.Ok? && r.value.commit !in s.seqs ==>
      && Committed(s, meta.View(), r.value.commit, scan, scope)
      && Port.StoredAs(meta.View(), r.value.commit, BaseSet(base), createdAtMs)
  {
    r := RecordCommit(meta, previous, staged, createdAtMs);
    ParentsAreBase(base);
    BaseIsStored(s);
    RecordAccepted(s, base, meta.commitHash(InOrder(Elements(ParentList(base))), createdAtMs, staged.entries),
                   createdAtMs, staged.entries);
    if r.Ok? {
      ghost var id := r.value.commit;
      ghost var u := meta.View();
      AppliedView(s, id, createdAtMs, ParentList(base), staged.entries);
      if id !in s.seqs {
        Port.InsertRecords(s, id, createdAtMs, BaseSet(base), staged.entries);
        CommitIsSound(s, id, createdAtMs, base, staged.entries, scan, scope);
        AfterRecord(s, u, id, createdAtMs, base, staged.entries, scan, scope);
      }
    }
  }

  /**
   Whatever happened since planning, a record is accepted exactly when the active ref still names
   its base or is unborn.
   */
  lemma RecordAccepted(s: Store, base: Option<CommitId>, id: CommitId, t: u64, entries: seq<Entry>)
    requires Valid(s) && BaseSet(base) <= s.seqs.Keys
    ensures Port.ApplyCommit(s, id, t, ParentList(base), entries).Ok? <==>
      Port.ActiveName(s.refs).Some? && (BaseOf(s).None? || BaseOf(s) == base)
  {
    Port.FirstUnknownFinds(s.seqs.Keys, ParentList(base));
    ParentsAreBase(base);
  }

  lemma ParentsAreBase(base: Option<CommitId>)
    ensures Elements(ParentList(base)) == BaseSet(base)
  {
  }

  lemma AppliedView(s: Store, id: CommitId, t: u64, parents: seq<CommitId>, entries: seq<Entry>)
    requires Valid(s) && Port.ApplyCommit(s, id, t, parents, entries).Ok?
    ensures var u := Port.ApplyCommit(s, id, t, parents, entries).value;
      && u == Port.Inserted(s, id, t, Elements(parents), entries).(refs := u.refs)
      && BaseOf(u) == Some(id)
  {
    var name := Port.ActiveName(s.refs).value;
    var u := Port.ApplyCommit(s, id, t, parents, entries).value;
    assert u.refs[name].active && forall n | n in u.refs && u.refs[n].active :: n == name;
    assert Port.ActiveName(u.refs) == Some(name);
  }

  lemma AfterRecord(s: Store, u: Store, id: CommitId, t: u64, base: Option<CommitId>, entries: seq<Entry>, scan: Chunks,
                    scope: Scope)
    requires Valid(s) && Valid(u) && base == BaseOf(s)
    requires var v := Port.Inserted(s, id, t, BaseSet(base), entries);
      && u == v.(refs := u.refs) && Valid(v) && id !in s.seqs
      && PresentAt(v, id) == Updated(Present(BaseState(s, base)), scan, scope)
      && forall c | c in s.seqs :: StateAt(v, c) == StateAt(s, c)
    ensures Committed(s, u, id, scan, scope)
  {
    var v := Port.Inserted(s, id, t, BaseSet(base), entries);
    RefsShowNothing(v, u.refs, id);
    forall c | c in s.seqs ensures c in u.seqs && StateAt(u, c) == StateAt(s, c) {
      RefsShowNothing(v, u.refs, c);
    }
  }
}
