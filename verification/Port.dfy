/** The operations of the metadata port, as steps of the relational store. */
module Port {
  import opened Base
  import opened Ancestry
  import opened History
  import opened Retire

  // ----- recording a commit -----

  function RowsFor(id: CommitId, entries: seq<Entry>): set<Row> {
    set e | e in entries :: Row(e.coord, id, e.blob)
  }

  /** Add a commit and its rows at the end of the local order; an identifier already stored changes nothing. */
  function Inserted(s: Store, id: CommitId, createdAtMs: u64, parents: set<CommitId>, entries: seq<Entry>): Store {
    if id in s.seqs then s else
      Store(
        s.times[id := createdAtMs],
        s.parents[id := parents],
        s.seqs[id := s.nextSeq + 1],
        s.nextSeq + 1,
        s.rows + RowsFor(id, entries),
        s.refs)
  }

  /** The commit is stored with these parents and this time. */
  predicate StoredAs(s: Store, id: CommitId, parents: set<CommitId>, createdAtMs: u64) {
    id in s.parents && s.parents[id] == parents && id in s.times && s.times[id] == createdAtMs
  }

  /** A new commit comes last, with its time, parents and rows. Nothing else changes; a known one changes nothing. */
  lemma InsertRecords(s: Store, id: CommitId, t: u64, parents: set<CommitId>, entries: seq<Entry>)
    requires Valid(s)
    ensures var u := Inserted(s, id, t, parents, entries);
      if id in s.seqs then u == s else
        && u.seqs.Keys == s.seqs.Keys + {id} && u.times[id] == t && u.parents[id] == parents && u.refs == s.refs
        && (forall c | c in s.seqs :: u.seqs[c] == s.seqs[c] < u.seqs[id] <= u.nextSeq && u.times[c] == s.times[c])
        && (forall c | c != id :: ParentsOf(u.parents, c) == ParentsOf(s.parents, c))
        && (forall r: Row | r.commit != id :: r in u.rows <==> r in s.rows)
        && forall r: Row | r.commit == id :: r in u.rows <==> Entry(r.coord, r.blob) in entries
  {
    var u := Inserted(s, id, t, parents, entries);
    if id !in s.seqs {
      forall r: Row | r.commit == id ensures r in u.rows <==> Entry(r.coord, r.blob) in entries {
        assert r in s.rows ==> r.commit in s.seqs;
      }
    }
  }

  function FirstUnknown(known: set<CommitId>, ids: seq<CommitId>): Option<CommitId> {
    if ids == [] then None else if ids[0] !in known then Some(ids[0]) else FirstUnknown(known, ids[1..])
  }

  /** `id` is not known, and everything listed before it is. */
  predicate FirstOutside(known: set<CommitId>, ids: seq<CommitId>, id: CommitId) {
    exists i | 0 <= i < |ids| :: ids[i] == id && id !in known && forall j | 0 <= j < i :: ids[j] in known
  }

  lemma {:induction false} FirstUnknownFinds(known: set<CommitId>, ids: seq<CommitId>)
    ensures FirstUnknown(known, ids).None? <==> Elements(ids) <= known
    ensures FirstUnknown(known, ids).Some? ==> FirstOutside(known, ids, FirstUnknown(known, ids).value)
  {
    if ids != [] && ids[0] in known {
      FirstUnknownFinds(known, ids[1..]);
      assert ids == [ids[0]] + ids[1..];
      forall x ensures x in Elements(ids) <==> x == ids[0] || x in Elements(ids[1..]) {}
    }
  }

  function CreateCommit(s: Store, id: CommitId, createdAtMs: u64, parents: seq<CommitId>): Result<Store, MetaError> {
    match FirstUnknown(s.seqs.Keys, parents)
    case Some(p) => Err(UnknownParent(p))
    case None => Ok(Inserted(s, id, createdAtMs, Elements(parents), []))
  }

  ghost function ActiveName(refs: map<RefName, Ref>): Option<RefName> {
    if exists n :: n in refs && refs[n].active then
      var n :| n in refs && refs[n].active;
      Some(n)
    else None
  }

  /** Record a commit and move the active ref onto it; a born ref only moves along its own history. */
  ghost function ApplyCommit(s: Store, id: CommitId, createdAtMs: u64, parents: seq<CommitId>, entries: seq<Entry>)
    : Result<Store, MetaError>
  {
    match ActiveName(s.refs)
    case None => Err(NoActiveRef)
    case Some(name) =>
      var target := s.refs[name].commit;
      if target.Some? && target.value !in parents then Err(NotContinuing(target.value)) else
      match FirstUnknown(s.seqs.Keys, parents)
      case Some(p) => Err(UnknownParent(p))
      case None =>
        var t := Inserted(s, id, createdAtMs, Elements(parents), entries);
        Ok(t.(refs := s.refs[name := s.refs[name].(commit := Some(id))]))
  }

  /** The active ref names `id` and keeps its flag and time; every other ref is as it was. */
  predicate ActiveMoves(before: map<RefName, Ref>, after: map<RefName, Ref>, id: CommitId) {
    && after.Keys == before.Keys
    && forall n | n in before ::
         if before[n].active then after[n] == Ref(Some(id), true, before[n].createdAtMs) else after[n] == before[n]
  }

  /** An accepted record moves the active ref alone. */
  lemma ApplyMovesActiveRef(s: Store, id: CommitId, t: u64, parents: seq<CommitId>, entries: seq<Entry>)
    requires Valid(s) && ApplyCommit(s, id, t, parents, entries).Ok?
    ensures ActiveMoves(s.refs, ApplyCommit(s, id, t, parents, entries).value.refs, id)
  {
  }

  /** When a record is accepted, and how each refusal comes about. */
  lemma ApplyIsChecked(s: Store, id: CommitId, t: u64, parents: seq<CommitId>, entries: seq<Entry>)
    requires Valid(s)
    ensures ApplyCommit(s, id, t, parents, entries).Ok? <==>
      && (exists n :: n in s.refs && s.refs[n].active && (s.refs[n].commit.Some? ==> s.refs[n].commit.value in parents))
      && forall p | p in parents :: p in s.seqs
    ensures ApplyCommit(s, id, t, parents, entries) == Err(NoActiveRef) <==>
      forall n | n in s.refs :: !s.refs[n].active
    ensures forall b :: ApplyCommit(s, id, t, parents, entries) == Err(NotContinuing(b)) <==>
      b !in parents && exists n :: n in s.refs && s.refs[n].active && s.refs[n].commit == Some(b)
    ensures ApplyCommit(s, id, t, parents, entries).Err? && ApplyCommit(s, id, t, parents, entries).error.UnknownParent?
      ==> FirstOutside(s.seqs.Keys, parents, ApplyCommit(s, id, t, parents, entries).error.id)
  {
    FirstUnknownFinds(s.seqs.Keys, parents);
  }

  ghost function RetireCommit(s: Store, from: CommitId, into: CommitId): Result<Store, MetaError>
    requires Keyed(s)
  {
    if Retirable(s, from, into) then Ok(Retired(s, from, into)) else Err(InvalidRetirement(from, into))
  }

  // ----- refs -----

  function SetRef(s: Store, name: RefName, commit: Option<CommitId>, createdAtMs: u64): Result<Store, MetaError> {
    if commit.Some? && commit.value !in s.seqs then Err(UnknownCommit(commit.value))
    else if name in s.refs then Ok(s.(refs := s.refs[name := s.refs[name].(commit := commit)]))
    else Ok(s.(refs := s.refs[name := Ref(commit, false, createdAtMs)]))
  }

  /** Removing a missing ref is not an error: the store is as it was. */
  function DeleteRef(s: Store, name: RefName): Result<Store, MetaError> {
    if name in s.refs && s.refs[name].active then Err(ActiveRefProtected(name)) else Ok(s.(refs := s.refs - {name}))
  }

  function ActivateRef(s: Store, name: RefName): Result<Store, MetaError> {
    if name !in s.refs then Err(UnknownRef(name))
    else if s.refs[name].commit.Some? && s.refs[name].commit.value !in s.seqs then
      Err(UnknownCommit(s.refs[name].commit.value))
    else Ok(s.(refs := map n | n in s.refs :: s.refs[n].(active := n == name)))
  }

  /** The named ref names `commit`; an existing one keeps flag and time, a new one starts inactive. */
  predicate RefIsSet(before: map<RefName, Ref>, after: map<RefName, Ref>, name: RefName, commit: Option<CommitId>,
                     createdAtMs: u64)
  {
    && after.Keys == before.Keys + {name}
    && (name in before ==> after[name] == Ref(commit, before[name].active, before[name].createdAtMs))
    && (name !in before ==> after[name] == Ref(commit, false, createdAtMs))
    && forall n | n in before && n != name :: after[n] == before[n]
  }

  predicate RefIsGone(before: map<RefName, Ref>, after: map<RefName, Ref>, name: RefName) {
    after.Keys == before.Keys - {name} && forall n | n in after :: after[n] == before[n]
  }

  /** Only the flags change, and only the named one is set. */
  predicate OnlyActive(before: map<RefName, Ref>, after: map<RefName, Ref>, name: RefName) {
    && after.Keys == before.Keys
    && forall n | n in before :: after[n] == Ref(before[n].commit, n == name, before[n].createdAtMs)
  }

  /** Each ref operation changes the ref it names as asked, and no other; when it is refused. */
  lemma RefsChangeAsAsked(s: Store, name: RefName, commit: Option<CommitId>, t: u64)
    ensures SetRef(s, name, commit, t).Ok? <==> commit.None? || commit.value in s.seqs
    ensures DeleteRef(s, name).Ok? <==> name !in s.refs || !s.refs[name].active
    ensures ActivateRef(s, name).Ok? <==>
      name in s.refs && (s.refs[name].commit.None? || s.refs[name].commit.value in s.seqs)
    ensures SetRef(s, name, commit, t).Ok? ==> RefIsSet(s.refs, SetRef(s, name, commit, t).value.refs, name, commit, t)
    ensures DeleteRef(s, name).Ok? ==> RefIsGone(s.refs, DeleteRef(s, name).value.refs, name)
    ensures ActivateRef(s, name).Ok? ==> OnlyActive(s.refs, ActivateRef(s, name).value.refs, name)
  {
  }

  // ----- runs -----

  datatype Op =
    | Create(id: CommitId, createdAtMs: u64, parents: seq<CommitId>)
    | Apply(id: CommitId, createdAtMs: u64, parents: seq<CommitId>, entries: seq<Entry>)
    | RetireInto(from: CommitId, into: CommitId)
    | MoveRef(name: RefName, commit: Option<CommitId>, createdAtMs: u64)
    | DropRef(name: RefName)
    | SwitchRef(name: RefName)

  ghost function Outcome(s: Store, op: Op): Result<Store, MetaError>
    requires Keyed(s)
  {
    match op
    case Create(id, t, parents) => CreateCommit(s, id, t, parents)
    case Apply(id, t, parents, entries) => ApplyCommit(s, id, t, parents, entries)
    case RetireInto(from, into) => RetireCommit(s, from, into)
    case MoveRef(name, commit, t) => SetRef(s, name, commit, t)
    case DropRef(name) => DeleteRef(s, name)
    case SwitchRef(name) => ActivateRef(s, name)
  }

  /** A refused operation leaves the store as it was. */
  ghost function Step(s: Store, op: Op): Store
    requires Keyed(s)
  {
    match Outcome(s, op)
    case Ok(t) => t
    case Err(_) => s
  }

  ghost predicate WellFormed(op: Op) {
    op.Apply? ==> DistinctCoords(op.entries)
  }

  /** `t` is reached from `s` by the operations, refused ones included. */
  ghost predicate Reaches(s: Store, ops: seq<Op>, t: Store)
    requires Keyed(s)
    decreases |ops|
  {
    if ops == [] then s == t
    else Keyed(Step(s, ops[0])) && Reaches(Step(s, ops[0]), ops[1..], t)
  }

  /** A store as it is created: one active ref, unborn. */
  function Fresh(name: RefName): Store {
    Store(map[], map[], map[], 0, {}, map[name := Ref(None, true, 0)])
  }

  ghost predicate OneActive(s: Store) {
    exists n :: n in s.refs && s.refs[n].active
  }

  lemma InsertKeepsSequenced(s: Store, id: CommitId, t: u64, parents: set<CommitId>, entries: seq<Entry>)
    requires Sequenced(s) && parents <= s.seqs.Keys && id !in s.seqs
    ensures Sequenced(Inserted(s, id, t, parents, entries))
  {
  }

  lemma InsertKeepsValid(s: Store, id: CommitId, t: u64, parents: set<CommitId>, entries: seq<Entry>)
    requires Valid(s) && parents <= s.seqs.Keys && DistinctCoords(entries)
    ensures Valid(Inserted(s, id, t, parents, entries))
  {
    if id !in s.seqs {
      InsertKeepsSequenced(s, id, t, parents, entries);
    }
  }

  lemma ApplyKeepsValid(s: Store, id: CommitId, t: u64, parents: seq<CommitId>, entries: seq<Entry>)
    requires Valid(s) && DistinctCoords(entries) && ApplyCommit(s, id, t, parents, entries).Ok?
    ensures Valid(ApplyCommit(s, id, t, parents, entries).value)
    ensures OneActive(ApplyCommit(s, id, t, parents, entries).value)
  {
    FirstUnknownFinds(s.seqs.Keys, parents);
    var v := Inserted(s, id, t, Elements(parents), entries);
    InsertKeepsValid(s, id, t, Elements(parents), entries);
    var name := ActiveName(s.refs).value;
    var u := ApplyCommit(s, id, t, parents, entries).value;
    BoundRefsStay(v, u.refs);
    assert name in u.refs && u.refs[name].active;
  }

  /** Changing refs only needs the refs checked. */
  lemma BoundRefsStay(s: Store, refs: map<RefName, Ref>)
    requires Valid(s) && RefsBound(s.(refs := refs))
    ensures Valid(s.(refs := refs))
  {
  }

  lemma MovedRefIsBound(s: Store, name: RefName, commit: Option<CommitId>, t: u64)
    requires Valid(s) && SetRef(s, name, commit, t).Ok?
    ensures Valid(SetRef(s, name, commit, t).value)
  {
    BoundRefsStay(s, SetRef(s, name, commit, t).value.refs);
  }

  lemma MoveRefKeepsInvariant(s: Store, name: RefName, commit: Option<CommitId>, t: u64)
    requires Valid(s) && OneActive(s) && SetRef(s, name, commit, t).Ok?
    ensures Valid(SetRef(s, name, commit, t).value) && OneActive(SetRef(s, name, commit, t).value)
  {
    var n :| n in s.refs && s.refs[n].active;
    var u := SetRef(s, name, commit, t).value;
    assert n in u.refs && u.refs[n].active;
    MovedRefIsBound(s, name, commit, t);
  }

  lemma DropRefKeepsInvariant(s: Store, name: RefName)
    requires Valid(s) && OneActive(s) && DeleteRef(s, name).Ok?
    ensures Valid(DeleteRef(s, name).value) && OneActive(DeleteRef(s, name).value)
  {
    var n :| n in s.refs && s.refs[n].active;
    var u := DeleteRef(s, name).value;
    assert n in u.refs && u.refs[n].active;
    BoundRefsStay(s, u.refs);
  }

  lemma SwitchRefKeepsInvariant(s: Store, name: RefName)
    requires Valid(s) && ActivateRef(s, name).Ok?
    ensures Valid(ActivateRef(s, name).value) && OneActive(ActivateRef(s, name).value)
  {
    var u := ActivateRef(s, name).value;
    assert name in u.refs && u.refs[name].active;
    BoundRefsStay(s, u.refs);
  }

  lemma RetireStepKeepsInvariant(s: Store, from: CommitId, into: CommitId)
    requires Valid(s) && OneActive(s)
    ensures Valid(Step(s, RetireInto(from, into))) && OneActive(Step(s, RetireInto(from, into)))
  {
    if Retirable(s, from, into) {
      RetireKeepsValid(s, from, into);
      var n :| n in s.refs && s.refs[n].active;
      assert n in Retired(s, from, into).refs && Retired(s, from, into).refs[n].active;
    }
  }

  lemma CreateStepKeepsInvariant(s: Store, id: CommitId, t: u64, parents: seq<CommitId>)
    requires Valid(s) && OneActive(s)
    ensures Valid(Step(s, Create(id, t, parents))) && OneActive(Step(s, Create(id, t, parents)))
  {
    FirstUnknownFinds(s.seqs.Keys, parents);
    if CreateCommit(s, id, t, parents).Ok? {
      InsertKeepsValid(s, id, t, Elements(parents), []);
      assert Step(s, Create(id, t, parents)).refs == s.refs;
    }
  }

  /** Every operation keeps the store invariant and the single active ref. */
  lemma StepKeepsInvariant(s: Store, op: Op)
    requires Valid(s) && OneActive(s) && WellFormed(op)
    ensures Valid(Step(s, op)) && OneActive(Step(s, op))
  {
    match op
    case Create(id, t, parents) => CreateStepKeepsInvariant(s, id, t, parents);
    case Apply(id, t, parents, entries) =>
      if ApplyCommit(s, id, t, parents, entries).Ok? {
        ApplyKeepsValid(s, id, t, parents, entries);
      }
    case RetireInto(from, into) => RetireStepKeepsInvariant(s, from, into);
    case MoveRef(name, commit, t) => if SetRef(s, name, commit, t).Ok? { MoveRefKeepsInvariant(s, name, commit, t); }
    case DropRef(name) => if DeleteRef(s, name).Ok? { DropRefKeepsInvariant(s, name); }
    case SwitchRef(name) => if ActivateRef(s, name).Ok? { SwitchRefKeepsInvariant(s, name); }
  }

  /**
   Over every run from a fresh store: sequences distinct, parents stored with a smaller
   sequence, one row per commit and coordinate, refs on stored commits, exactly one active.
   */
  lemma {:induction false} RunsKeepInvariant(s: Store, ops: seq<Op>, t: Store)
    requires Valid(s) && OneActive(s) && (forall op | op in ops :: WellFormed(op)) && Reaches(s, ops, t)
    ensures Valid(t) && OneActive(t)
    decreases |ops|
  {
    if ops != [] {
      StepKeepsInvariant(s, ops[0]);
      RunsKeepInvariant(Step(s, ops[0]), ops[1..], t);
    }
  }

  /** Commits as the program records them: a root, or one parent. */
  predicate SingleParent(op: Op) {
    op.Create? || op.Apply? ==> |op.parents| <= 1
  }

  lemma InsertKeepsForest(s: Store, id: CommitId, t: u64, parents: seq<CommitId>, entries: seq<Entry>)
    requires Forest(s.parents) && |parents| <= 1
    ensures Forest(Inserted(s, id, t, Elements(parents), entries).parents)
  {
    forall p, q | p in Elements(parents) && q in Elements(parents) ensures p == q {}
  }

  /** Recording with at most one parent, retiring and moving refs all keep the history a forest. */
  lemma StepKeepsForest(s: Store, op: Op)
    requires Valid(s) && Forest(s.parents) && SingleParent(op)
    ensures Forest(Step(s, op).parents)
  {
    match op
    case Create(id, t, parents) => InsertKeepsForest(s, id, t, parents, []);
    case Apply(id, t, parents, entries) => InsertKeepsForest(s, id, t, parents, entries);
    case RetireInto(from, into) => ContractKeepsForest(s.parents, from);
    case MoveRef(_, _, _) =>
    case DropRef(_) =>
    case SwitchRef(_) =>
  }

  /** So every history the program can reach is a forest. */
  lemma {:induction false} RunsKeepForest(s: Store, ops: seq<Op>, t: Store)
    requires Valid(s) && OneActive(s) && Forest(s.parents) && Reaches(s, ops, t)
    requires forall op | op in ops :: WellFormed(op) && SingleParent(op)
    ensures Forest(t.parents)
    decreases |ops|
  {
    if ops != [] {
      StepKeepsInvariant(s, ops[0]);
      StepKeepsForest(s, ops[0]);
      RunsKeepForest(Step(s, ops[0]), ops[1..], t);
    }
  }

  lemma FreshIsValid(name: RefName)
    ensures Valid(Fresh(name)) && OneActive(Fresh(name))
  {
    assert name in Fresh(name).refs && Fresh(name).refs[name].active;
  }

  /** A store some run of well-formed operations leads to. */
  ghost predicate Reachable(s: Store) {
    exists name, ops :: (forall op | op in ops :: WellFormed(op)) && Reaches(Fresh(name), ops, s)
  }

  lemma ReachableIsValid(s: Store)
    requires Reachable(s)
    ensures Valid(s) && OneActive(s)
  {
    var name, ops :| (forall op | op in ops :: WellFormed(op)) && Reaches(Fresh(name), ops, s);
    FreshIsValid(name);
    RunsKeepInvariant(Fresh(name), ops, s);
  }

  lemma {:induction false} ReachesOneMore(s: Store, ops: seq<Op>, t: Store, op: Op)
    requires Valid(s) && OneActive(s) && (forall o | o in ops :: WellFormed(o)) && WellFormed(op)
    requires Reaches(s, ops, t) && Keyed(t)
    ensures Reaches(s, ops + [op], Step(t, op))
    decreases |ops|
  {
    if ops == [] {
      StepKeepsInvariant(s, op);
      assert ([] + [op])[1..] == [];
    } else {
      StepKeepsInvariant(s, ops[0]);
      ReachesOneMore(Step(s, ops[0]), ops[1..], t, op);
      assert (ops + [op])[1..] == ops[1..] + [op];
    }
  }

  lemma StepIsReachable(s: Store, op: Op)
    requires Reachable(s) && WellFormed(op)
    ensures Keyed(s) && Reachable(Step(s, op))
  {
    ReachableIsValid(s);
    var name, ops :| (forall o | o in ops :: WellFormed(o)) && Reaches(Fresh(name), ops, s);
    FreshIsValid(name);
    ReachesOneMore(Fresh(name), ops, s, op);
  }

  // ----- what a new commit shows -----

  /** Everything a list of parents hands down. */
  ghost function Inherited(g: Graph, parents: set<CommitId>): set<CommitId> {
    set p, a | p in parents && a in Line(g, p) :: a
  }

  /** Lines of stored commits are untouched by a new commit. */
  lemma InsertKeepsLines(s: Store, id: CommitId, t: u64, parents: set<CommitId>, entries: seq<Entry>, c: CommitId)
    requires Valid(s) && parents <= s.seqs.Keys && DistinctCoords(entries) && id !in s.seqs && c in s.seqs
    ensures Line(Inserted(s, id, t, parents, entries).parents, c) == Line(s.parents, c)
  {
    var h := Inserted(s, id, t, parents, entries).parents;
    LineIsStored(s.parents, s.seqs, c);
    AncestorsClosed(s.parents, c);
    ClosedHoldsAncestors(h, Ancestors(s.parents, c), c);
    InsertKeepsValid(s, id, t, parents, entries);
    LineIsStored(h, Inserted(s, id, t, parents, entries).seqs, c);
    AncestorsClosed(h, c);
    ClosedHoldsAncestors(s.parents, Ancestors(h, c), c);
  }

  lemma AncestorsClosed(g: Graph, c: CommitId)
    ensures ParentsOf(g, c) <= Ancestors(g, c)
    ensures forall b | b in Ancestors(g, c) :: ParentsOf(g, b) <= Ancestors(g, c)
  {
    forall p | p in ParentsOf(g, c) ensures p in Ancestors(g, c) {
      ParentIsAncestor(g, c, p);
      AncestorsAreReached(g, c, p);
    }
    forall b, p | b in Ancestors(g, c) && p in ParentsOf(g, b) ensures p in Ancestors(g, c) {
      ParentIsAncestor(g, b, p);
      DescendsTransitive(g, c, b, p);
      AncestorsAreReached(g, c, p);
    }
  }

  /** Recording a commit changes no other commit's state. */
  lemma InsertKeepsStates(s: Store, id: CommitId, t: u64, parents: set<CommitId>, entries: seq<Entry>, c: CommitId)
    requires Valid(s) && parents <= s.seqs.Keys && DistinctCoords(entries) && c in s.seqs
    ensures Valid(Inserted(s, id, t, parents, entries))
    ensures StateAt(Inserted(s, id, t, parents, entries), c) == StateAt(s, c)
  {
    InsertKeepsValid(s, id, t, parents, entries);
    if id !in s.seqs {
      InsertKeepsLines(s, id, t, parents, entries, c);
      LineIsStored(s.parents, s.seqs, c);
      ShownIsLocal(s, Inserted(s, id, t, parents, entries), Line(s.parents, c));
    }
  }

  lemma NewLine(s: Store, id: CommitId, t: u64, parents: set<CommitId>, entries: seq<Entry>)
    requires Valid(s) && parents <= s.seqs.Keys && DistinctCoords(entries) && id !in s.seqs
    ensures Line(Inserted(s, id, t, parents, entries).parents, id) == {id} + Inherited(s.parents, parents)
    ensures Inherited(s.parents, parents) <= s.seqs.Keys
  {
    var h := Inserted(s, id, t, parents, entries).parents;
    forall p | p in parents ensures Line(h, p) == Line(s.parents, p) && Line(s.parents, p) <= s.seqs.Keys {
      InsertKeepsLines(s, id, t, parents, entries, p);
      LineIsStored(s.parents, s.seqs, p);
    }
    forall a ensures a in Ancestors(h, id) <==> a in Inherited(s.parents, parents) {
      DescendsUnfold(h, id, a);
      AncestorsAreReached(h, id, a);
      forall p | p in parents ensures a in Line(h, p) <==> p == a || Descends(h, p, a) {
        AncestorsAreReached(h, p, a);
      }
    }
  }

  /** On the new line the new rows win, and the rows below win wherever the delta is silent. */
  lemma NewRowsWin(s: Store, u: Store, id: CommitId, below: set<CommitId>, entries: seq<Entry>)
    requires Valid(s) && Valid(u) && DistinctCoords(entries) && id !in s.seqs && below <= s.seqs.Keys
    requires id in u.seqs && u.seqs[id] == s.nextSeq + 1 && u.rows == s.rows + RowsFor(id, entries)
    requires forall c | c in s.seqs :: c in u.seqs && u.seqs[c] == s.seqs[c]
    ensures forall e | e in entries :: Wins(u, {id} + below, Row(e.coord, id, e.blob))
    ensures forall r: Row | r.coord !in Delta(entries) :: Wins(u, {id} + below, r) <==> Wins(s, below, r)
  {
    forall e | e in entries ensures Wins(u, {id} + below, Row(e.coord, id, e.blob)) {
      assert Row(e.coord, id, e.blob) in RowsFor(id, entries);
    }
    forall r: Row | r.coord !in Delta(entries) ensures Wins(u, {id} + below, r) <==> Wins(s, below, r) {
      forall o: Row | o.coord == r.coord && o.commit in {id} + below
        ensures o in u.rows <==> o in s.rows && o.commit in below {}
    }
  }

  /** The new commit shows what its parents hand down, overridden by its own rows. */
  lemma InsertShowsDelta(s: Store, id: CommitId, t: u64, parents: set<CommitId>, entries: seq<Entry>)
    requires Valid(s) && parents <= s.seqs.Keys && DistinctCoords(entries) && id !in s.seqs
    ensures Valid(Inserted(s, id, t, parents, entries))
    ensures StateAt(Inserted(s, id, t, parents, entries), id)
         == Shown(s, Inherited(s.parents, parents)) + Delta(entries)
  {
    var u := Inserted(s, id, t, parents, entries);
    var below := Inherited(s.parents, parents);
    InsertKeepsValid(s, id, t, parents, entries);
    NewLine(s, id, t, parents, entries);
    NewRowsWin(s, u, id, below, entries);
    OverlayShows(s, u, id, below, entries);
  }

  lemma OverlayShows(s: Store, u: Store, id: CommitId, below: set<CommitId>, entries: seq<Entry>)
    requires Valid(s) && Valid(u) && DistinctCoords(entries)
    requires forall e | e in entries :: Wins(u, {id} + below, Row(e.coord, id, e.blob))
    requires forall r: Row | r.coord !in Delta(entries) :: Wins(u, {id} + below, r) <==> Wins(s, below, r)
    ensures Shown(u, {id} + below) == Shown(s, below) + Delta(entries)
  {
    forall p ensures AgreeAt(Shown(u, {id} + below), Shown(s, below) + Delta(entries), p) {
      if p in Delta(entries) {
        DeltaShows(u, id, below, entries, p);
      } else {
        SilenceShows(s, u, {id} + below, below, p);
      }
    }
    MapsAgree(Shown(u, {id} + below), Shown(s, below) + Delta(entries));
  }

  lemma SilenceShows(s: Store, u: Store, line: set<CommitId>, below: set<CommitId>, p: Coord)
    requires Valid(s) && Valid(u)
    requires forall r: Row | r.coord == p :: Wins(u, line, r) <==> Wins(s, below, r)
    ensures AgreeAt(Shown(u, line), Shown(s, below), p)
  {
    if p in Shown(u, line) {
      var w := ShownHasWinner(u, line, p);
      WinnerIsShown(s, below, w);
    }
    if p in Shown(s, below) {
      var w := ShownHasWinner(s, below, p);
      WinnerIsShown(u, line, w);
    }
  }

  lemma DeltaShows(u: Store, id: CommitId, below: set<CommitId>, entries: seq<Entry>, p: Coord)
    requires Valid(u) && DistinctCoords(entries) && p in Delta(entries)
    requires forall e | e in entries :: Wins(u, {id} + below, Row(e.coord, id, e.blob))
    ensures p in Shown(u, {id} + below) && Shown(u, {id} + below)[p] == Delta(entries)[p]
  {
    var e :| e in entries && e.coord == p;
    WinnerIsShown(u, {id} + below, Row(e.coord, id, e.blob));
  }

  // ----- the SQL form of inserting a commit -----

  /** SQLite inserts the edges even when the commit row is already there. */
  function SqlInserted(s: Store, id: CommitId, createdAtMs: u64, parents: set<CommitId>): Store {
    if id in s.seqs then
      s.(parents := s.parents[id := (if id in s.parents then s.parents[id] else {}) + parents])
    else Inserted(s, id, createdAtMs, parents, [])
  }

  /** Edges already there stay, the named ones are added, and only they: every other part is as in memory. */
  lemma SqlInsertAddsEdges(s: Store, id: CommitId, t: u64, parents: set<CommitId>, c: CommitId)
    requires Valid(s)
    ensures var u := SqlInserted(s, id, t, parents);
      && u.(parents := map[]) == Inserted(s, id, t, parents, []).(parents := map[])
      && ParentsOf(u.parents, c) == ParentsOf(s.parents, c) + if c == id then parents else {}
  {
  }

  /**
   The re-inserted edges keep "parents come first" exactly when the commit is new or newer than
   every named parent.
   */
  lemma SqlInsertKeepsOrder(s: Store, id: CommitId, t: u64, parents: set<CommitId>)
    requires Valid(s) && parents <= s.seqs.Keys
    ensures Ordered(SqlInserted(s, id, t, parents).parents, SqlInserted(s, id, t, parents).seqs)
      <==> id !in s.seqs || forall p | p in parents :: s.seqs[p] < s.seqs[id]
  {
    var u := SqlInserted(s, id, t, parents);
    if id in s.seqs {
      assert forall p | p in parents :: p in u.parents[id];
    }
  }
}
