/**
 Many commit runs on one store. A run plans against the active ref and records later; other
 runs may record in between. The active ref is the optimistic check that keeps the history
 a chain.
 */
module RefRace {
  import opened Base
  import opened History
  import opened Scopes
  import opened Deltas
  import opened CommitPlan
  import Port

  /** A planned run: the base it saw and the chunks present there. */
  datatype Pending = Pending(base: Option<CommitId>, state: Chunks)

  /** A recorded run: what it was planned on and what it scanned. */
  datatype Win = Win(base: Option<CommitId>, id: CommitId, scan: Chunks, scope: Scope)

  datatype System = System(store: Store, pending: map<nat, Pending>, wins: seq<Win>)

  datatype Event =
    | Plan(run: nat)
    | Record(run: nat, id: CommitId, createdAtMs: u64, entries: seq<Entry>, scan: Chunks, scope: Scope)

  /**
   A recording run writes the delta of its scan against the state it planned on; digests do not
   collide with stored commits.
   */
  ghost predicate Enabled(sys: System, e: Event) {
    e.Record? ==> (
      && e.run in sys.pending && e.id !in sys.store.seqs && InScope(e.scan, e.scope)
      && DistinctCoords(e.entries) && Delta(e.entries) == DeltaOf(sys.pending[e.run].state, e.scan, e.scope))
  }

  ghost function Next(sys: System, e: Event): System
    requires Valid(sys.store) && Enabled(sys, e)
  {
    match e
    case Plan(run) =>
      var base := BaseOf(sys.store);
      sys.(pending := sys.pending[run := Pending(base, Present(BaseState(sys.store, base)))])
    case Record(run, id, t, entries, scan, scope) =>
      var base := sys.pending[run].base;
      match Port.ApplyCommit(sys.store, id, t, ParentList(base), entries)
      case Err(_) => sys.(pending := sys.pending - {run})
      case Ok(store) => System(store, sys.pending - {run}, sys.wins + [Win(base, id, scan, scope)])
  }

  /** A run still on the current base is recorded; one that was overtaken is not, and leaves no trace. */
  lemma OvertakenIsRefused(sys: System, e: Event)
    requires Valid(sys.store) && Enabled(sys, e) && e.Record? && BaseSet(sys.pending[e.run].base) <= sys.store.seqs.Keys
    ensures e.run !in Next(sys, e).pending
    ensures Port.ActiveName(sys.store.refs).Some? && BaseOf(sys.store) == sys.pending[e.run].base ==>
      && Next(sys, e).wins == sys.wins + [Win(sys.pending[e.run].base, e.id, e.scan, e.scope)]
      && BaseOf(Next(sys, e).store) == Some(e.id)
    ensures BaseOf(sys.store).Some? && BaseOf(sys.store) != sys.pending[e.run].base ==>
      Next(sys, e).wins == sys.wins && Next(sys, e).store == sys.store
  {
    var base := sys.pending[e.run].base;
    RecordAccepted(sys.store, base, e.id, e.createdAtMs, e.entries);
    if Port.ApplyCommit(sys.store, e.id, e.createdAtMs, ParentList(base), e.entries).Ok? {
      AppliedView(sys.store, e.id, e.createdAtMs, ParentList(base), e.entries);
    }
  }

  // ----- all interleavings -----

  ghost predicate Tip(first: Option<CommitId>, wins: seq<Win>, base: Option<CommitId>) {
    base == if wins == [] then first else Some(wins[|wins| - 1].id)
  }

  /** Each recorded run continues the one before it. */
  ghost predicate Chained(first: Option<CommitId>, wins: seq<Win>) {
    forall i | 0 <= i < |wins| :: Tip(first, wins[..i], wins[i].base)
  }

  /** A recorded run is stored with its base as parent and shows its own scan over its own base. */
  ghost predicate Faithful(s: Store, w: Win)
    requires Valid(s)
  {
    && w.id in s.seqs && BaseSet(w.base) <= s.seqs.Keys && s.parents[w.id] == BaseSet(w.base)
    && PresentAt(s, w.id) == Updated(Present(BaseState(s, w.base)), w.scan, w.scope)
  }

  /** Runs that planned still know their base as it is. */
  ghost predicate Current(s: Store, p: Pending)
    requires Valid(s)
  {
    BaseSet(p.base) <= s.seqs.Keys && p.state == Present(BaseState(s, p.base))
  }

  /** No ref came or went, and only the active one names another commit. */
  predicate OnlyActiveMoved(before: map<RefName, Ref>, after: map<RefName, Ref>) {
    && after.Keys == before.Keys
    && forall n | n in before ::
         && after[n].active == before[n].active && after[n].createdAtMs == before[n].createdAtMs
         && (!before[n].active ==> after[n].commit == before[n].commit)
  }

  ghost predicate Inv(start: Store, sys: System) {
    && Valid(sys.store) && OnlyActiveMoved(start.refs, sys.store.refs)
    && (forall c :: c in start.seqs ==> c in sys.store.seqs)
    && (forall run | run in sys.pending :: Current(sys.store, sys.pending[run]))
    && (forall w | w in sys.wins :: Faithful(sys.store, w))
    && InChain(start, sys.wins, BaseOf(sys.store))
  }

  /** The recorded runs link the first target to the present one, through new commits only. */
  ghost predicate InChain(start: Store, wins: seq<Win>, target: Option<CommitId>) {
    && Chained(BaseOf(start), wins) && Tip(BaseOf(start), wins, target)
    && (forall w | w in wins :: w.id !in start.seqs)
    && forall i, j | 0 <= i < j < |wins| :: wins[i].id != wins[j].id
  }

  lemma InChainGrows(start: Store, wins: seq<Win>, target: Option<CommitId>, w: Win)
    requires InChain(start, wins, target) && w.base == target && w.id !in start.seqs
    requires forall v | v in wins :: v.id != w.id
    ensures InChain(start, wins + [w], Some(w.id))
  {
    forall i | 0 <= i < |wins| ensures wins[i].id != w.id {
      assert wins[i] in wins;
    }
  }

  /** Recording leaves every stored state as it was. */
  ghost predicate Grown(s: Store, t: Store)
    requires Valid(s) && Valid(t)
  {
    && (forall c | c in s.seqs :: c in t.seqs && StateAt(t, c) == StateAt(s, c))
    && forall c | c in s.seqs :: c in s.parents && c in t.parents && t.parents[c] == s.parents[c]
  }

  lemma GrownKeepsBase(s: Store, t: Store, base: Option<CommitId>)
    requires Valid(s) && Valid(t) && Grown(s, t) && BaseSet(base) <= s.seqs.Keys
    ensures BaseSet(base) <= t.seqs.Keys && BaseState(t, base) == BaseState(s, base)
  {
  }

  lemma GrownKeepsFaithful(s: Store, t: Store, w: Win)
    requires Valid(s) && Valid(t) && Grown(s, t) && Faithful(s, w)
    ensures Faithful(t, w)
  {
    GrownKeepsBase(s, t, w.base);
  }

  /** An accepted record, on a store where only commits ran. */
  lemma RecordIsFaithful(s: Store, base: Option<CommitId>, id: CommitId, t: u64, entries: seq<Entry>, scan: Chunks,
                         scope: Scope)
    requires Valid(s) && id !in s.seqs && BaseSet(base) <= s.seqs.Keys && base == BaseOf(s) && InScope(scan, scope)
    requires DistinctCoords(entries) && Delta(entries) == DeltaOf(Present(BaseState(s, base)), scan, scope)
    requires Port.ApplyCommit(s, id, t, ParentList(base), entries).Ok?
    ensures var u := Port.ApplyCommit(s, id, t, ParentList(base), entries).value;
      && Valid(u) && Grown(s, u) && Faithful(u, Win(base, id, scan, scope)) && BaseOf(u) == Some(id)
      && OnlyActiveMoved(s.refs, u.refs)
  {
    var u := Port.ApplyCommit(s, id, t, ParentList(base), entries).value;
    ParentsAreBase(base);
    Port.ApplyKeepsValid(s, id, t, ParentList(base), entries);
    AppliedView(s, id, t, ParentList(base), entries);
    Port.ApplyMovesActiveRef(s, id, t, ParentList(base), entries);
    CommitIsSound(s, id, t, base, entries, scan, scope);
    AfterRecord(s, u, id, t, base, entries, scan, scope);
    CommittedIsFaithful(s, u, base, id, scan, scope);
  }

  lemma CommittedIsFaithful(s: Store, u: Store, base: Option<CommitId>, id: CommitId, scan: Chunks, scope: Scope)
    requires Valid(s) && Valid(u) && Committed(s, u, id, scan, scope) && base == BaseOf(s)
    requires BaseSet(base) <= s.seqs.Keys
    requires id !in s.seqs && id in u.seqs && u.parents == s.parents[id := BaseSet(base)]
    ensures Grown(s, u) && Faithful(u, Win(base, id, scan, scope))
  {
    GrownKeepsBase(s, u, base);
  }

  lemma PlanKeepsInv(start: Store, sys: System, run: nat)
    requires Inv(start, sys)
    ensures Inv(start, Next(sys, Event.Plan(run)))
  {
    BaseIsStored(sys.store);
  }

  lemma WinKeepsInv(start: Store, sys: System, e: Event)
    requires Inv(start, sys) && Enabled(sys, e) && e.Record?
    requires Port.ApplyCommit(sys.store, e.id, e.createdAtMs, ParentList(sys.pending[e.run].base), e.entries).Ok?
    requires BaseOf(sys.store) == sys.pending[e.run].base
    ensures Inv(start, Next(sys, e))
  {
    var s, base := sys.store, sys.pending[e.run].base;
    var u := Next(sys, e).store;
    assert Current(s, sys.pending[e.run]);
    RecordIsFaithful(s, base, e.id, e.createdAtMs, e.entries, e.scan, e.scope);
    GrownKeepsInv(start, sys, u, e.run, Win(base, e.id, e.scan, e.scope));
  }

  lemma GrownKeepsInv(start: Store, sys: System, u: Store, run: nat, w: Win)
    requires Inv(start, sys) && Valid(u) && Grown(sys.store, u) && Faithful(u, w)
    requires w.base == BaseOf(sys.store) && w.id !in sys.store.seqs && BaseOf(u) == Some(w.id)
    requires OnlyActiveMoved(sys.store.refs, u.refs)
    ensures Inv(start, System(u, sys.pending - {run}, sys.wins + [w]))
  {
    var all := sys.wins + [w];
    forall r | r in sys.pending ensures Current(u, sys.pending[r]) {
      assert Current(sys.store, sys.pending[r]);
      GrownKeepsBase(sys.store, u, sys.pending[r].base);
    }
    forall v | v in sys.wins ensures Faithful(u, v) && v.id != w.id {
      assert Faithful(sys.store, v);
      GrownKeepsFaithful(sys.store, u, v);
    }
    InChainGrows(start, sys.wins, BaseOf(sys.store), w);
    assert forall v :: v in all <==> v in sys.wins || v == w;
  }

  /** While only commits run, an unborn ref means that every planned base is unborn too. */
  ghost predicate BornTogether(sys: System) {
    BaseOf(sys.store).None? ==> forall run | run in sys.pending :: sys.pending[run].base.None?
  }

  lemma StepKeepsInv(start: Store, sys: System, e: Event)
    requires Inv(start, sys) && BornTogether(sys) && Enabled(sys, e)
    ensures Inv(start, Next(sys, e)) && BornTogether(Next(sys, e))
  {
    match e
    case Plan(run) => PlanKeepsInv(start, sys, run);
    case Record(run, id, t, entries, scan, scope) =>
      var base := sys.pending[run].base;
      assert Current(sys.store, sys.pending[run]);
      RecordAccepted(sys.store, base, id, t, entries);
      if Port.ApplyCommit(sys.store, id, t, ParentList(base), entries).Ok? {
        WinKeepsInv(start, sys, e);
        RecordIsFaithful(sys.store, base, id, t, entries, scan, scope);
      }
  }

  /** `end` is reached from `sys` by some interleaving of plan and record steps. */
  ghost predicate Runs(sys: System, events: seq<Event>, end: System)
    requires Valid(sys.store)
    decreases |events|
  {
    if events == [] then end == sys
    else Enabled(sys, events[0]) && Valid(Next(sys, events[0]).store) && Runs(Next(sys, events[0]), events[1..], end)
  }

  lemma {:induction false} RunsKeepInv(start: Store, sys: System, events: seq<Event>, end: System)
    requires Inv(start, sys) && BornTogether(sys) && Runs(sys, events, end)
    ensures Inv(start, end) && BornTogether(end)
    decreases |events|
  {
    if events != [] {
      StepKeepsInv(start, sys, events[0]);
      RunsKeepInv(start, Next(sys, events[0]), events[1..], end);
    }
  }

  /**
   Over every interleaving of commit runs: the recorded commits form a chain from the ref's
   first target to its last, each shows its own scan over its own base, at most one run per
   planned base was recorded, and no other ref moved.
   */
  lemma CommitsFormOneChain(start: Store, events: seq<Event>, end: System)
    requires Valid(start) && Runs(System(start, map[], []), events, end)
    ensures Valid(end.store) && Chained(BaseOf(start), end.wins) && Tip(BaseOf(start), end.wins, BaseOf(end.store))
    ensures forall w | w in end.wins :: Faithful(end.store, w)
    ensures OnlyActiveMoved(start.refs, end.store.refs)
    ensures forall i, j | 0 <= i < j < |end.wins| :: end.wins[i].base != end.wins[j].base
  {
    BaseIsStored(start);
    RunsKeepInv(start, System(start, map[], []), events, end);
    OneWinPerBase(start, end.wins, BaseOf(end.store));
  }

  lemma OneWinPerBase(start: Store, wins: seq<Win>, target: Option<CommitId>)
    requires InChain(start, wins, target) && BaseSet(BaseOf(start)) <= start.seqs.Keys
    ensures forall i, j | 0 <= i < j < |wins| :: wins[i].base != wins[j].base
  {
    forall i | 0 <= i < |wins| ensures BaseOf(start) != Some(wins[i].id) {
      assert wins[i] in wins;
    }
    forall i, j | 0 <= i < j < |wins| ensures wins[i].base != wins[j].base {}
  }
}
