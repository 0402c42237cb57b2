/**
 Durability order of commits. Ingest workers put blobs and sync before they finish, the run
 joins them, syncs the store once more and only then records rows. A crash at any point
 keeps what is durable and may lose anything else.

 What a put and a sync make durable is up to the blob store. The shipped one is durable at
 every put; the interface also admits stores that batch writes until a sync.
 */
module CrashOrder {
  import opened Base

  /** Durable at every put; or at a sync, which covers the whole store or only the syncing worker's writes. */
  datatype Backend = SyncedPuts | SharedBarrier | OwnBarrier

  /**
   One ingest worker: blobs still to put, blobs it put or found, its own writes not synced
   yet, and blobs it leans on: found stored, written by someone else and not durable then.
   */
  datatype Worker = Worker(
    todo: seq<ChunkHash>, staged: set<ChunkHash>, unsynced: set<ChunkHash>, leaned: set<ChunkHash>, finished: bool)

  datatype Run =
    | Ingesting(workers: seq<Worker>)
    | Joined(staged: set<ChunkHash>, leaned: set<ChunkHash>)
    | Flushed(staged: set<ChunkHash>)

  /** `stray` are unsynced writes of runs that gave up. */
  datatype System = System(
    backend: Backend, stored: set<ChunkHash>, durable: set<ChunkHash>, stray: set<ChunkHash>, named: set<ChunkHash>,
    runs: map<nat, Run>)

  datatype Event =
    | Start(run: nat, groups: seq<seq<ChunkHash>>)
    | Put(run: nat, worker: nat)
    | WorkerSync(run: nat, worker: nat)
    | Join(run: nat)
    | FinalSync(run: nat)
    | Record(run: nat, rows: set<ChunkHash>)
    | GiveUp(run: nat)
    | Crash(kept: set<ChunkHash>)

  function Hired(groups: seq<seq<ChunkHash>>): seq<Worker> {
    seq(|groups|, i requires 0 <= i < |groups| => Worker(groups[i], {}, {}, {}, false))
  }

  function StagedBy(workers: seq<Worker>): set<ChunkHash> {
    if workers == [] then {} else StagedBy(workers[..|workers| - 1]) + workers[|workers| - 1].staged
  }

  function UnsyncedBy(workers: seq<Worker>): set<ChunkHash> {
    if workers == [] then {} else UnsyncedBy(workers[..|workers| - 1]) + workers[|workers| - 1].unsynced
  }

  function LeanedBy(workers: seq<Worker>): set<ChunkHash> {
    if workers == [] then {} else LeanedBy(workers[..|workers| - 1]) + workers[|workers| - 1].leaned
  }

  predicate Works(sys: System, run: nat, worker: nat) {
    && run in sys.runs && sys.runs[run].Ingesting?
    && worker < |sys.runs[run].workers| && !sys.runs[run].workers[worker].finished
  }

  ghost predicate Enabled(sys: System, e: Event) {
    match e
    case Start(run, _) => run !in sys.runs
    case Put(run, w) => Works(sys, run, w) && sys.runs[run].workers[w].todo != []
    case WorkerSync(run, w) => Works(sys, run, w) && sys.runs[run].workers[w].todo == []
    case Join(run) =>
      && run in sys.runs && sys.runs[run].Ingesting?
      && forall w | 0 <= w < |sys.runs[run].workers| :: sys.runs[run].workers[w].finished
    case FinalSync(run) => run in sys.runs && sys.runs[run].Joined?
    case Record(run, rows) => run in sys.runs && sys.runs[run].Flushed? && rows <= sys.runs[run].staged
    case GiveUp(run) => run in sys.runs
    case Crash(kept) => sys.durable <= kept <= sys.stored
  }

  /** A put of a stored blob is deduplicated: it writes nothing and leaves nothing to sync. */
  function AfterPut(w: Worker, sys: System): Worker
    requires w.todo != []
  {
    var h := w.todo[0];
    Worker(
      w.todo[1..],
      w.staged + {h},
      if h in sys.stored || sys.backend.SyncedPuts? then w.unsynced else w.unsynced + {h},
      if h in sys.stored && h !in sys.durable && h !in w.unsynced then w.leaned + {h} else w.leaned,
      false)
  }

  function Settle(w: Worker): Worker {
    Worker([], w.staged, {}, w.leaned, true)
  }

  function SetWorker(sys: System, run: nat, i: nat, w: Worker): map<nat, Run>
    requires Works(sys, run, i)
  {
    sys.runs[run := Ingesting(sys.runs[run].workers[i := w])]
  }

  function LeftBehind(r: Run): set<ChunkHash> {
    if r.Ingesting? then UnsyncedBy(r.workers) else {}
  }

  function Next(sys: System, e: Event): System
    requires Enabled(sys, e)
  {
    match e
    case Start(run, groups) => sys.(runs := sys.runs[run := Ingesting(Hired(groups))])
    case Put(run, i) =>
      var w := sys.runs[run].workers[i];
      sys.(
        stored := sys.stored + {w.todo[0]},
        durable := if sys.backend.SyncedPuts? then sys.durable + {w.todo[0]} else sys.durable,
        runs := SetWorker(sys, run, i, AfterPut(w, sys)))
    case WorkerSync(run, i) =>
      var w := sys.runs[run].workers[i];
      sys.(
        durable := if sys.backend.OwnBarrier? then sys.durable + w.unsynced else sys.stored,
        runs := SetWorker(sys, run, i, Settle(w)))
    case Join(run) =>
      var workers := sys.runs[run].workers;
      sys.(runs := sys.runs[run := Joined(StagedBy(workers), LeanedBy(workers))])
    case FinalSync(run) => sys.(durable := sys.stored, runs := sys.runs[run := Flushed(sys.runs[run].staged)])
    case Record(run, rows) => sys.(named := sys.named + rows, runs := sys.runs - {run})
    case GiveUp(run) => sys.(stray := sys.stray + LeftBehind(sys.runs[run]), runs := sys.runs - {run})
    case Crash(kept) => System(sys.backend, kept, kept, {}, sys.named, map[])
  }

  // ----- what a run has put -----

  /** Put so far, and still to put. */
  function AssignedTo(w: Worker): set<ChunkHash> {
    w.staged + set h | h in w.todo
  }

  /** Every blob these groups name. */
  ghost function Given(groups: seq<seq<ChunkHash>>): set<ChunkHash> {
    set g, h | g in groups && h in g :: h
  }

  /** The run still works on exactly these blobs, or has put them all. */
  ghost predicate Carries(r: Run, all: set<ChunkHash>) {
    match r
    case Ingesting(workers) =>
      && (forall h :: h in all <==> exists i :: 0 <= i < |workers| && h in AssignedTo(workers[i]))
      && forall i | 0 <= i < |workers| :: workers[i].finished ==> workers[i].todo == []
    case Joined(staged, _) => staged == all
    case Flushed(staged) => staged == all
  }

  // ----- safety -----

  predicate RunSafe(stored: set<ChunkHash>, durable: set<ChunkHash>, r: Run) {
    match r
    case Ingesting(workers) =>
      forall i | 0 <= i < |workers| :: workers[i].staged <= stored && workers[i].unsynced <= stored
    case Joined(staged, _) => staged <= stored
    case Flushed(staged) => staged <= durable
  }

  /** Rows name durable blobs only, and a run never forgets where its own blobs stand. */
  predicate Safe(sys: System) {
    && sys.named <= sys.durable <= sys.stored
    && forall run | run in sys.runs :: RunSafe(sys.stored, sys.durable, sys.runs[run])
  }

  lemma {:induction false} StagedIsStored(workers: seq<Worker>, stored: set<ChunkHash>)
    requires forall i | 0 <= i < |workers| :: workers[i].staged <= stored && workers[i].unsynced <= stored
    ensures StagedBy(workers) <= stored && UnsyncedBy(workers) <= stored
    decreases |workers|
  {
    if workers != [] {
      StagedIsStored(workers[..|workers| - 1], stored);
    }
  }

  lemma StepIsSafe(sys: System, e: Event)
    requires Safe(sys) && Enabled(sys, e)
    ensures Safe(Next(sys, e))
  {
    match e
    case Join(run) =>
      assert RunSafe(sys.stored, sys.durable, sys.runs[run]);
      StagedIsStored(sys.runs[run].workers, sys.stored);
    case FinalSync(run) =>
      assert RunSafe(sys.stored, sys.durable, sys.runs[run]);
    case Record(run, rows) =>
      assert RunSafe(sys.stored, sys.durable, sys.runs[run]);
    case _ =>
  }

  ghost predicate Reaches(sys: System, events: seq<Event>, end: System)
    decreases |events|
  {
    if events == [] then end == sys else Enabled(sys, events[0]) && Reaches(Next(sys, events[0]), events[1..], end)
  }

  /** Over every interleaving, crashes included, every blob a stored row names is durable. */
  lemma {:induction false} RowsAreAlwaysDurable(sys: System, events: seq<Event>, end: System)
    requires Safe(sys) && Reaches(sys, events, end)
    ensures Safe(end) && end.named <= end.durable
    decreases |events|
  {
    if events != [] {
      StepIsSafe(sys, events[0]);
      RowsAreAlwaysDurable(Next(sys, events[0]), events[1..], end);
    }
  }

  // ----- stores whose barrier reaches every blob -----

  /** What finished workers and joined runs rest on is durable, and synced puts leave nothing volatile. */
  predicate Grounded(sys: System) {
    && (sys.backend.SyncedPuts? ==> sys.stored == sys.durable)
    && forall run | run in sys.runs :: RunGrounded(sys.durable, sys.runs[run])
  }

  predicate RunGrounded(durable: set<ChunkHash>, r: Run) {
    match r
    case Ingesting(workers) => forall i | 0 <= i < |workers| && workers[i].finished :: workers[i].staged <= durable
    case Joined(staged, _) => staged <= durable
    case Flushed(_) => true
  }

  lemma {:induction false} StagedIsDurable(workers: seq<Worker>, durable: set<ChunkHash>)
    requires forall i | 0 <= i < |workers| :: workers[i].staged <= durable
    ensures StagedBy(workers) <= durable
    decreases |workers|
  {
    if workers != [] {
      StagedIsDurable(workers[..|workers| - 1], durable);
    }
  }

  lemma StepIsGrounded(sys: System, e: Event)
    requires Safe(sys) && Grounded(sys) && !sys.backend.OwnBarrier? && Enabled(sys, e)
    ensures Grounded(Next(sys, e)) && Next(sys, e).backend == sys.backend
  {
    match e
    case WorkerSync(run, i) =>
      assert RunSafe(sys.stored, sys.durable, sys.runs[run]);
    case Join(run) =>
      assert RunGrounded(sys.durable, sys.runs[run]);
      StagedIsDurable(sys.runs[run].workers, sys.durable);
    case _ =>
  }

  /** When puts are durable, or a sync covers the whole store, joining the workers is barrier enough. */
  lemma {:induction false} JoinIsEnough(sys: System, events: seq<Event>, end: System, run: nat)
    requires Safe(sys) && Grounded(sys) && !sys.backend.OwnBarrier? && Reaches(sys, events, end)
    requires run in end.runs && end.runs[run].Joined?
    ensures end.runs[run].staged <= end.durable
    decreases |events|
  {
    if events == [] {
      assert RunGrounded(end.durable, end.runs[run]);
    } else {
      StepIsSafe(sys, events[0]);
      StepIsGrounded(sys, events[0]);
      JoinIsEnough(Next(sys, events[0]), events[1..], end, run);
    }
  }

  // ----- stores whose barrier covers a worker's own writes -----

  /** Some ingesting run has a worker that wrote this blob and has not synced it. */
  ghost predicate Owed(sys: System, h: ChunkHash) {
    exists run :: run in sys.runs && h in LeftBehind(sys.runs[run])
  }

  /** Whatever is stored is durable, owed a sync, or left by a run that gave up. */
  ghost predicate Accounted(sys: System) {
    forall h | h in sys.stored :: h in sys.durable || h in sys.stray || Owed(sys, h)
  }

  lemma {:induction false} UnsyncedOf(workers: seq<Worker>, h: ChunkHash)
    ensures h in UnsyncedBy(workers) <==> exists i :: 0 <= i < |workers| && h in workers[i].unsynced
    decreases |workers|
  {
    if workers != [] {
      var n := |workers| - 1;
      UnsyncedOf(workers[..n], h);
      if i :| 0 <= i < n && h in workers[i].unsynced {
        assert workers[..n][i] == workers[i];
      }
    }
  }

  lemma {:induction false} FinishedOweNothing(workers: seq<Worker>)
    requires forall i | 0 <= i < |workers| :: workers[i].unsynced == {}
    ensures UnsyncedBy(workers) == {}
    decreases |workers|
  {
    if workers != [] {
      FinishedOweNothing(workers[..|workers| - 1]);
    }
  }

  /** What a worker rests on is durable, its own to sync, or leaned on; a finished one has nothing to sync. */
  predicate WorkerCovered(durable: set<ChunkHash>, w: Worker) {
    && w.staged <= durable + w.unsynced + w.leaned && w.leaned <= w.staged
    && (w.finished ==> w.unsynced == {})
  }

  predicate RunCovered(durable: set<ChunkHash>, r: Run) {
    match r
    case Ingesting(workers) => forall i | 0 <= i < |workers| :: WorkerCovered(durable, workers[i])
    case Joined(staged, leaned) => leaned <= staged <= durable + leaned
    case Flushed(_) => true
  }

  predicate Covered(sys: System) {
    forall run | run in sys.runs :: RunCovered(sys.durable, sys.runs[run])
  }

  lemma {:induction false} JoinIsCovered(workers: seq<Worker>, durable: set<ChunkHash>)
    requires forall i | 0 <= i < |workers| :: WorkerCovered(durable, workers[i]) && workers[i].finished
    ensures LeanedBy(workers) <= StagedBy(workers) <= durable + LeanedBy(workers)
    decreases |workers|
  {
    if workers != [] {
      JoinIsCovered(workers[..|workers| - 1], durable);
      assert WorkerCovered(durable, workers[|workers| - 1]);
    }
  }

  lemma CoverGrows(durable: set<ChunkHash>, more: set<ChunkHash>, r: Run)
    requires durable <= more && RunCovered(durable, r)
    ensures RunCovered(more, r)
  {
    if r.Ingesting? {
      forall i | 0 <= i < |r.workers| ensures WorkerCovered(more, r.workers[i]) {
        assert WorkerCovered(durable, r.workers[i]);
      }
    }
  }

  lemma WorkerIsCovered(sys: System, run: nat, i: nat, w: Worker, more: set<ChunkHash>)
    requires Covered(sys) && Works(sys, run, i) && sys.durable <= more && WorkerCovered(more, w)
    ensures RunCovered(more, Ingesting(sys.runs[run].workers[i := w]))
  {
    assert RunCovered(sys.durable, sys.runs[run]);
    CoverGrows(sys.durable, more, sys.runs[run]);
  }

  lemma StepIsCovered(sys: System, e: Event)
    requires Safe(sys) && Covered(sys) && Enabled(sys, e)
    ensures Covered(Next(sys, e))
  {
    var next := Next(sys, e);
    if !e.Crash? {
      forall r | r in sys.runs ensures RunCovered(next.durable, sys.runs[r]) {
        CoverGrows(sys.durable, next.durable, sys.runs[r]);
      }
    }
    match e
    case Put(run, i) =>
      assert RunCovered(sys.durable, sys.runs[run]);
      assert WorkerCovered(sys.durable, sys.runs[run].workers[i]);
      WorkerIsCovered(sys, run, i, AfterPut(sys.runs[run].workers[i], sys), next.durable);
    case WorkerSync(run, i) =>
      assert RunSafe(sys.stored, sys.durable, sys.runs[run]);
      assert RunCovered(sys.durable, sys.runs[run]);
      assert WorkerCovered(sys.durable, sys.runs[run].workers[i]);
      WorkerIsCovered(sys, run, i, Settle(sys.runs[run].workers[i]), next.durable);
    case Join(run) =>
      assert RunCovered(sys.durable, sys.runs[run]);
      JoinIsCovered(sys.runs[run].workers, sys.durable);
    case _ =>
  }

  lemma {:induction false} RunsAreCovered(sys: System, events: seq<Event>, end: System)
    requires Safe(sys) && Covered(sys) && Reaches(sys, events, end)
    ensures Covered(end)
    decreases |events|
  {
    if events != [] {
      StepIsSafe(sys, events[0]);
      StepIsCovered(sys, events[0]);
      RunsAreCovered(Next(sys, events[0]), events[1..], end);
    }
  }

  /** One worker's step moves blobs between its own debt and the durable set, and no one else's. */
  lemma WorkerDebt(sys: System, run: nat, i: nat, w: Worker, h: ChunkHash)
    requires Works(sys, run, i)
    ensures var workers := sys.runs[run].workers;
      h in UnsyncedBy(workers[i := w]) <==>
      h in w.unsynced || exists j :: 0 <= j < |workers| && j != i && h in workers[j].unsynced
  {
    var workers := sys.runs[run].workers;
    var next := workers[i := w];
    UnsyncedOf(next, h);
    assert next[i] == w;
    if j :| 0 <= j < |workers| && j != i && h in workers[j].unsynced {
      assert next[j] == workers[j];
    }
    if j :| 0 <= j < |next| && h in next[j].unsynced {
      assert j != i ==> next[j] == workers[j];
    }
  }

  lemma DebtStays(sys: System, run: nat, i: nat, w: Worker, h: ChunkHash)
    requires Works(sys, run, i) && Owed(sys, h)
    ensures Owed(sys.(runs := SetWorker(sys, run, i, w)), h) || h in sys.runs[run].workers[i].unsynced
  {
    var next := sys.(runs := SetWorker(sys, run, i, w));
    var r :| r in sys.runs && h in LeftBehind(sys.runs[r]);
    if r == run {
      UnsyncedOf(sys.runs[run].workers, h);
      WorkerDebt(sys, run, i, w, h);
      assert run in next.runs && LeftBehind(next.runs[run]) == UnsyncedBy(sys.runs[run].workers[i := w]);
    } else {
      assert r in next.runs && next.runs[r] == sys.runs[r];
    }
  }

  lemma NewDebt(sys: System, run: nat, i: nat, w: Worker, h: ChunkHash)
    requires Works(sys, run, i) && h in w.unsynced
    ensures Owed(sys.(runs := SetWorker(sys, run, i, w)), h)
  {
    var next := sys.(runs := SetWorker(sys, run, i, w));
    WorkerDebt(sys, run, i, w, h);
    assert run in next.runs && h in LeftBehind(next.runs[run]);
  }

  lemma PutIsAccounted(sys: System, run: nat, i: nat)
    requires Accounted(sys) && Enabled(sys, Put(run, i))
    ensures Accounted(Next(sys, Put(run, i)))
  {
    var next := Next(sys, Put(run, i));
    var before := sys.runs[run].workers[i];
    var w := AfterPut(before, sys);
    forall h | h in next.stored ensures h in next.durable || h in next.stray || Owed(next, h) {
      if h in w.unsynced {
        NewDebt(sys, run, i, w, h);
      } else if Owed(sys, h) {
        DebtStays(sys, run, i, w, h);
      }
    }
  }

  lemma SyncIsAccounted(sys: System, run: nat, i: nat)
    requires Accounted(sys) && Enabled(sys, WorkerSync(run, i))
    ensures Accounted(Next(sys, WorkerSync(run, i)))
  {
    var next := Next(sys, WorkerSync(run, i));
    var w := Settle(sys.runs[run].workers[i]);
    forall h | h in next.stored ensures h in next.durable || h in next.stray || Owed(next, h) {
      if Owed(sys, h) {
        DebtStays(sys, run, i, w, h);
      }
    }
  }

  lemma OtherDebtStays(sys: System, next: System, run: nat, h: ChunkHash)
    requires Owed(sys, h) && (run in sys.runs ==> h !in LeftBehind(sys.runs[run]))
    requires forall r | r in sys.runs && r != run :: r in next.runs && next.runs[r] == sys.runs[r]
    ensures Owed(next, h)
  {
    var r :| r in sys.runs && h in LeftBehind(sys.runs[r]);
    assert r in next.runs && h in LeftBehind(next.runs[r]);
  }

  lemma StepIsAccounted(sys: System, e: Event)
    requires Accounted(sys) && Covered(sys) && Safe(sys) && Enabled(sys, e)
    ensures Accounted(Next(sys, e))
  {
    var next := Next(sys, e);
    match e
    case Put(run, i) => PutIsAccounted(sys, run, i);
    case WorkerSync(run, i) => SyncIsAccounted(sys, run, i);
    case Crash(kept) =>
    case Join(run) =>
      FinishedOweNothing(sys.runs[run].workers);
      forall h | h in sys.stored && Owed(sys, h) ensures Owed(next, h) { OtherDebtStays(sys, next, run, h); }
    case GiveUp(run) =>
      forall h | h in sys.stored && Owed(sys, h) && h !in LeftBehind(sys.runs[run])
        ensures Owed(next, h)
      {
        OtherDebtStays(sys, next, run, h);
      }
    case Start(run, _) =>
      forall h | h in sys.stored && Owed(sys, h) ensures Owed(next, h) { OtherDebtStays(sys, next, run, h); }
    case FinalSync(run) =>
      forall h | h in sys.stored && Owed(sys, h) ensures Owed(next, h) { OtherDebtStays(sys, next, run, h); }
    case Record(run, _) =>
      forall h | h in sys.stored && Owed(sys, h) ensures Owed(next, h) { OtherDebtStays(sys, next, run, h); }
  }

  lemma {:induction false} RunsAreAccounted(sys: System, events: seq<Event>, end: System)
    requires Accounted(sys) && Covered(sys) && Safe(sys) && Reaches(sys, events, end)
    ensures Accounted(end)
    decreases |events|
  {
    if events != [] {
      StepIsSafe(sys, events[0]);
      StepIsCovered(sys, events[0]);
      StepIsAccounted(sys, events[0]);
      RunsAreAccounted(Next(sys, events[0]), events[1..], end);
    }
  }

  /**
   For any backend, a joined run is durable exactly when the blobs its workers leaned on are.
   One that is not is still owed by a worker that wrote it, or was left by a run that gave up.
   */
  lemma JoinIsExact(sys: System, events: seq<Event>, end: System, run: nat)
    requires Safe(sys) && Accounted(sys) && Covered(sys) && Reaches(sys, events, end)
    requires run in end.runs && end.runs[run].Joined?
    ensures end.runs[run].staged <= end.durable <==> end.runs[run].leaned <= end.durable
    ensures forall h | h in end.runs[run].staged && h !in end.durable :: h in end.stray || Owed(end, h)
  {
    RowsAreAlwaysDurable(sys, events, end);
    RunsAreCovered(sys, events, end);
    RunsAreAccounted(sys, events, end);
    assert RunCovered(end.durable, end.runs[run]);
    assert RunSafe(end.stored, end.durable, end.runs[run]);
  }

  /** Every backend starts with nothing stored. */
  function Empty(backend: Backend): System {
    System(backend, {}, {}, {}, {}, map[])
  }

  lemma EmptyIsSound(backend: Backend)
    ensures Safe(Empty(backend)) && Grounded(Empty(backend)) && Covered(Empty(backend)) && Accounted(Empty(backend))
  {
  }

  /**
   From an empty store, for every backend and every interleaving: rows name durable blobs
   only, and a joined run is durable already, unless barriers cover a worker's own writes
   and one of its workers leaned on a blob that is still volatile.
   */
  lemma FromTheStart(backend: Backend, events: seq<Event>, end: System, run: nat)
    requires Reaches(Empty(backend), events, end)
    ensures end.named <= end.durable
    ensures run in end.runs && end.runs[run].Joined? ==>
      (end.runs[run].staged <= end.durable <==> !backend.OwnBarrier? || end.runs[run].leaned <= end.durable)
  {
    EmptyIsSound(backend);
    RowsAreAlwaysDurable(Empty(backend), events, end);
    if run in end.runs && end.runs[run].Joined? {
      JoinIsExact(Empty(backend), events, end, run);
      if !backend.OwnBarrier? { JoinIsEnough(Empty(backend), events, end, run); }
    }
  }

  function Idle(h: ChunkHash): Worker { Worker([h], {}, {}, {}, false) }

  function Wrote(h: ChunkHash): Worker { Worker([], {h}, {h}, {}, false) }

  /** Two runs want the same blob; the first has put it and not synced. */
  function Racing(h: ChunkHash): System {
    System(OwnBarrier, {h}, {}, {}, {}, map[0 := Ingesting([Wrote(h)]), 1 := Ingesting([Idle(h)])])
  }

  lemma RaceStarts(h: ChunkHash)
    ensures Reaches(Empty(OwnBarrier), [Start(0, [[h]]), Start(1, [[h]]), Put(0, 0)], Racing(h))
  {
    var a := Next(Empty(OwnBarrier), Start(0, [[h]]));
    var b := Next(a, Start(1, [[h]]));
    assert Hired([[h]]) == [Idle(h)];
    assert b.runs == map[0 := Ingesting([Idle(h)]), 1 := Ingesting([Idle(h)])];
    assert [h][1..] == [] && AfterPut(Idle(h), b) == Wrote(h);
    var c := Next(b, Put(0, 0));
    assert [Idle(h)][0 := Wrote(h)] == [Wrote(h)];
    assert c.runs == Racing(h).runs && c.stored == {h};
    assert c == Racing(h);
    ReachOne(b, Put(0, 0), [], Racing(h));
    ReachOne(a, Start(1, [[h]]), [Put(0, 0)], Racing(h));
    ReachOne(Empty(OwnBarrier), Start(0, [[h]]), [Start(1, [[h]]), Put(0, 0)], Racing(h));
  }

  lemma RaceJoins(h: ChunkHash) returns (end: System)
    ensures Reaches(Racing(h), [Put(1, 0), WorkerSync(1, 0), Join(1)], end)
    ensures 1 in end.runs && end.runs[1] == Joined({h}, {h}) && end.durable == {}
  {
    var found, done := Worker([], {h}, {}, {h}, false), Worker([], {h}, {}, {h}, true);
    var d := Next(Racing(h), Put(1, 0));
    assert AfterPut(Idle(h), Racing(h)) == found && d.runs[1] == Ingesting([found]);
    var e := Next(d, WorkerSync(1, 0));
    assert e.runs[1] == Ingesting([done]);
    assert StagedBy([done]) == {h} && LeanedBy([done]) == {h} by {
      assert [done][..0] == [] && StagedBy([]) == {} && LeanedBy([]) == {};
    }
    end := Next(e, Join(1));
    ReachOne(e, Join(1), [], end);
    ReachOne(d, WorkerSync(1, 0), [Join(1)], end);
    ReachOne(Racing(h), Put(1, 0), [WorkerSync(1, 0), Join(1)], end);
  }

  lemma {:induction false} ReachJoin(sys: System, events: seq<Event>, mid: System, more: seq<Event>, end: System)
    requires Reaches(sys, events, mid) && Reaches(mid, more, end)
    ensures Reaches(sys, events + more, end)
    decreases |events|
  {
    if events == [] {
      assert events + more == more;
    } else {
      ReachJoin(Next(sys, events[0]), events[1..], mid, more, end);
      assert (events + more)[1..] == events[1..] + more;
    }
  }

  /** With a barrier per worker it can fail: a joined run may rest on a blob another run has not synced. */
  lemma JoinIsNotEnough(h: ChunkHash)
    ensures exists events, end ::
      && Reaches(Empty(OwnBarrier), events, end)
      && 1 in end.runs
      && end.runs[1].Joined?
      && !(end.runs[1].staged <= end.durable)
  {
    RaceStarts(h);
    var end := RaceJoins(h);
    ReachJoin(Empty(OwnBarrier), [Start(0, [[h]]), Start(1, [[h]]), Put(0, 0)], Racing(h),
              [Put(1, 0), WorkerSync(1, 0), Join(1)], end);
    assert h in end.runs[1].staged && h !in end.durable;
  }

  lemma ReachOne(sys: System, e: Event, rest: seq<Event>, end: System)
    requires Enabled(sys, e) && Reaches(Next(sys, e), rest, end)
    ensures Reaches(sys, [e] + rest, end)
  {
    assert ([e] + rest)[1..] == rest;
  }

  /** A store after one run has hired one worker for one blob and put it. */
  function Begun(backend: Backend, h: ChunkHash): System {
    var w := Worker([], {h}, if backend.SyncedPuts? then {} else {h}, {}, false);
    System(backend, {h}, if backend.SyncedPuts? then {h} else {}, {}, {}, map[0 := Ingesting([w])])
  }

  lemma BeginsWithPut(backend: Backend, h: ChunkHash)
    ensures Reaches(Empty(backend), [Start(0, [[h]]), Put(0, 0)], Begun(backend, h))
  {
    var a := Next(Empty(backend), Start(0, [[h]]));
    assert Hired([[h]]) == [Idle(h)] && a.runs == map[0 := Ingesting([Idle(h)])];
    assert [h][1..] == [];
    var b := Next(a, Put(0, 0));
    assert AfterPut(Idle(h), a) == Worker([], {h}, if backend.SyncedPuts? then {} else {h}, {}, false);
    assert [Idle(h)][0 := AfterPut(Idle(h), a)] == [AfterPut(Idle(h), a)];
    assert b.runs == Begun(backend, h).runs && b.stored == {h};
    assert b == Begun(backend, h);
    ReachOne(a, Put(0, 0), [], b);
    ReachOne(Empty(backend), Start(0, [[h]]), [Put(0, 0)], b);
  }

  /** Nothing keeps a run from its end: on every backend a blob can be put, made durable and named. */
  lemma RunsCanFinish(backend: Backend, h: ChunkHash) returns (events: seq<Event>, end: System)
    ensures Reaches(Empty(backend), events, end)
    ensures end.named == {h} && end.durable == {h} && end.runs == map[]
  {
    BeginsWithPut(backend, h);
    var b := Begun(backend, h);
    var c := Next(b, WorkerSync(0, 0));
    var settled := Settle(b.runs[0].workers[0]);
    assert b.runs[0].workers[0 := settled] == [settled];
    assert c.runs == map[0 := Ingesting([settled])];
    var d := Next(c, Join(0));
    assert [settled][..0] == [] && StagedBy([settled]) == {h};
    var e := Next(d, FinalSync(0));
    end := Next(e, Record(0, {h}));
    assert end.runs == map[];
    ReachOne(e, Record(0, {h}), [], end);
    ReachOne(d, FinalSync(0), [Record(0, {h})], end);
    ReachOne(c, Join(0), [FinalSync(0), Record(0, {h})], end);
    ReachOne(b, WorkerSync(0, 0), [Join(0), FinalSync(0), Record(0, {h})], end);
    events := [Start(0, [[h]]), Put(0, 0)] + [WorkerSync(0, 0), Join(0), FinalSync(0), Record(0, {h})];
    ReachJoin(Empty(backend), [Start(0, [[h]]), Put(0, 0)], b,
              [WorkerSync(0, 0), Join(0), FinalSync(0), Record(0, {h})], end);
  }

  lemma {:induction false} StagedByHolds(workers: seq<Worker>, h: ChunkHash)
    ensures h in StagedBy(workers) <==> exists i :: 0 <= i < |workers| && h in workers[i].staged
    decreases |workers|
  {
    if workers != [] {
      StagedByHolds(workers[..|workers| - 1], h);
    }
  }

  /** A worker's step moves one of its blobs from its list to what it has put. */
  lemma WorkerCarriesOn(workers: seq<Worker>, i: nat, w: Worker, all: set<ChunkHash>)
    requires i < |workers| && Carries(Ingesting(workers), all)
    requires AssignedTo(w) == AssignedTo(workers[i]) && (w.finished ==> w.todo == [])
    ensures Carries(Ingesting(workers[i := w]), all)
  {
    var next := workers[i := w];
    forall h ensures h in all <==> exists k :: 0 <= k < |next| && h in AssignedTo(next[k]) {
      if k :| 0 <= k < |workers| && h in AssignedTo(workers[k]) {
        assert h in AssignedTo(next[k]);
      }
      if k :| 0 <= k < |next| && h in AssignedTo(next[k]) {
        assert h in AssignedTo(workers[k]);
      }
    }
  }

  lemma PutCarriesOn(w: Worker, sys: System)
    requires w.todo != []
    ensures AssignedTo(AfterPut(w, sys)) == AssignedTo(w)
  {
    assert w.todo == [w.todo[0]] + w.todo[1..];
  }

  lemma JoinCarriesOn(workers: seq<Worker>, all: set<ChunkHash>)
    requires Carries(Ingesting(workers), all) && forall i | 0 <= i < |workers| :: workers[i].finished
    ensures StagedBy(workers) == all
  {
    forall h ensures h in StagedBy(workers) <==> h in all {
      StagedByHolds(workers, h);
      if i :| 0 <= i < |workers| && h in workers[i].staged { assert h in AssignedTo(workers[i]); }
      if i :| 0 <= i < |workers| && h in AssignedTo(workers[i]) { assert workers[i].todo == []; }
    }
  }

  lemma StepCarriesOn(sys: System, e: Event, run: nat, all: set<ChunkHash>)
    requires Enabled(sys, e) && run in sys.runs && Carries(sys.runs[run], all)
    ensures run in Next(sys, e).runs ==> Carries(Next(sys, e).runs[run], all)
  {
    match e
    case Put(r, i) =>
      if r == run {
        PutCarriesOn(sys.runs[run].workers[i], sys);
        WorkerCarriesOn(sys.runs[run].workers, i, AfterPut(sys.runs[run].workers[i], sys), all);
      }
    case WorkerSync(r, i) =>
      if r == run { WorkerCarriesOn(sys.runs[run].workers, i, Settle(sys.runs[run].workers[i]), all); }
    case Join(r) => if r == run { JoinCarriesOn(sys.runs[run].workers, all); }
    case _ =>
  }

  lemma HiredCarry(groups: seq<seq<ChunkHash>>)
    ensures Carries(Ingesting(Hired(groups)), Given(groups))
  {
    var workers := Hired(groups);
    forall h ensures h in Given(groups) <==> exists i :: 0 <= i < |workers| && h in AssignedTo(workers[i]) {
      if g :| g in groups && h in g {
        var i :| 0 <= i < |groups| && groups[i] == g;
        assert h in AssignedTo(workers[i]);
      }
      if i :| 0 <= i < |workers| && h in AssignedTo(workers[i]) { assert groups[i] in groups && h in groups[i]; }
    }
  }

  /** A run that is joined has put every blob it was given, whatever happened in between. */
  lemma JoinedRunsPutEverything(sys: System, run: nat, groups: seq<seq<ChunkHash>>, events: seq<Event>, end: System)
    requires run !in sys.runs && Reaches(Next(sys, Start(run, groups)), events, end)
    requires forall e | e in events && e.Start? :: e.run != run
    ensures run in end.runs && !end.runs[run].Ingesting? ==> end.runs[run].staged == Given(groups)
  {
    HiredCarry(groups);
    CarriesOn(Next(sys, Start(run, groups)), run, Given(groups), events, end);
  }

  lemma {:induction false} CarriesOn(sys: System, run: nat, all: set<ChunkHash>, events: seq<Event>, end: System)
    requires Reaches(sys, events, end) && (run in sys.runs ==> Carries(sys.runs[run], all))
    requires forall e | e in events && e.Start? :: e.run != run
    ensures run in end.runs ==> Carries(end.runs[run], all)
    decreases |events|
  {
    if events != [] {
      if run in sys.runs { StepCarriesOn(sys, events[0], run, all); }
      assert events[0] in events;
      CarriesOn(Next(sys, events[0]), run, all, events[1..], end);
    }
  }

  /** A crash may take a blob that was put and not synced, unless every put is durable. */
  lemma CrashCanLose(backend: Backend, h: ChunkHash)
    ensures Enabled(Begun(backend, h), Crash({})) <==> !backend.SyncedPuts?
    ensures !backend.SyncedPuts? ==> Reaches(Empty(backend), [Start(0, [[h]]), Put(0, 0), Crash({})], Empty(backend))
  {
    if !backend.SyncedPuts? {
      BeginsWithPut(backend, h);
      assert Next(Begun(backend, h), Crash({})) == Empty(backend);
      ReachOne(Begun(backend, h), Crash({}), [], Empty(backend));
      ReachJoin(Empty(backend), [Start(0, [[h]]), Put(0, 0)], Begun(backend, h), [Crash({})], Empty(backend));
      assert [Start(0, [[h]]), Put(0, 0)] + [Crash({})] == [Start(0, [[h]]), Put(0, 0), Crash({})];
    } else {
      assert h in Begun(backend, h).durable;
    }
  }
}
