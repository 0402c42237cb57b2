/** Reading the history graph by level: ancestors and history, nearest first. */
module GraphWalk {
  import opened Base
  import opened Order
  import opened Ancestry
  import opened MemStore

  datatype CommitError = UnknownCommit(id: CommitId)

  // ----- distance -----

  ghost function ParentsOfAll(g: Graph, s: set<CommitId>): set<CommitId> {
    set c, p | c in s && p in ParentsOf(g, c) :: p
  }

  /** What is reached from `start` through at most `k` parent links. */
  ghost function Within(g: Graph, start: set<CommitId>, k: nat): set<CommitId> {
    if k == 0 then start else Within(g, start, k - 1) + ParentsOfAll(g, Within(g, start, k - 1))
  }

  /** What is reached through `k` links and no fewer. */
  ghost function Layer(g: Graph, start: set<CommitId>, k: nat): set<CommitId> {
    if k == 0 then start else Within(g, start, k) - Within(g, start, k - 1)
  }

  /** The first `k` of a run of sets, each in ascending order. */
  ghost function Listing(layers: nat -> set<CommitId>, k: nat): seq<CommitId> {
    if k == 0 then [] else Listing(layers, k - 1) + InOrder(layers(k - 1))
  }

  ghost function LayersFrom(g: Graph, start: set<CommitId>): nat -> set<CommitId> {
    (k: nat) => Layer(g, start, k)
  }

  /** The first `k` layers, each in ascending order. */
  ghost function Layers(g: Graph, start: set<CommitId>, k: nat): seq<CommitId> {
    Listing(LayersFrom(g, start), k)
  }

  ghost function SeenBefore(g: Graph, start: set<CommitId>, k: nat): set<CommitId> {
    if k == 0 then {} else Within(g, start, k - 1)
  }

  /** The next layer is what the current one's parents add. */
  lemma NextLayer(g: Graph, start: set<CommitId>, k: nat)
    ensures Layer(g, start, k + 1) == ParentsOfAll(g, Layer(g, start, k)) - Within(g, start, k)
    ensures SeenBefore(g, start, k) + Layer(g, start, k) == Within(g, start, k)
    ensures SeenBefore(g, start, k) !! Layer(g, start, k)
  {
    if k > 0 {
      assert Within(g, start, k - 1) <= Within(g, start, k);
    }
  }

  /** Membership is a number of steps from some start. */
  lemma {:induction false} StepsAreWithin(g: Graph, start: set<CommitId>, c: CommitId, a: CommitId, n: nat, k: nat)
    requires c in start && n <= k && Steps(g, c, a, n)
    ensures a in Within(g, start, k)
    decreases k
  {
    if n < k {
      StepsAreWithin(g, start, c, a, n, k - 1);
    } else if n > 0 {
      var b := LastStep(g, c, a, n);
      StepsAreWithin(g, start, c, b, n - 1, k - 1);
    }
  }

  lemma {:induction false} WithinHasSteps(g: Graph, start: set<CommitId>, k: nat, a: CommitId)
    returns (c: CommitId, n: nat)
    requires a in Within(g, start, k)
    ensures c in start && n <= k && Steps(g, c, a, n)
  {
    if k == 0 {
      c, n := a, 0;
    } else if a in Within(g, start, k - 1) {
      c, n := WithinHasSteps(g, start, k - 1, a);
    } else {
      var b := SomeChild(g, Within(g, start, k - 1), a);
      c, n := WithinHasSteps(g, start, k - 1, b);
      OneStepFurther(g, c, b, a, n);
      n := n + 1;
    }
  }

  lemma SomeChild(g: Graph, s: set<CommitId>, a: CommitId) returns (b: CommitId)
    requires a in ParentsOfAll(g, s)
    ensures b in s && a in ParentsOf(g, b)
  {
    b :| b in s && a in ParentsOf(g, b);
  }

  lemma OneStepFurther(g: Graph, c: CommitId, b: CommitId, a: CommitId, n: nat)
    requires Steps(g, c, b, n) && a in ParentsOf(g, b)
    ensures Steps(g, c, a, n + 1)
  {
    assert Steps(g, a, a, 0);
    assert Steps(g, b, a, 1);
    StepsCompose(g, c, b, a, n, 1);
  }

  lemma {:induction false} LastStep(g: Graph, c: CommitId, a: CommitId, n: nat) returns (b: CommitId)
    requires n > 0 && Steps(g, c, a, n)
    ensures Steps(g, c, b, n - 1) && a in ParentsOf(g, b)
    decreases n
  {
    var p :| p in ParentsOf(g, c) && Steps(g, p, a, n - 1);
    if n == 1 {
      b := c;
    } else {
      b := LastStep(g, p, a, n - 1);
    }
  }

  lemma OneMoreParent(g: Graph, s: set<CommitId>, id: CommitId)
    ensures ParentsOfAll(g, s + {id}) == ParentsOfAll(g, s) + ParentsOf(g, id)
  {
    forall p ensures p in ParentsOfAll(g, s + {id}) <==> p in ParentsOfAll(g, s) + ParentsOf(g, id) {}
  }

  lemma NoParents(g: Graph)
    ensures ParentsOfAll(g, {}) == {}
  {
    forall p ensures p !in ParentsOfAll(g, {}) {}
  }

  // ----- one level -----

  /** Report the unseen commits of a level in ascending order and collect their unseen parents. */
  method OneLevel(index: map<CommitId, seq<CommitId>>, level: set<CommitId>, before: set<CommitId>, ghost g: Graph)
    returns (seen: set<CommitId>, found: seq<CommitId>, next: set<CommitId>)
    requires Indexes(index, g)
    ensures seen == before + level
    ensures found == InOrder(level - before)
    ensures ParentsOfAll(g, level - before) - seen <= next <= ParentsOfAll(g, level - before)
  {
    seen, found, next := before, [], {};
    var rest := level;
    ghost var past: set<CommitId> := {};
    NoParents(g);
    assert past - before == {};
    while rest != {}
      invariant past + rest == level && past !! rest
      invariant forall x, y | x in past && y in rest :: x < y
      invariant seen == before + past
      invariant found == InOrder(past - before)
      invariant ParentsOfAll(g, past - before) - seen <= next <= ParentsOfAll(g, past - before)
      decreases rest
    {
      var id := Least(rest);
      rest := rest - {id};
      ghost var was := past;
      past := past + {id};
      if id in seen {
        assert past - before == was - before;
        continue;
      }
      seen := seen + {id};
      LargestLast(was - before, id);
      OneMoreParent(g, was - before, id);
      assert past - before == was - before + {id};
      found := found + [id];
      if id in index {
        assert ParentsOf(g, id) == Elements(index[id]);
        next := next + (set p | p in index[id] && p !in seen);
      }
    }
  }

  /** All layers from `start`; the visited set ends the walk on any graph, cyclic ones included. */
  method WalkLevels(index: map<CommitId, seq<CommitId>>, start: set<CommitId>, ghost g: Graph)
    returns (order: seq<CommitId>, ghost depth: nat)
    requires Indexes(index, g)
    ensures order == Layers(g, start, depth) && Layer(g, start, depth) == {}
  {
    var seen: set<CommitId> := {};
    order, depth := [], 0;
    var level := start;
    while level != {}
      invariant AtLevel(g, start, depth, seen, level)
      invariant order == Layers(g, start, depth)
      decreases start + Nodes(g) - seen, level != {}
    {
      ghost var was, here := seen, level;
      var found;
      seen, found, level := OneLevel(index, level, seen, g);
      LevelAdvances(g, start, depth, was, here, seen, level);
      LayersUnfold(g, start, depth);
      order := order + found;
      depth := depth + 1;
    }
  }

  lemma LayersUnfold(g: Graph, start: set<CommitId>, k: nat)
    ensures Layers(g, start, k + 1) == Layers(g, start, k) + InOrder(Layer(g, start, k))
    ensures Layer(g, start, k) == {} ==> Layers(g, start, k + 1) == Layers(g, start, k)
  {
    if Layer(g, start, k) == {} {
      assert InOrder({}) == [];
    }
  }

  /** The walk after `k` levels: what it has seen, and what it looks at next. */
  ghost predicate AtLevel(g: Graph, start: set<CommitId>, k: nat, seen: set<CommitId>, level: set<CommitId>) {
    seen == SeenBefore(g, start, k) && level + seen <= start + Nodes(g) && level - seen == Layer(g, start, k)
  }

  lemma LevelAdvances(g: Graph, start: set<CommitId>, k: nat, was: set<CommitId>, level: set<CommitId>,
                      seen: set<CommitId>, next: set<CommitId>)
    requires AtLevel(g, start, k, was, level) && seen == was + level
    requires ParentsOfAll(g, level - was) - seen <= next <= ParentsOfAll(g, level - was)
    ensures AtLevel(g, start, k + 1, seen, next)
    ensures start + Nodes(g) - seen <= start + Nodes(g) - was
    ensures next == {} || start + Nodes(g) - seen < start + Nodes(g) - was
  {
    LayerAdvances(g, start, k, level - was, was, seen, next);
    if level - was != {} {
      var x := Least(level - was);
      assert x in start + Nodes(g) - was && x !in start + Nodes(g) - seen;
    }
  }

  lemma LayerAdvances(g: Graph, start: set<CommitId>, k: nat, unseen: set<CommitId>, was: set<CommitId>,
                      seen: set<CommitId>, next: set<CommitId>)
    requires unseen == Layer(g, start, k) && was == SeenBefore(g, start, k) && seen == was + unseen
    requires ParentsOfAll(g, unseen) - seen <= next <= ParentsOfAll(g, unseen)
    ensures seen == SeenBefore(g, start, k + 1)
    ensures next - seen == Layer(g, start, k + 1)
    ensures next <= Nodes(g)
    ensures unseen == {} ==> next == {}
  {
    NextLayer(g, start, k);
    NoParents(g);
    forall p | p in next ensures p in Nodes(g) {
      var c :| c in unseen && p in ParentsOf(g, c);
    }
    forall p ensures p in next - seen <==> p in Layer(g, start, k + 1) {}
  }

  // ----- what the order means -----

  lemma {:induction false} LayersHold(g: Graph, start: set<CommitId>, k: nat, a: CommitId)
    ensures a in Layers(g, start, k) <==> a in SeenBefore(g, start, k)
  {
    if k > 0 {
      LayersHold(g, start, k - 1, a);
      OneMoreLayer(g, start, k - 1, a);
    }
  }

  lemma OneMoreLayer(g: Graph, start: set<CommitId>, k: nat, a: CommitId)
    requires a in Layers(g, start, k) <==> a in SeenBefore(g, start, k)
    ensures a in Layers(g, start, k + 1) <==> a in SeenBefore(g, start, k + 1)
  {
    LayersUnfold(g, start, k);
    LayerJoins(Layers(g, start, k), Layer(g, start, k), a);
    NextLayer(g, start, k);
    assert SeenBefore(g, start, k + 1) == Within(g, start, k);
  }

  lemma LayerJoins(order: seq<CommitId>, layer: set<CommitId>, a: CommitId)
    ensures a in order + InOrder(layer) <==> a in order || a in layer
  {
    InOrderMembers(layer);
  }

  /** An empty layer is followed by an empty one. */
  ghost predicate Unbroken(layers: nat -> set<CommitId>) {
    forall n: nat | layers(n) == {} :: layers(n + 1) == {}
  }

  lemma {:induction false} StaysEmpty(layers: nat -> set<CommitId>, k: nat, n: nat)
    requires Unbroken(layers) && layers(k) == {} && k <= n
    ensures layers(n) == {}
    decreases n
  {
    if k < n {
      StaysEmpty(layers, k, n - 1);
    }
  }

  lemma EmptyLayerStays(g: Graph, start: set<CommitId>, n: nat)
    requires Layer(g, start, n) == {}
    ensures Layer(g, start, n + 1) == {}
  {
    NextLayer(g, start, n);
    NoParents(g);
  }

  lemma LayersAreUnbroken(g: Graph, start: set<CommitId>)
    ensures Unbroken(LayersFrom(g, start))
  {
    var layers := LayersFrom(g, start);
    forall n: nat | layers(n) == {} ensures layers(n + 1) == {} {
      EmptyLayerStays(g, start, n);
    }
  }

  /** So every layer after an empty one is empty, and nothing more is reached. */
  lemma LaterLayersAreEmpty(g: Graph, start: set<CommitId>, k: nat, n: nat)
    requires Layer(g, start, k) == {} && k <= n
    ensures Layer(g, start, n) == {}
  {
    LayersAreUnbroken(g, start);
    StaysEmpty(LayersFrom(g, start), k, n);
  }

  lemma {:induction false} NothingIsReachedLater(g: Graph, start: set<CommitId>, k: nat, n: nat, a: CommitId)
    requires Layer(g, start, k) == {} && k <= n && a in Within(g, start, n)
    ensures a in SeenBefore(g, start, k)
    decreases n
  {
    LaterLayersAreEmpty(g, start, k, n);
    NextLayer(g, start, n);
    assert a in SeenBefore(g, start, n);
    if k < n {
      NothingIsReachedLater(g, start, k, n - 1, a);
    }
  }

  /** `a` comes before `b`: in an earlier layer, or in the same one and smaller. */
  ghost predicate Nearer(layers: nat -> set<CommitId>, a: CommitId, b: CommitId) {
    exists m: nat, n: nat :: a in layers(m) && b in layers(n) && (m < n || (m == n && a < b))
  }

  /** Every listed commit lies in one of the first `k` layers, and they stand in order. */
  ghost predicate Banded(layers: nat -> set<CommitId>, k: nat, order: seq<CommitId>) {
    && (forall a | a in order :: InBand(layers, k, a))
    && forall i, j | 0 <= i < j < |order| :: Nearer(layers, order[i], order[j])
  }

  ghost predicate InBand(layers: nat -> set<CommitId>, k: nat, a: CommitId) {
    exists m: nat :: m < k && a in layers(m)
  }

  lemma BandGrows(layers: nat -> set<CommitId>, k: nat, order: seq<CommitId>, last: seq<CommitId>)
    requires Banded(layers, k, order) && Ascending(last) && forall a | a in last :: a in layers(k)
    ensures Banded(layers, k + 1, order + last)
  {
    var all := order + last;
    forall a | a in all ensures InBand(layers, k + 1, a) {
      if a in order {
        assert InBand(layers, k, a);
      } else {
        assert a in last;
      }
    }
    forall i, j | 0 <= i < j < |all| ensures Nearer(layers, all[i], all[j]) {
      if j >= |order| {
        assert all[j] in last && all[j] in layers(k);
        if i < |order| {
          assert order[i] in order && InBand(layers, k, order[i]);
        } else {
          assert all[i] in last && all[i] in layers(k);
        }
      }
    }
  }

  /** The listing is strictly ordered by layer and then by identifier. */
  lemma {:induction false} ListingIsSorted(layers: nat -> set<CommitId>, k: nat)
    ensures Banded(layers, k, Listing(layers, k))
  {
    if k > 0 {
      ListingIsSorted(layers, k - 1);
      InOrderMembers(layers(k - 1));
      BandGrows(layers, k - 1, Listing(layers, k - 1), InOrder(layers(k - 1)));
    }
  }

  /** The order is strict, so nothing is listed twice. */
  lemma NearerIsStrict(g: Graph, start: set<CommitId>, a: CommitId)
    ensures !Nearer(LayersFrom(g, start), a, a)
  {
    forall m: nat, n: nat | a in Layer(g, start, m) && a in Layer(g, start, n) ensures m == n {
      if m < n { LayersApart(g, start, m, n, a); }
      if n < m { LayersApart(g, start, n, m, a); }
    }
  }

  /** Layers are disjoint: the distance is a function. */
  lemma {:induction false} LayersApart(g: Graph, start: set<CommitId>, m: nat, n: nat, a: CommitId)
    requires m < n && a in Layer(g, start, m)
    ensures a !in Layer(g, start, n)
  {
    assert a in Within(g, start, m) by { NextLayer(g, start, m); }
    WithinGrows(g, start, m, n - 1);
  }

  lemma {:induction false} WithinGrows(g: Graph, start: set<CommitId>, m: nat, n: nat)
    requires m <= n
    ensures Within(g, start, m) <= Within(g, start, n)
    decreases n
  {
    if m < n {
      WithinGrows(g, start, m, n - 1);
    }
  }

  // ----- the queries -----

  /** Every ancestor of a stored commit, nearest first, each once. */
  method CommitAncestors(index: map<CommitId, seq<CommitId>>, commit: CommitId, ghost g: Graph)
    returns (r: Result<seq<CommitId>, CommitError>)
    requires Indexes(index, g)
    ensures commit !in index <==> r == Err(UnknownCommit(commit))
    ensures commit in index ==> r.Ok? && (forall a :: a in r.value <==> a in Ancestors(g, commit))
    ensures commit in index ==> forall i, j | 0 <= i < j < |r.value| ::
              r.value[i] != r.value[j] && Nearer(LayersFrom(g, ParentsOf(g, commit)), r.value[i], r.value[j])
    ensures commit in index ==>
      exists k :: r.value == Layers(g, ParentsOf(g, commit), k) && Layer(g, ParentsOf(g, commit), k) == {}
  {
    if commit !in index { return Err(UnknownCommit(commit)); }
    var start := Elements(index[commit]);
    var order, depth := WalkLevels(index, start, g);
    ListingIsSorted(LayersFrom(g, start), depth);
    forall i, j | 0 <= i < j < |order| ensures order[i] != order[j] {
      NearerIsStrict(g, start, order[i]);
    }
    forall a ensures a in order <==> a in Ancestors(g, commit) {
      LayersHold(g, start, depth, a);
      FromParents(g, commit, depth, a);
    }
    assert start == ParentsOf(g, commit);
    assert order == Layers(g, start, depth) && Layer(g, start, depth) == {};
    return Ok(order);
  }

  /** Once a layer is empty, what was seen from the parents is the ancestors. */
  lemma FromParents(g: Graph, c: CommitId, k: nat, a: CommitId)
    requires Layer(g, ParentsOf(g, c), k) == {}
    ensures a in SeenBefore(g, ParentsOf(g, c), k) <==> a in Ancestors(g, c)
  {
    AncestorsAreReached(g, c, a);
    NextLayer(g, ParentsOf(g, c), k);
    if a in SeenBefore(g, ParentsOf(g, c), k) {
      SeenDescends(g, c, k, a);
    }
    if Descends(g, c, a) {
      DescentIsSeen(g, c, k, a);
    }
  }

  lemma SeenDescends(g: Graph, c: CommitId, k: nat, a: CommitId)
    requires a in Within(g, ParentsOf(g, c), k)
    ensures Descends(g, c, a)
  {
    var p, n := WithinHasSteps(g, ParentsOf(g, c), k, a);
    assert Steps(g, c, a, n + 1);
  }

  lemma DescentIsSeen(g: Graph, c: CommitId, k: nat, a: CommitId)
    requires Layer(g, ParentsOf(g, c), k) == {} && Descends(g, c, a)
    ensures a in Within(g, ParentsOf(g, c), k)
  {
    var p, n := FirstLink(g, c, a);
    StepsAreSeen(g, ParentsOf(g, c), k, p, a, n);
  }

  lemma FirstLink(g: Graph, c: CommitId, a: CommitId) returns (p: CommitId, n: nat)
    requires Descends(g, c, a)
    ensures p in ParentsOf(g, c) && Steps(g, p, a, n)
  {
    var m: nat :| m > 0 && Steps(g, c, a, m);
    p :| p in ParentsOf(g, c) && Steps(g, p, a, m - 1);
    n := m - 1;
  }

  /** Whatever the start reaches was seen by the time a layer is empty. */
  lemma StepsAreSeen(g: Graph, start: set<CommitId>, k: nat, p: CommitId, a: CommitId, n: nat)
    requires Layer(g, start, k) == {} && p in start && Steps(g, p, a, n)
    ensures a in Within(g, start, k) && a in SeenBefore(g, start, k)
  {
    NextLayer(g, start, k);
    if n <= k {
      StepsAreWithin(g, start, p, a, n, k);
    } else {
      StepsAreWithin(g, start, p, a, n, n);
      NothingIsReachedLater(g, start, k, n, a);
    }
  }

  ghost predicate ReachedIn(g: Graph, start: set<CommitId>, a: CommitId, k: nat) {
    exists c :: c in start && Steps(g, c, a, k)
  }

  lemma LayerHasDistance(g: Graph, start: set<CommitId>, k: nat, a: CommitId)
    requires a in Layer(g, start, k)
    ensures ReachedIn(g, start, a, k) && forall n: nat | n < k :: !ReachedIn(g, start, a, n)
  {
    forall n: nat | n < k ensures !ReachedIn(g, start, a, n) {
      if c :| c in start && Steps(g, c, a, n) {
        StepsAreWithin(g, start, c, a, n, k - 1);
      }
    }
    var c, n := WithinHasSteps(g, start, k, a);
    assert ReachedIn(g, start, a, n);
  }

  /** The layer a commit lies in is its shortest distance from the start. */
  lemma LayerIsDistance(g: Graph, start: set<CommitId>, k: nat, a: CommitId)
    ensures a in Layer(g, start, k) <==>
      ReachedIn(g, start, a, k) && forall n: nat | n < k :: !ReachedIn(g, start, a, n)
  {
    if a in Layer(g, start, k) {
      LayerHasDistance(g, start, k, a);
    } else if c :| c in start && Steps(g, c, a, k) {
      StepsAreWithin(g, start, c, a, k, k);
      var d, m := WithinHasSteps(g, start, k - 1, a);
      assert ReachedIn(g, start, a, m);
    }
  }

  // ----- history -----

  function IdsOf(records: seq<Commit>): seq<CommitId> {
    seq(|records|, i requires 0 <= i < |records| => records[i].id)
  }

  /** Records stand under their own identifiers and carry the edges of the graph. */
  ghost predicate Records(records: map<CommitId, Commit>, g: Graph) {
    forall c :: (c in records <==> c in g) && (c in g ==> records[c].id == c && g[c] == Elements(records[c].parents))
  }

  predicate Listed(records: map<CommitId, Commit>, out: seq<Commit>) {
    forall c | c in out :: c.id in records && records[c.id] == c
  }

  lemma IdsJoin(a: seq<Commit>, b: seq<Commit>)
    ensures IdsOf(a + b) == IdsOf(a) + IdsOf(b)
  {
  }

  /** One level of the history walk, which fails on a commit without a record. */
  method OneLevelOfRecords(records: map<CommitId, Commit>, level: set<CommitId>, before: set<CommitId>, ghost g: Graph)
    returns (r: Result<seq<Commit>, CommitError>, seen: set<CommitId>, next: set<CommitId>)
    requires Records(records, g)
    ensures r.Ok? ==> seen == before + level && IdsOf(r.value) == InOrder(level - before)
    ensures r.Ok? ==> Listed(records, r.value)
    ensures r.Ok? ==> level - before <= g.Keys
    ensures r.Ok? ==> ParentsOfAll(g, level - before) - seen <= next <= ParentsOfAll(g, level - before)
    ensures r.Err? ==> r.error.id in level - before && r.error.id !in records
  {
    var found: seq<Commit> := [];
    seen, next := before, {};
    var rest := level;
    ghost var past: set<CommitId> := {};
    NoParents(g);
    assert past - before == {};
    while rest != {}
      invariant past + rest == level && past !! rest
      invariant forall x, y | x in past && y in rest :: x < y
      invariant seen == before + past
      invariant IdsOf(found) == InOrder(past - before)
      invariant Listed(records, found)
      invariant past - before <= g.Keys
      invariant ParentsOfAll(g, past - before) - seen <= next <= ParentsOfAll(g, past - before)
      decreases rest
    {
      var id := Least(rest);
      rest := rest - {id};
      ghost var was := past;
      past := past + {id};
      if id in seen {
        assert past - before == was - before;
        continue;
      }
      if id !in records {
        return Err(UnknownCommit(id)), seen, next;
      }
      seen := seen + {id};
      LargestLast(was - before, id);
      OneMoreParent(g, was - before, id);
      assert past - before == was - before + {id};
      var record := records[id];
      assert ParentsOf(g, id) == Elements(record.parents);
      next := next + (set p | p in record.parents && p !in seen);
      assert IdsOf(found + [record]) == IdsOf(found) + [id];
      found := found + [record];
    }
    r := Ok(found);
  }

  /** One round of the walk: everything at `level` is listed behind `out`, or a record is missing. */
  method NextLevelOfRecords(records: map<CommitId, Commit>, level: set<CommitId>, before: set<CommitId>,
                            out: seq<Commit>, ghost start: set<CommitId>, ghost depth: nat, ghost g: Graph)
    returns (r: Result<seq<Commit>, CommitError>, seen: set<CommitId>, next: set<CommitId>, ghost deeper: nat)
    requires Records(records, g) && level != {}
    requires AtLevel(g, start, depth, before, level) && RecordsTo(records, g, start, depth, before, out)
    ensures r.Err? ==> r.error.id in Layer(g, start, depth) && r.error.id !in records
    ensures r.Ok? ==> AtLevel(g, start, deeper, seen, next) && RecordsTo(records, g, start, deeper, seen, r.value)
    ensures r.Ok? ==> start + Nodes(g) - seen <= start + Nodes(g) - before
    ensures r.Ok? && next != {} ==> start + Nodes(g) - seen < start + Nodes(g) - before
  {
    deeper := depth + 1;
    r, seen, next := OneLevelOfRecords(records, level, before, g);
    if r.Ok? {
      LevelAdvances(g, start, depth, before, level, seen, next);
      RecordsAdvance(records, g, start, depth, before, level, out, r.value);
      r := Ok(out + r.value);
    }
  }

  /** All layers from `start` as records. */
  method WalkRecords(records: map<CommitId, Commit>, start: set<CommitId>, ghost g: Graph)
    returns (r: Result<seq<Commit>, CommitError>, ghost depth: nat)
    requires Records(records, g)
    ensures r.Ok? ==> Layer(g, start, depth) == {}
    ensures r.Ok? ==> RecordsTo(records, g, start, depth, SeenBefore(g, start, depth), r.value)
    ensures r.Err? ==> r.error.id in Layer(g, start, depth) && r.error.id !in records
  {
    var seen: set<CommitId> := {};
    var level := start;
    r, depth := Ok([]), 0;
    while level != {}
      invariant r.Ok? && AtLevel(g, start, depth, seen, level) && RecordsTo(records, g, start, depth, seen, r.value)
      decreases start + Nodes(g) - seen, level != {}
    {
      ghost var deeper;
      r, seen, level, deeper := NextLevelOfRecords(records, level, seen, r.value, start, depth, g);
      if r.Err? { return; }
      depth := deeper;
    }
  }

  /** The records of the first `depth` layers, and everything seen so far is stored. */
  ghost predicate RecordsTo(records: map<CommitId, Commit>, g: Graph, start: set<CommitId>, depth: nat,
                            seen: set<CommitId>, out: seq<Commit>)
  {
    seen <= g.Keys && IdsOf(out) == Layers(g, start, depth) && Listed(records, out)
  }

  lemma RecordsAdvance(records: map<CommitId, Commit>, g: Graph, start: set<CommitId>, depth: nat, was: set<CommitId>,
                       level: set<CommitId>, out: seq<Commit>, found: seq<Commit>)
    requires RecordsTo(records, g, start, depth, was, out) && level - was == Layer(g, start, depth)
    requires IdsOf(found) == InOrder(level - was) && Listed(records, found) && level - was <= g.Keys
    ensures RecordsTo(records, g, start, depth + 1, was + level, out + found)
  {
    LayersUnfold(g, start, depth);
    IdsJoin(out, found);
  }

  /** The commit and everything it descends from, nearest first, as records. */
  method CommitHistory(records: map<CommitId, Commit>, commit: CommitId, ghost g: Graph)
    returns (r: Result<seq<Commit>, CommitError>, ghost depth: nat)
    requires Records(records, g)
    ensures r.Ok? <==> Line(g, commit) <= records.Keys
    ensures r.Ok? ==> IdsOf(r.value) == Layers(g, {commit}, depth) && Layer(g, {commit}, depth) == {}
    ensures r.Ok? ==> Listed(records, r.value)
    ensures r.Err? ==> r.error.id in Line(g, commit) && r.error.id !in records
  {
    r, depth := WalkRecords(records, {commit}, g);
    if r.Err? {
      LayerIsInLine(g, commit, depth, r.error.id);
    } else {
      forall a | a in Line(g, commit) ensures a in records {
        LineIsSeen(g, commit, depth, a);
      }
    }
  }

  lemma LayerIsInLine(g: Graph, c: CommitId, k: nat, a: CommitId)
    requires a in Layer(g, {c}, k)
    ensures a in Line(g, c)
  {
    LayerIsDistance(g, {c}, k, a);
    AncestorsAreReached(g, c, a);
  }

  lemma LineIsSeen(g: Graph, c: CommitId, k: nat, a: CommitId)
    requires Layer(g, {c}, k) == {} && a in Line(g, c)
    ensures a in SeenBefore(g, {c}, k)
  {
    StepsAreSeen(g, {c}, k, c, a, Distance(g, c, a));
  }

  lemma {:induction false} OneLinkBack(g: Graph, c: CommitId, k: nat)
    ensures Within(g, {c}, k + 1) == {c} + Within(g, ParentsOf(g, c), k)
  {
    var start := ParentsOf(g, c);
    if k == 0 {
      NoParents(g);
      OneMoreParent(g, {}, c);
      assert {} + {c} == {c};
      assert Within(g, {c}, 1) == {c} + ParentsOfAll(g, {c});
    } else {
      OneLinkBack(g, c, k - 1);
      WithinGrows(g, start, 0, k);
      Widen(g, c, Within(g, start, k - 1), Within(g, {c}, k));
    }
  }

  lemma Widen(g: Graph, c: CommitId, w: set<CommitId>, v: set<CommitId>)
    requires v == {c} + w
    ensures v + ParentsOfAll(g, v) == {c} + (w + ParentsOfAll(g, w)) + ParentsOf(g, c)
  {
    OneMoreParent(g, w, c);
    assert v == w + {c};
  }

  /** A commit that is not its own ancestor is not met again on the way up. */
  lemma NotMetAgain(g: Graph, c: CommitId, k: nat)
    requires c !in Ancestors(g, c)
    ensures c !in Within(g, ParentsOf(g, c), k)
  {
    if c in Within(g, ParentsOf(g, c), k) {
      var p, n := WithinHasSteps(g, ParentsOf(g, c), k, c);
      assert Steps(g, c, c, n + 1);
      AncestorsAreReached(g, c, c);
    }
  }

  lemma FirstHistoryLayer(g: Graph, c: CommitId)
    requires c !in Ancestors(g, c)
    ensures Layer(g, {c}, 1) == Layer(g, ParentsOf(g, c), 0)
  {
    OneLinkBack(g, c, 0);
    NotMetAgain(g, c, 0);
  }

  lemma PeelOff(c: CommitId, w: set<CommitId>, v: set<CommitId>)
    requires c !in w
    ensures ({c} + w) - ({c} + v) == w - v
  {
    forall x ensures x in ({c} + w) - ({c} + v) <==> x in w - v {}
  }

  lemma LayerBetween(g: Graph, start: set<CommitId>, m: nat, n: nat)
    requires n == m + 1
    ensures Layer(g, start, n) == Within(g, start, n) - Within(g, start, m)
  {
  }

  lemma OneLinkBackTo(g: Graph, c: CommitId, m: nat, n: nat)
    requires n == m + 1
    ensures Within(g, {c}, n) == {c} + Within(g, ParentsOf(g, c), m)
  {
    OneLinkBack(g, c, m);
  }

  lemma NextHistoryLayer(g: Graph, c: CommitId, j: nat, k: nat, n: nat)
    requires c !in Ancestors(g, c) && k == j + 1 && n == k + 1
    ensures Layer(g, {c}, n) == Layer(g, ParentsOf(g, c), k)
  {
    LayerBetween(g, {c}, k, n);
    LayerBetween(g, ParentsOf(g, c), j, k);
    OneLinkBackTo(g, c, k, n);
    OneLinkBackTo(g, c, j, k);
    NotMetAgain(g, c, k);
    PeelOff(c, Within(g, ParentsOf(g, c), k), Within(g, ParentsOf(g, c), j));
  }

  lemma HistoryLayer(g: Graph, c: CommitId, k: nat, n: nat)
    requires c !in Ancestors(g, c) && n == k + 1
    ensures Layer(g, {c}, n) == Layer(g, ParentsOf(g, c), k)
  {
    if k == 0 { FirstHistoryLayer(g, c); } else { NextHistoryLayer(g, c, k - 1, k, n); }
  }

  ghost predicate Stops(layers: nat -> set<CommitId>, k: nat) {
    forall j: nat | k <= j :: layers(j) == {}
  }

  lemma SingleInOrder(c: CommitId)
    ensures InOrder({c}) == [c]
  {
    assert Least({c}) == c && {c} - {c} == {};
  }

  /** `a` is `{c}`, then `b`. */
  ghost predicate Shifted(a: nat -> set<CommitId>, b: nat -> set<CommitId>, c: CommitId) {
    a(0) == {c} && forall i: nat, j: nat | j == i + 1 :: a(j) == b(i)
  }

  lemma ListingUnfolds(layers: nat -> set<CommitId>, m: nat, n: nat)
    requires n == m + 1
    ensures Listing(layers, n) == Listing(layers, m) + InOrder(layers(m))
  {
  }

  lemma {:induction false} ShiftedListing(a: nat -> set<CommitId>, b: nat -> set<CommitId>, c: CommitId, k: nat, n: nat)
    requires Shifted(a, b, c) && n == k + 1
    ensures Listing(a, n) == [c] + Listing(b, k)
    decreases k
  {
    ListingUnfolds(a, k, n);
    if k == 0 {
      SingleInOrder(c);
    } else {
      ShiftedListing(a, b, c, k - 1, k);
      ListingUnfolds(b, k - 1, k);
    }
  }

  lemma {:induction false} ListingStops(a: nat -> set<CommitId>, k: nat, n: nat)
    requires k <= n && Stops(a, k)
    ensures Listing(a, n) == Listing(a, k)
    decreases n
  {
    if k < n {
      ListingStops(a, k, n - 1);
      assert InOrder({}) == [];
    }
  }

  lemma SameListing(layers: nat -> set<CommitId>, j: nat, k: nat)
    requires Stops(layers, j) && Stops(layers, k)
    ensures Listing(layers, j) == Listing(layers, k)
  {
    if j <= k { ListingStops(layers, j, k); } else { ListingStops(layers, k, j); }
  }

  lemma ShiftedListings(a: nat -> set<CommitId>, b: nat -> set<CommitId>, c: CommitId, j: nat, k: nat)
    requires Shifted(a, b, c) && Stops(a, j) && Stops(b, k)
    ensures Listing(a, j) == [c] + Listing(b, k)
  {
    assert c in a(0);
    forall i: nat | j - 1 <= i ensures b(i) == {} {
      assert a(i + 1) == b(i);
    }
    ShiftedListing(a, b, c, j - 1, j);
    SameListing(b, j - 1, k);
  }

  lemma HistoryLayersAreShifted(g: Graph, c: CommitId)
    requires c !in Ancestors(g, c)
    ensures Shifted(LayersFrom(g, {c}), LayersFrom(g, ParentsOf(g, c)), c)
  {
    var a, b := LayersFrom(g, {c}), LayersFrom(g, ParentsOf(g, c));
    forall i: nat, j: nat | j == i + 1 ensures a(j) == b(i) {
      HistoryLayer(g, c, i, j);
    }
  }

  lemma LayersStop(g: Graph, start: set<CommitId>, k: nat)
    requires Layer(g, start, k) == {}
    ensures Stops(LayersFrom(g, start), k)
  {
    forall n: nat | k <= n ensures Layer(g, start, n) == {} {
      LaterLayersAreEmpty(g, start, k, n);
    }
  }

  /** On an acyclic graph the history of a commit is the commit followed by its ancestors. */
  lemma HistoryIsSelfThenAncestors(g: Graph, c: CommitId, j: nat, k: nat)
    requires c !in Ancestors(g, c)
    requires Layer(g, {c}, j) == {} && Layer(g, ParentsOf(g, c), k) == {}
    ensures Layers(g, {c}, j) == [c] + Layers(g, ParentsOf(g, c), k)
  {
    LayersStop(g, {c}, j);
    LayersStop(g, ParentsOf(g, c), k);
    HistoryLayersAreShifted(g, c);
    ShiftedListings(LayersFrom(g, {c}), LayersFrom(g, ParentsOf(g, c)), c, j, k);
  }
}
