/** Ingest groups: planned files sorted by size and dealt to workers. */
module Workers {
  import opened Partition

  datatype PlannedFile = PlannedFile(id: nat, size: nat)

  function Sizes(files: seq<PlannedFile>): seq<nat> {
    seq(|files|, i requires 0 <= i < |files| => files[i].size)
  }

  // ----- the stable sort -----

  /** Put a file behind every file that is at least as large. */
  function Place(s: seq<PlannedFile>, f: PlannedFile): seq<PlannedFile> {
    if s == [] || s[|s| - 1].size >= f.size then s + [f]
    else Place(s[..|s| - 1], f) + [s[|s| - 1]]
  }

  /** Largest first; files of one size keep their order. */
  function BySize(files: seq<PlannedFile>): seq<PlannedFile> {
    if files == [] then [] else Place(BySize(files[..|files| - 1]), files[|files| - 1])
  }

  function OfSize(files: seq<PlannedFile>, size: nat): seq<PlannedFile> {
    if files == [] then []
    else OfSize(files[..|files| - 1], size) + if files[|files| - 1].size == size then [files[|files| - 1]] else []
  }

  lemma {:induction false} PlaceKeeps(s: seq<PlannedFile>, f: PlannedFile)
    ensures multiset(Place(s, f)) == multiset(s) + multiset{f}
    decreases |s|
  {
    if s != [] && s[|s| - 1].size < f.size {
      PlaceKeeps(s[..|s| - 1], f);
      assert s == s[..|s| - 1] + [s[|s| - 1]];
    }
  }

  predicate Falling(s: seq<PlannedFile>) {
    forall i, j | 0 <= i <= j < |s| :: s[j].size <= s[i].size
  }

  lemma {:induction false} PlaceSorts(s: seq<PlannedFile>, f: PlannedFile)
    requires Falling(s)
    ensures Falling(Place(s, f))
    ensures forall x | x in Place(s, f) :: x == f || x in s
    decreases |s|
  {
    if s != [] && s[|s| - 1].size < f.size {
      var front := Place(s[..|s| - 1], f);
      PlaceSorts(s[..|s| - 1], f);
      forall i | 0 <= i < |front| ensures s[|s| - 1].size <= front[i].size {
        assert front[i] in front;
      }
    }
  }

  lemma {:induction false} PlaceIsStable(s: seq<PlannedFile>, f: PlannedFile, size: nat)
    requires Falling(s)
    ensures OfSize(Place(s, f), size) == OfSize(s, size) + if f.size == size then [f] else []
    decreases |s|
  {
    if s == [] || s[|s| - 1].size >= f.size {
      assert (s + [f])[..|s|] == s;
    } else {
      var front, last := s[..|s| - 1], s[|s| - 1];
      PlaceIsStable(front, f, size);
      assert (Place(front, f) + [last])[..|Place(front, f)|] == Place(front, f);
    }
  }

  /** Sorting permutes the files, puts the largest first and keeps the order within a size. */
  lemma {:induction false} BySizeSorts(files: seq<PlannedFile>)
    ensures multiset(BySize(files)) == multiset(files) && Falling(BySize(files))
    ensures forall size :: OfSize(BySize(files), size) == OfSize(files, size)
    decreases |files|
  {
    if files != [] {
      var front, last := files[..|files| - 1], files[|files| - 1];
      BySizeSorts(front);
      PlaceKeeps(BySize(front), last);
      PlaceSorts(BySize(front), last);
      assert files == front + [last];
      forall size: nat ensures OfSize(BySize(files), size) == OfSize(files, size) {
        PlaceIsStable(BySize(front), last, size);
      }
    }
  }

  // ----- dealing -----

  /** The files worker `w` holds when file `x` went to worker `a[x]`. */
  function Held(files: seq<PlannedFile>, a: seq<nat>, w: nat): seq<PlannedFile>
    requires |files| == |a|
  {
    if files == [] then []
    else Held(files[..|files| - 1], a[..|a| - 1], w) + if a[|a| - 1] == w then [files[|files| - 1]] else []
  }

  lemma SizesGrow(files: seq<PlannedFile>, f: PlannedFile)
    ensures Sizes(files + [f]) == Sizes(files) + [f.size]
    ensures Total(Sizes(files + [f])) == Total(Sizes(files)) + f.size
  {
    assert (Sizes(files) + [f.size])[..|files|] == Sizes(files);
  }

  lemma {:induction false} HeldLoad(files: seq<PlannedFile>, a: seq<nat>, w: nat)
    requires |files| == |a|
    ensures Total(Sizes(Held(files, a, w))) == Load(Sizes(files), a, w)
    decreases |files|
  {
    if files != [] {
      var n := |files| - 1;
      HeldLoad(files[..n], a[..n], w);
      assert Sizes(files)[..n] == Sizes(files[..n]);
      SizesGrow(Held(files[..n], a[..n], w), files[n]);
      assert Held(files[..n], a[..n], w) + [] == Held(files[..n], a[..n], w);
    }
  }

  function Flat(groups: seq<seq<PlannedFile>>): seq<PlannedFile> {
    if groups == [] then [] else Flat(groups[..|groups| - 1]) + groups[|groups| - 1]
  }

  function NonEmpty(groups: seq<seq<PlannedFile>>): seq<seq<PlannedFile>> {
    if groups == [] then []
    else NonEmpty(groups[..|groups| - 1]) + if groups[|groups| - 1] == [] then [] else [groups[|groups| - 1]]
  }

  lemma {:induction false} NonEmptyAre(groups: seq<seq<PlannedFile>>)
    ensures forall g :: g in NonEmpty(groups) <==> g in groups && g != []
    ensures |NonEmpty(groups)| <= |groups| && Flat(NonEmpty(groups)) == Flat(groups)
    decreases |groups|
  {
    if groups != [] {
      var front, last := groups[..|groups| - 1], groups[|groups| - 1];
      NonEmptyAre(front);
      assert groups == front + [last];
      assert (NonEmpty(front) + [last])[..|NonEmpty(front)|] == NonEmpty(front);
      assert NonEmpty(front) + [] == NonEmpty(front) && Flat(front) + [] == Flat(front);
    }
  }

  lemma {:induction false} FlatGrows(groups: seq<seq<PlannedFile>>, w: nat, f: PlannedFile)
    requires w < |groups|
    ensures multiset(Flat(groups[w := groups[w] + [f]])) == multiset(Flat(groups)) + multiset{f}
    decreases |groups|
  {
    var n := |groups| - 1;
    var next := groups[w := groups[w] + [f]];
    if w == n {
      assert next[..n] == groups[..n];
    } else {
      assert next[..n] == groups[..n][w := groups[w] + [f]];
      FlatGrows(groups[..n], w, f);
    }
  }

  lemma {:induction false} FlatEmpty(groups: seq<seq<PlannedFile>>)
    requires forall i | 0 <= i < |groups| :: groups[i] == []
    ensures Flat(groups) == []
    decreases |groups|
  {
    if groups != [] {
      FlatEmpty(groups[..|groups| - 1]);
    }
  }

  /** The first of the least loads. */
  method FirstLightest(loads: seq<nat>) returns (k: nat)
    requires loads != []
    ensures k < |loads| && (forall w | 0 <= w < |loads| :: loads[k] <= loads[w])
    ensures forall w | 0 <= w < k :: loads[k] < loads[w]
  {
    k := 0;
    for i := 1 to |loads|
      invariant k < i && (forall w | 0 <= w < i :: loads[k] <= loads[w]) && forall w | 0 <= w < k :: loads[k] < loads[w]
    {
      if loads[i] < loads[k] { k := i; }
    }
  }

  ghost predicate LoadsAre(p: seq<nat>, a: seq<nat>, loads: seq<nat>) {
    |p| == |a| && forall w | 0 <= w < |loads| :: loads[w] == Load(p, a, w)
  }

  ghost predicate GroupsAre(files: seq<PlannedFile>, a: seq<nat>, groups: seq<seq<PlannedFile>>) {
    |files| == |a| && forall w | 0 <= w < |groups| :: groups[w] == Held(files, a, w)
  }

  lemma GreedyGrows(p: seq<nat>, a: seq<nat>, m: nat, s: nat, k: nat)
    requires Greedy(p, a, m) && Lightest(p, a, m, k)
    ensures Greedy(p + [s], a + [k], m)
    ensures forall w: nat :: Load(p + [s], a + [k], w) == Load(p, a, w) + if k == w then s else 0
  {
    var q, b := p + [s], a + [k];
    assert q[..|p|] == p && b[..|a|] == a;
    forall x | 0 <= x < |b| ensures Lightest(q[..x], b[..x], m, b[x]) {
      if x < |a| {
        assert q[..x] == p[..x] && b[..x] == a[..x];
        assert Lightest(p[..x], a[..x], m, a[x]);
      }
    }
  }

  /** One more item on the lightest worker. */
  lemma LoadsGrow(p: seq<nat>, a: seq<nat>, loads: seq<nat>, s: nat, k: nat)
    requires Greedy(p, a, |loads|) && LoadsAre(p, a, loads) && k < |loads|
    requires (forall w | 0 <= w < |loads| :: loads[k] <= loads[w]) && forall w | 0 <= w < k :: loads[k] < loads[w]
    ensures Greedy(p + [s], a + [k], |loads|) && LoadsAre(p + [s], a + [k], loads[k := loads[k] + s])
  {
    assert Lightest(p, a, |loads|, k);
    GreedyGrows(p, a, |loads|, s, k);
  }

  lemma GroupsGrow(files: seq<PlannedFile>, f: PlannedFile, a: seq<nat>, groups: seq<seq<PlannedFile>>, k: nat)
    requires GroupsAre(files, a, groups) && k < |groups|
    ensures GroupsAre(files + [f], a + [k], groups[k := groups[k] + [f]])
  {
    var next := groups[k := groups[k] + [f]];
    forall w | 0 <= w < |next| ensures next[w] == Held(files + [f], a + [k], w) {}
  }

  /** Deal the files by falling size to whoever has least; workers left without a file get no group. */
  method PartitionGroups(files: seq<PlannedFile>, workers: nat)
    returns (groups: seq<seq<PlannedFile>>, ghost dealt: seq<seq<PlannedFile>>, ghost a: seq<nat>)
    requires workers >= 1
    ensures multiset(Flat(groups)) == multiset(files)
    ensures |groups| <= workers && forall g | g in groups :: g != []
    ensures |a| == |files| == |BySize(files)| && Greedy(Sizes(BySize(files)), a, workers)
    ensures groups == NonEmpty(dealt) && |dealt| == workers && GroupsAre(BySize(files), a, dealt)
    ensures |groups| == Busy(files, workers)
  {
    var changed := BySize(files);
    BySizeSorts(files);
    assert |changed| == |multiset(changed)| == |multiset(files)| == |files|;
    var filled;
    filled, a := Deal(changed, workers);
    groups, dealt := NonEmpty(filled), filled;
    NonEmptyAre(filled);
    GroupCount(files, filled, a);
  }

  lemma PrefixGrows<T>(s: seq<T>, i: nat)
    requires i < |s|
    ensures s[..i + 1] == s[..i] + [s[i]]
  {
  }

  method Deal(changed: seq<PlannedFile>, workers: nat) returns (dealt: seq<seq<PlannedFile>>, ghost a: seq<nat>)
    requires workers >= 1
    ensures |dealt| == workers && |a| == |changed| && Greedy(Sizes(changed), a, workers) && GroupsAre(changed, a, dealt)
    ensures multiset(Flat(dealt)) == multiset(changed)
  {
    dealt, a := seq(workers, _ => []), [];
    var loads: seq<nat> := seq(workers, _ => 0);
    FlatEmpty(dealt);
    for i := 0 to |changed|
      invariant |loads| == |dealt| == workers && |a| == i
      invariant Greedy(Sizes(changed[..i]), a, workers) && LoadsAre(Sizes(changed[..i]), a, loads)
      invariant GroupsAre(changed[..i], a, dealt) && multiset(Flat(dealt)) == multiset(changed[..i])
    {
      var k := FirstLightest(loads);
      LoadsGrow(Sizes(changed[..i]), a, loads, changed[i].size, k);
      SizesGrow(changed[..i], changed[i]);
      GroupsGrow(changed[..i], changed[i], a, dealt, k);
      FlatGrows(dealt, k, changed[i]);
      PrefixGrows(changed, i);
      loads := loads[k := loads[k] + changed[i].size];
      dealt := dealt[k := dealt[k] + [changed[i]]];
      a := a + [k];
    }
    assert changed[..|changed|] == changed;
  }

  // ----- how many groups there are -----

  function Positive(files: seq<PlannedFile>): nat {
    if files == [] then 0 else Positive(files[..|files| - 1]) + if files[|files| - 1].size > 0 then 1 else 0
  }

  /** Groups that receive a file: empty files all go to the first worker that has none yet. */
  function Busy(files: seq<PlannedFile>, workers: nat): nat {
    if Positive(files) >= workers then workers
    else Positive(files) + if |files| > Positive(files) then 1 else 0
  }

  lemma {:induction false} PlaceKeepsPositive(s: seq<PlannedFile>, f: PlannedFile)
    ensures Positive(Place(s, f)) == Positive(s) + if f.size > 0 then 1 else 0
    decreases |s|
  {
    if s == [] || s[|s| - 1].size >= f.size {
      assert (s + [f])[..|s|] == s;
    } else {
      var front, last := s[..|s| - 1], s[|s| - 1];
      PlaceKeepsPositive(front, f);
      assert (Place(front, f) + [last])[..|Place(front, f)|] == Place(front, f);
    }
  }

  lemma {:induction false} SortKeepsPositive(files: seq<PlannedFile>)
    ensures Positive(BySize(files)) == Positive(files) && |BySize(files)| == |files|
    decreases |files|
  {
    if files != [] {
      SortKeepsPositive(files[..|files| - 1]);
      PlaceKeepsPositive(BySize(files[..|files| - 1]), files[|files| - 1]);
      PlaceKeeps(BySize(files[..|files| - 1]), files[|files| - 1]);
      assert |multiset(BySize(files))| == |BySize(files[..|files| - 1])| + 1;
    }
  }

  /** Sorted, the files of positive size come first. */
  lemma {:induction false} PositiveFirst(s: seq<PlannedFile>)
    requires Falling(s)
    ensures Positive(s) <= |s| && forall x | 0 <= x < |s| :: s[x].size > 0 <==> x < Positive(s)
    decreases |s|
  {
    if s != [] {
      var front := s[..|s| - 1];
      PositiveFirst(front);
      forall x | 0 <= x < |front| ensures s[x].size > 0 <==> x < Positive(front) { assert front[x] == s[x]; }
    }
  }

  function Lesser(a: nat, b: nat): nat {
    if a < b then a else b
  }

  /** Exactly the first items have weight. */
  predicate PositiveUpTo(p: seq<nat>, positive: nat) {
    forall y | 0 <= y < |p| :: p[y] > 0 <==> y < positive
  }

  /** The load of a worker after the first `x` items. */
  function LoadAfter(p: seq<nat>, a: seq<nat>, x: nat, w: nat): nat
    requires |p| == |a| && x <= |p|
  {
    Load(p[..x], a[..x], w)
  }

  /** After `x` items exactly the first workers carry load. */
  predicate LoadedUpTo(p: seq<nat>, a: seq<nat>, m: nat, x: nat, busy: nat)
    requires |p| == |a| && x <= |p|
  {
    forall w: nat | w < m :: LoadAfter(p, a, x, w) > 0 <==> w < busy
  }

  lemma FirstFree(p: seq<nat>, a: seq<nat>, m: nat, x: nat, k: nat, at: nat)
    requires |p| == |a| && x <= |p| && Lightest(p[..x], a[..x], m, k) && at < m && LoadedUpTo(p, a, m, x, at)
    ensures k == at
  {
    assert LoadAfter(p, a, x, at) == 0;
    assert LoadAfter(p, a, x, k) == 0;
  }

  /** One more item goes to the first worker without load, and gives it load if it has any weight. */
  lemma NextRound(p: seq<nat>, a: seq<nat>, m: nat, positive: nat, x: nat)
    requires Greedy(p, a, m) && x < |p| && PositiveUpTo(p, positive) && Lesser(x, positive) < m
    requires LoadedUpTo(p, a, m, x, Lesser(x, positive))
    ensures a[x] == Lesser(x, positive) && LoadedUpTo(p, a, m, x + 1, Lesser(x + 1, positive))
  {
    FirstFree(p, a, m, x, a[x], Lesser(x, positive));
    var next := x + 1;
    forall w: nat | w < m ensures LoadAfter(p, a, next, w) > 0 <==> w < Lesser(next, positive) {
      LoadStep(p, a, x, w);
      assert LoadAfter(p, a, x, w) > 0 <==> w < Lesser(x, positive);
    }
  }

  /** As long as a worker is without load, the next one to get an item is the first such worker. */
  lemma {:induction false} FirstRound(p: seq<nat>, a: seq<nat>, m: nat, positive: nat, x: nat)
    requires Greedy(p, a, m) && x <= |p| && (x <= m || positive < m)
    requires PositiveUpTo(p, positive)
    ensures LoadedUpTo(p, a, m, x, Lesser(x, positive))
    ensures forall y | 0 <= y < x :: a[y] == Lesser(y, positive)
    decreases x
  {
    if x > 0 {
      FirstRound(p, a, m, positive, x - 1);
      NextRound(p, a, m, positive, x - 1);
    }
  }

  lemma LoadStep(p: seq<nat>, a: seq<nat>, x: nat, w: nat)
    requires |p| == |a| && x < |p|
    ensures LoadAfter(p, a, x + 1, w) == LoadAfter(p, a, x, w) + if a[x] == w then p[x] else 0
  {
    assert p[..x + 1][..x] == p[..x] && a[..x + 1][..x] == a[..x];
  }

  /** The workers that hold a file are the first `Busy` ones. */
  lemma BusyWorkers(p: seq<nat>, a: seq<nat>, m: nat, positive: nat, w: nat)
    requires Greedy(p, a, m) && w < m && positive <= |p| && PositiveUpTo(p, positive)
    ensures (exists x :: 0 <= x < |a| && a[x] == w) <==>
      w < if positive >= m then m else positive + if |p| > positive then 1 else 0
  {
    if positive >= m {
      FirstRound(p, a, m, positive, m);
      assert a[w] == w;
    } else {
      FirstRound(p, a, m, positive, |p|);
      if w < |p| && w <= positive { assert a[w] == w; }
    }
  }

  lemma {:induction false} HeldWhenAssigned(files: seq<PlannedFile>, a: seq<nat>, w: nat)
    requires |files| == |a|
    ensures Held(files, a, w) != [] <==> exists x :: 0 <= x < |a| && a[x] == w
    decreases |files|
  {
    if files != [] {
      var n := |files| - 1;
      HeldWhenAssigned(files[..n], a[..n], w);
      if x :| 0 <= x < |a[..n]| && a[..n][x] == w { assert a[x] == w; }
      if x :| 0 <= x < |a| && a[x] == w { assert x < n ==> a[..n][x] == w; }
    }
  }

  lemma {:induction false} NonEmptyCount(groups: seq<seq<PlannedFile>>, k: nat)
    requires forall i | 0 <= i < |groups| :: groups[i] != [] <==> i < k
    ensures |NonEmpty(groups)| == Lesser(|groups|, k)
    decreases |groups|
  {
    if groups != [] {
      NonEmptyCount(groups[..|groups| - 1], k);
    }
  }

  /** How many groups are left once the empty ones are dropped. */
  lemma GroupCount(files: seq<PlannedFile>, dealt: seq<seq<PlannedFile>>, a: seq<nat>)
    requires |a| == |BySize(files)| && Greedy(Sizes(BySize(files)), a, |dealt|) && GroupsAre(BySize(files), a, dealt)
    ensures |NonEmpty(dealt)| == Busy(files, |dealt|)
  {
    var changed, m := BySize(files), |dealt|;
    BySizeSorts(files);
    SortKeepsPositive(files);
    PositiveFirst(changed);
    SizesPositive(changed);
    forall w: nat | w < m ensures dealt[w] != [] <==> w < Busy(files, m) {
      HeldWhenAssigned(changed, a, w);
      BusyWorkers(Sizes(changed), a, m, Positive(changed), w);
    }
    NonEmptyCount(dealt, Busy(files, m));
  }

  lemma SizesPositive(s: seq<PlannedFile>)
    requires forall x | 0 <= x < |s| :: s[x].size > 0 <==> x < Positive(s)
    ensures PositiveUpTo(Sizes(s), Positive(s))
  {
  }

  /**
   Every worker gets a group exactly when there are files of positive size for all of them,
   or for all but one and an empty file for that one.
   */
  lemma EveryWorkerIsBusy(files: seq<PlannedFile>, workers: nat)
    requires workers >= 1
    ensures Busy(files, workers) == workers <==>
      Positive(files) >= workers || (Positive(files) == workers - 1 && |files| > Positive(files))
    ensures workers <= |files| ==> (Busy(files, workers) == workers <==> Positive(files) >= workers - 1)
  {
  }

  /** Two empty files, two workers: both go to the first, and the second has nothing to do. */
  lemma TwoEmptyFiles(f: PlannedFile, g: PlannedFile, a: seq<nat>, dealt: seq<seq<PlannedFile>>)
    requires f.size == g.size == 0 && |dealt| == 2
    requires |a| == |BySize([f, g])| && Greedy(Sizes(BySize([f, g])), a, 2) && GroupsAre(BySize([f, g]), a, dealt)
    ensures dealt == [[f, g], []] && NonEmpty(dealt) == [[f, g]]
  {
    BySizeOfTwo(f, g);
    assert Sizes([f, g]) == [0, 0];
    BothOnFirst(a);
    HeldByTwo(f, g);
    assert dealt == [[f, g], []];
    assert dealt[..1] == [[f, g]] && dealt[..1][..0] == [];
    assert NonEmpty(dealt[..1]) == NonEmpty([]) + [[f, g]] && NonEmpty(dealt) == NonEmpty(dealt[..1]) + [];
  }

  lemma BothOnFirst(a: seq<nat>)
    requires Greedy([0, 0], a, 2)
    ensures a == [0, 0]
  {
    FirstRound([0, 0], a, 2, 0, 2);
  }

  lemma BySizeOfTwo(f: PlannedFile, g: PlannedFile)
    requires f.size == g.size
    ensures BySize([f, g]) == [f, g]
  {
    assert [f, g][..1] == [f] && [f][..0] == [];
    assert BySize([f]) == Place(BySize([]), f) == [f];
  }

  lemma HeldByTwo(f: PlannedFile, g: PlannedFile)
    ensures Held([f, g], [0, 0], 0) == [f, g] && Held([f, g], [0, 0], 1) == []
  {
    assert [f, g][..1] == [f] && [f][..0] == [] && [0, 0][..1] == [0] && [0][..0] == [];
    assert forall w: nat :: Held([f], [0], w) == Held([], [], w) + if 0 == w then [f] else [];
  }

  // ----- how good the split is -----

  /** Two groups differ by at most the largest file. */
  lemma GroupsAreBalanced(files: seq<PlannedFile>, a: seq<nat>, workers: nat, largest: nat, v: nat, w: nat)
    requires |a| == |BySize(files)| && Greedy(Sizes(BySize(files)), a, workers) && v < workers && w < workers
    requires forall f | f in files :: f.size <= largest
    ensures Total(Sizes(Held(BySize(files), a, v))) <= Total(Sizes(Held(BySize(files), a, w))) + largest
  {
    var changed := BySize(files);
    BySizeSorts(files);
    forall x | 0 <= x < |changed| ensures Sizes(changed)[x] <= largest {
      assert changed[x] in multiset(changed);
    }
    GreedyBalances(Sizes(changed), a, workers, largest, v, w);
    HeldLoad(changed, a, v);
    HeldLoad(changed, a, w);
  }

  /** Load of a worker when each file goes where `choice` says. */
  function LoadBy(files: seq<PlannedFile>, choice: PlannedFile -> nat, w: nat): nat {
    if files == [] then 0
    else
      LoadBy(files[..|files| - 1], choice, w)
      + if choice(files[|files| - 1]) == w then files[|files| - 1].size else 0
  }

  lemma {:induction false} PlaceKeepsLoad(s: seq<PlannedFile>, f: PlannedFile, choice: PlannedFile -> nat, w: nat)
    ensures LoadBy(Place(s, f), choice, w) == LoadBy(s, choice, w) + if choice(f) == w then f.size else 0
    decreases |s|
  {
    if s == [] || s[|s| - 1].size >= f.size {
      assert (s + [f])[..|s|] == s;
    } else {
      var front, last := s[..|s| - 1], s[|s| - 1];
      PlaceKeepsLoad(front, f, choice, w);
      assert (Place(front, f) + [last])[..|Place(front, f)|] == Place(front, f);
    }
  }

  lemma {:induction false} SortKeepsLoad(files: seq<PlannedFile>, choice: PlannedFile -> nat, w: nat)
    ensures LoadBy(BySize(files), choice, w) == LoadBy(files, choice, w)
    decreases |files|
  {
    if files != [] {
      SortKeepsLoad(files[..|files| - 1], choice, w);
      PlaceKeepsLoad(BySize(files[..|files| - 1]), files[|files| - 1], choice, w);
    }
  }

  function Choices(files: seq<PlannedFile>, choice: PlannedFile -> nat): seq<nat> {
    seq(|files|, i requires 0 <= i < |files| => choice(files[i]))
  }

  lemma {:induction false} ChoicesLoad(files: seq<PlannedFile>, choice: PlannedFile -> nat, w: nat)
    ensures Load(Sizes(files), Choices(files, choice), w) == LoadBy(files, choice, w)
    decreases |files|
  {
    if files != [] {
      var n := |files| - 1;
      ChoicesLoad(files[..n], choice, w);
      assert Sizes(files)[..n] == Sizes(files[..n]) && Choices(files, choice)[..n] == Choices(files[..n], choice);
    }
  }

  /**
   The heaviest group is at most (4/3 - 1/(3m)) times what any other way of giving the
   files to `m` workers needs.
   */
  lemma NearTheBest(files: seq<PlannedFile>, a: seq<nat>, workers: nat, choice: PlannedFile -> nat, cap: nat, w: nat)
    requires |a| == |BySize(files)| && Greedy(Sizes(BySize(files)), a, workers) && w < workers
    requires forall f | f in files :: choice(f) < workers
    requires forall v: nat | v < workers :: LoadBy(files, choice, v) <= cap
    ensures 3 * workers * Total(Sizes(Held(BySize(files), a, w))) <= (4 * workers - 1) * cap
  {
    var changed := BySize(files);
    var best := Choices(changed, choice);
    BySizeSorts(files);
    forall x | 0 <= x < |best| ensures best[x] < workers {
      assert changed[x] in multiset(changed);
    }
    forall v: nat | v < workers ensures Load(Sizes(changed), best, v) <= cap {
      ChoicesLoad(changed, choice, v);
      SortKeepsLoad(files, choice, v);
    }
    LargestFirstBound(Sizes(changed), a, best, workers, cap, w);
    HeldLoad(changed, a, w);
  }
}
