/** Splitting files into size-balanced groups: largest first onto the lightest worker. */
module Partition {

  // ----- assignments -----

  /** Load of worker `w` when item `x` of size `p[x]` is on worker `a[x]`. */
  function Load(p: seq<nat>, a: seq<nat>, w: nat): nat
    requires |p| == |a|
  {
    if p == [] then 0
    else Load(p[..|p| - 1], a[..|a| - 1], w) + if a[|a| - 1] == w then p[|p| - 1] else 0
  }

  function Total(p: seq<nat>): nat {
    if p == [] then 0 else Total(p[..|p| - 1]) + p[|p| - 1]
  }

  function Ones(n: nat): seq<nat> {
    seq(n, _ => 1)
  }

  /** How many items are on a worker. */
  function Count(a: seq<nat>, w: nat): nat {
    Load(Ones(|a|), a, w)
  }

  /** Loads of the first `m` workers together. */
  function Sum(p: seq<nat>, a: seq<nat>, m: nat): nat
    requires |p| == |a|
  {
    if m == 0 then 0 else Sum(p, a, m - 1) + Load(p, a, m - 1)
  }

  predicate Assigns(a: seq<nat>, m: nat) {
    forall x | 0 <= x < |a| :: a[x] < m
  }

  lemma {:induction false} SumUnfolds(p: seq<nat>, a: seq<nat>, m: nat)
    requires |p| == |a| && p != []
    ensures Sum(p, a, m) == Sum(p[..|p| - 1], a[..|a| - 1], m) + if a[|a| - 1] < m then p[|p| - 1] else 0
    decreases m
  {
    if m > 0 {
      SumUnfolds(p, a, m - 1);
    }
  }

  lemma {:induction false} NoItemsNoSum(m: nat)
    ensures Sum([], [], m) == 0
  {
    if m > 0 {
      NoItemsNoSum(m - 1);
    }
  }

  /** No item is lost: the loads add up to the sizes. */
  lemma {:induction false} LoadsAddUp(p: seq<nat>, a: seq<nat>, m: nat)
    requires |p| == |a| && Assigns(a, m)
    ensures Sum(p, a, m) == Total(p)
    decreases |p|
  {
    if p == [] {
      NoItemsNoSum(m);
    } else {
      SumUnfolds(p, a, m);
      LoadsAddUp(p[..|p| - 1], a[..|a| - 1], m);
    }
  }

  lemma {:induction false} TotalOfOnes(n: nat)
    ensures Total(Ones(n)) == n
  {
    if n > 0 {
      assert Ones(n)[..n - 1] == Ones(n - 1);
      TotalOfOnes(n - 1);
    }
  }

  lemma CountsAddUp(a: seq<nat>, m: nat)
    requires Assigns(a, m)
    ensures Sum(Ones(|a|), a, m) == |a|
  {
    LoadsAddUp(Ones(|a|), a, m);
    TotalOfOnes(|a|);
  }

  /** Bounds on each worker are bounds on the sum. */
  lemma {:induction false} SumAtMost(p: seq<nat>, a: seq<nat>, m: nat, cap: nat)
    requires |p| == |a| && forall w: nat | w < m :: Load(p, a, w) <= cap
    ensures Sum(p, a, m) <= m * cap
    decreases m
  {
    if m > 0 {
      SumAtMost(p, a, m - 1, cap);
    }
  }

  lemma {:induction false} SumAtLeast(p: seq<nat>, a: seq<nat>, m: nat, floor: nat)
    requires |p| == |a| && forall w: nat | w < m :: floor <= Load(p, a, w)
    ensures m * floor <= Sum(p, a, m)
    decreases m
  {
    if m > 0 {
      SumAtLeast(p, a, m - 1, floor);
    }
  }

  /** Two counts per worker, bounded together. */
  lemma {:induction false} CountsAtMostTwo(a: seq<nat>, b: seq<nat>, m: nat)
    requires forall w: nat | w < m :: Count(a, w) + Count(b, w) <= 2
    ensures Sum(Ones(|a|), a, m) + Sum(Ones(|b|), b, m) <= 2 * m
    decreases m
  {
    if m > 0 {
      CountsAtMostTwo(a, b, m - 1);
      assert Count(a, m - 1) + Count(b, m - 1) <= 2;
    }
  }

  lemma {:induction false} CountsAtLeastTwo(a: seq<nat>, b: seq<nat>, m: nat)
    requires forall w: nat | w < m :: Count(a, w) + Count(b, w) >= 2
    ensures Sum(Ones(|a|), a, m) + Sum(Ones(|b|), b, m) >= 2 * m
    decreases m
  {
    if m > 0 {
      CountsAtLeastTwo(a, b, m - 1);
      assert Count(a, m - 1) + Count(b, m - 1) >= 2;
    }
  }

  lemma CountUnfolds(a: seq<nat>, w: nat)
    requires a != []
    ensures Count(a, w) == Count(a[..|a| - 1], w) + if a[|a| - 1] == w then 1 else 0
  {
    assert Ones(|a|)[..|a| - 1] == Ones(|a| - 1);
  }

  /** A worker's items weigh at least their number times the least size. */
  lemma {:induction false} LoadCounts(p: seq<nat>, a: seq<nat>, w: nat, least: nat)
    requires |p| == |a| && forall x | 0 <= x < |p| :: least <= p[x]
    ensures Count(a, w) * least <= Load(p, a, w)
    decreases |p|
  {
    if p != [] {
      LoadCounts(p[..|p| - 1], a[..|a| - 1], w, least);
      CountUnfolds(a, w);
    }
  }

  lemma {:induction false} LoadHolds(p: seq<nat>, a: seq<nat>, x: nat)
    requires |p| == |a| && x < |p|
    ensures p[x] <= Load(p, a, a[x]) && 1 <= Count(a, a[x])
    decreases |p|
  {
    CountUnfolds(a, a[x]);
    if x < |p| - 1 {
      LoadHolds(p[..|p| - 1], a[..|a| - 1], x);
    }
  }

  /** Two items on one worker both weigh on it. */
  lemma {:induction false} LoadHoldsTwo(p: seq<nat>, a: seq<nat>, x: nat, y: nat)
    requires |p| == |a| && x < y < |p| && a[x] == a[y]
    ensures p[x] + p[y] <= Load(p, a, a[x])
    decreases |p|
  {
    if y < |p| - 1 {
      LoadHoldsTwo(p[..|p| - 1], a[..|a| - 1], x, y);
    } else {
      LoadHolds(p[..|p| - 1], a[..|a| - 1], x);
    }
  }

  /** A counted item can be pointed at. */
  lemma {:induction false} Counted(a: seq<nat>, w: nat) returns (x: nat)
    requires Count(a, w) >= 1
    ensures x < |a| && a[x] == w
    decreases |a|
  {
    CountUnfolds(a, w);
    if a[|a| - 1] == w {
      x := |a| - 1;
    } else {
      x := Counted(a[..|a| - 1], w);
    }
  }

  lemma {:induction false} CountedTwice(a: seq<nat>, w: nat, x: nat) returns (y: nat)
    requires Count(a, w) >= 2 && x < |a| && a[x] == w
    ensures y < |a| && y != x && a[y] == w
    decreases |a|
  {
    CountUnfolds(a, w);
    var n := |a| - 1;
    if x == n {
      y := Counted(a[..n], w);
    } else if a[n] == w {
      y := n;
    } else {
      y := CountedTwice(a[..n], w, x);
    }
  }

  lemma {:induction false} PrefixLoad(p: seq<nat>, a: seq<nat>, k: nat, w: nat)
    requires |p| == |a| && k <= |p|
    ensures Load(p[..k], a[..k], w) <= Load(p, a, w)
    decreases |p|
  {
    if k == |p| {
      assert p[..k] == p && a[..k] == a;
    } else {
      assert p[..|p| - 1][..k] == p[..k] && a[..|a| - 1][..k] == a[..k];
      PrefixLoad(p[..|p| - 1], a[..|a| - 1], k, w);
    }
  }

  // ----- the greedy rule -----

  predicate Descending(p: seq<nat>) {
    forall x, y | 0 <= x <= y < |p| :: p[y] <= p[x]
  }

  /** Every item went to the first of the workers that were lightest at its turn. */
  ghost predicate Greedy(p: seq<nat>, a: seq<nat>, m: nat) {
    |p| == |a| && forall x | 0 <= x < |a| :: Lightest(p[..x], a[..x], m, a[x])
  }

  ghost predicate Lightest(p: seq<nat>, a: seq<nat>, m: nat, k: nat) {
    && |p| == |a| && k < m
    && (forall w: nat | w < m :: Load(p, a, k) <= Load(p, a, w))
    && forall w: nat | w < k :: Load(p, a, k) < Load(p, a, w)
  }

  lemma GreedyPrefix(p: seq<nat>, a: seq<nat>, m: nat)
    requires Greedy(p, a, m) && p != []
    ensures Greedy(p[..|p| - 1], a[..|a| - 1], m) && Lightest(p[..|p| - 1], a[..|a| - 1], m, a[|a| - 1])
    ensures Assigns(a, m)
  {
    var q, b := p[..|p| - 1], a[..|a| - 1];
    forall x | 0 <= x < |b| ensures Lightest(q[..x], b[..x], m, b[x]) {
      assert q[..x] == p[..x] && b[..x] == a[..x];
      assert Lightest(p[..x], a[..x], m, a[x]);
    }
    forall x | 0 <= x < |a| ensures a[x] < m {
      assert Lightest(p[..x], a[..x], m, a[x]);
    }
  }

  /** Any two workers' loads differ by at most the largest item. */
  lemma {:induction false} GreedyBalances(p: seq<nat>, a: seq<nat>, m: nat, largest: nat, v: nat, w: nat)
    requires Greedy(p, a, m) && v < m && w < m && forall x | 0 <= x < |p| :: p[x] <= largest
    ensures Load(p, a, v) <= Load(p, a, w) + largest
    decreases |p|
  {
    if p != [] {
      GreedyPrefix(p, a, m);
      GreedyBalances(p[..|p| - 1], a[..|a| - 1], m, largest, v, w);
    }
  }

  /** The lightest worker carries at most the average. */
  lemma LightestIsBelowAverage(p: seq<nat>, a: seq<nat>, m: nat, k: nat)
    requires Lightest(p, a, m, k) && Assigns(a, m)
    ensures m * Load(p, a, k) <= Total(p)
  {
    SumAtLeast(p, a, m, Load(p, a, k));
    LoadsAddUp(p, a, m);
  }

  /** Some assignment of the same items keeps every worker within `cap`. */
  ghost predicate Feasible(p: seq<nat>, best: seq<nat>, m: nat, cap: nat) {
    |p| == |best| && Assigns(best, m) && forall w: nat | w < m :: Load(p, best, w) <= cap
  }

  lemma FeasiblePrefix(p: seq<nat>, best: seq<nat>, m: nat, cap: nat)
    requires Feasible(p, best, m, cap) && p != []
    ensures Feasible(p[..|p| - 1], best[..|best| - 1], m, cap)
  {
    var q, front := p[..|p| - 1], best[..|best| - 1];
    forall w: nat | w < m ensures Load(q, front, w) <= cap {
      PrefixLoad(p, best, |p| - 1, w);
    }
  }

  lemma FeasibleBounds(p: seq<nat>, best: seq<nat>, m: nat, cap: nat)
    requires Feasible(p, best, m, cap)
    ensures Total(p) <= m * cap && forall x | 0 <= x < |p| :: p[x] <= cap
  {
    SumAtMost(p, best, m, cap);
    LoadsAddUp(p, best, m);
    forall x | 0 <= x < |p| ensures p[x] <= cap {
      LoadHolds(p, best, x);
    }
  }

  /** Items larger than a third of the cap: at most two fit on a worker, and large ones only beside small ones. */
  lemma PairsFit(p: seq<nat>, best: seq<nat>, m: nat, cap: nat, i: nat)
    requires Descending(p) && Feasible(p, best, m, cap) && p != [] && 3 * p[|p| - 1] > cap
    requires i < |p| && i + |p| >= 2 * m
    ensures p[i] + p[|p| - 1] <= cap
  {
    var j := |p| - 1;
    if p[i] + p[j] > cap {
      var head := best[..i + 1];
      forall w: nat | w < m ensures Count(best, w) + Count(head, w) <= 2 {
        AtMostTwo(p, best, m, cap, i, w);
      }
      CountsAtMostTwo(best, head, m);
      CountsAddUp(best, m);
      CountsAddUp(head, m);
      assert false;
    }
  }

  lemma {:induction false} PrefixCount(a: seq<nat>, k: nat, w: nat)
    requires k <= |a|
    ensures Count(a[..k], w) <= Count(a, w)
  {
    assert Ones(|a|)[..k] == Ones(k);
    PrefixLoad(Ones(|a|), a, k, w);
  }

  /** A worker holds at most two large items; with one of the `i + 1` largest, only that one. */
  lemma AtMostTwo(p: seq<nat>, best: seq<nat>, m: nat, cap: nat, i: nat, w: nat)
    requires Descending(p) && Feasible(p, best, m, cap) && p != [] && 3 * p[|p| - 1] > cap
    requires i < |p| && p[i] + p[|p| - 1] > cap && w < m
    ensures Count(best, w) + Count(best[..i + 1], w) <= 2
  {
    LoadCounts(p, best, w, p[|p| - 1]);
    FewerThanThree(Count(best, w), p[|p| - 1], Load(p, best, w), cap);
    PrefixCount(best, i + 1, w);
    if Count(best[..i + 1], w) >= 1 && Count(best, w) >= 2 {
      PairIsHeavy(p, best, i, w);
    }
  }

  lemma ThreeWeighMore(count: nat, least: nat)
    ensures count >= 3 ==> count * least >= 3 * least
  {
    if count >= 3 {
      assert (count - 3) * least >= 0;
    }
  }

  lemma FewerThanThree(count: nat, least: nat, load: nat, cap: nat)
    requires count * least <= load <= cap < 3 * least
    ensures count <= 2
  {
    ThreeWeighMore(count, least);
  }

  lemma PairIsHeavy(p: seq<nat>, best: seq<nat>, i: nat, w: nat)
    requires Descending(p) && |p| == |best| && i < |p| && Count(best[..i + 1], w) >= 1 && Count(best, w) >= 2
    ensures p[i] + p[|p| - 1] <= Load(p, best, w)
  {
    var x := Counted(best[..i + 1], w);
    assert best[x] == w;
    var y := CountedTwice(best, w, x);
    LoadHoldsTwo(p, best, if x < y then x else y, if x < y then y else x);
  }

  /** At most two large items per worker. */
  lemma FewItems(p: seq<nat>, best: seq<nat>, m: nat, cap: nat)
    requires Descending(p) && Feasible(p, best, m, cap) && p != [] && 3 * p[|p| - 1] > cap
    ensures |p| <= 2 * m
  {
    forall w: nat | w < m ensures Load(Ones(|best|), best, w) <= 2 {
      LoadCounts(p, best, w, p[|p| - 1]);
      FewerThanThree(Count(best, w), p[|p| - 1], Load(p, best, w), cap);
    }
    SumAtMost(Ones(|best|), best, m, 2);
    CountsAddUp(best, m);
  }

  /** However items are assigned, some worker carries no more than the single item `i` when few are. */
  lemma SomeWorkerIsLight(p: seq<nat>, a: seq<nat>, m: nat, i: nat) returns (w: nat)
    requires Descending(p) && |p| == |a| && Assigns(a, m) && i < |p| && |p| + i < 2 * m
    ensures w < m && Load(p, a, w) <= p[i]
  {
    if forall v: nat | v < m :: Load(p, a, v) > p[i] {
      var head := a[..i];
      forall v: nat | v < m ensures Count(a, v) + Count(head, v) >= 2 {
        HeavyCountsTwice(p, a, i, v);
      }
      CountsAtLeastTwo(a, head, m);
      CountsAddUp(a, m);
      CountsAddUp(head, m);
      assert false;
    }
    w :| w < m && Load(p, a, w) <= p[i];
  }

  /** A worker above `p[i]` holds two items, or one of the `i` largest. */
  lemma HeavyCountsTwice(p: seq<nat>, a: seq<nat>, i: nat, w: nat)
    requires Descending(p) && |p| == |a| && i < |p| && Load(p, a, w) > p[i]
    ensures Count(a, w) + Count(a[..i], w) >= 2
  {
    NoCountNoLoad(p, a, w);
    if Count(a, w) == 1 {
      var x := Counted(a, w);
      OneCountOneItem(p, a, w, x);
      if x < i {
        LoadHolds(Ones(i), a[..i], x);
      }
    }
  }

  lemma {:induction false} NoCountNoLoad(p: seq<nat>, a: seq<nat>, w: nat)
    requires |p| == |a|
    ensures Count(a, w) == 0 ==> Load(p, a, w) == 0
    decreases |p|
  {
    if p != [] {
      CountUnfolds(a, w);
      NoCountNoLoad(p[..|p| - 1], a[..|a| - 1], w);
    }
  }

  lemma {:induction false} OneCountOneItem(p: seq<nat>, a: seq<nat>, w: nat, x: nat)
    requires |p| == |a| && Count(a, w) == 1 && x < |a| && a[x] == w
    ensures Load(p, a, w) == p[x]
    decreases |p|
  {
    var n := |p| - 1;
    CountUnfolds(a, w);
    if x == n {
      NoCountNoLoad(p[..n], a[..n], w);
    } else {
      LoadHolds(p[..n], a[..n], x);
      OneCountOneItem(p[..n], a[..n], w, x);
    }
  }

  lemma EmptyWorker(p: seq<nat>, a: seq<nat>, m: nat) returns (w: nat)
    requires |p| == |a| && Assigns(a, m) && |p| < m
    ensures w < m && Load(p, a, w) == 0
  {
    if forall v: nat | v < m :: Count(a, v) >= 1 {
      forall v: nat | v < m ensures 1 <= Load(Ones(|a|), a, v) {
        assert Count(a, v) >= 1;
      }
      SumAtLeast(Ones(|a|), a, m, 1);
      CountsAddUp(a, m);
      assert false;
    }
    w :| w < m && Count(a, w) < 1;
    NoCountNoLoad(p, a, w);
  }

  /** A large item lands within the cap. */
  lemma LargeItemFits(p: seq<nat>, a: seq<nat>, best: seq<nat>, m: nat, cap: nat)
    requires Descending(p) && p != [] && Feasible(p, best, m, cap) && 3 * p[|p| - 1] > cap && |a| == |p|
    requires Assigns(a, m) && Lightest(p[..|p| - 1], a[..|a| - 1], m, a[|a| - 1])
    ensures Load(p, a, a[|a| - 1]) <= cap
  {
    var n := |p| - 1;
    var q, b := p[..n], a[..n];
    FewItems(p, best, m, cap);
    FeasibleBounds(p, best, m, cap);
    if n < m {
      var w := EmptyWorker(q, b, m);
    } else {
      var i := 2 * m - 1 - n;
      var w := SomeWorkerIsLight(q, b, m, i);
      PairsFit(p, best, m, cap, i);
    }
  }

  /** A small item lands within four thirds of it. */
  lemma SmallItemFits(p: seq<nat>, a: seq<nat>, best: seq<nat>, m: nat, cap: nat)
    requires p != [] && Feasible(p, best, m, cap) && 3 * p[|p| - 1] <= cap && |a| == |p|
    requires Assigns(a, m) && Lightest(p[..|p| - 1], a[..|a| - 1], m, a[|a| - 1])
    ensures 3 * m * Load(p, a, a[|a| - 1]) <= (4 * m - 1) * cap
  {
    var n := |p| - 1;
    var l, s := Load(p[..n], a[..n], a[n]), p[n];
    LightestIsBelowAverage(p[..n], a[..n], m, a[n]);
    FeasibleBounds(p, best, m, cap);
    assert m * l + s <= m * cap;
    ThirdsArithmetic(m, l, s, cap);
  }

  lemma ThirdsArithmetic(m: nat, l: nat, s: nat, cap: nat)
    requires m >= 1 && m * l + s <= m * cap && 3 * s <= cap
    ensures 3 * m * (l + s) <= (4 * m - 1) * cap
  {
    assert 3 * m * (l + s) == 3 * (m * l + s) + (m - 1) * (3 * s);
    assert (m - 1) * (3 * s) <= (m - 1) * cap;
    assert 3 * (m * cap) + (m - 1) * cap == (4 * m - 1) * cap;
  }

  /** Largest first: no worker exceeds (4/3 - 1/(3m)) times what any assignment over `m` workers needs. */
  lemma {:induction false} LargestFirstBound(p: seq<nat>, a: seq<nat>, best: seq<nat>, m: nat, cap: nat, w: nat)
    requires Descending(p) && Greedy(p, a, m) && Feasible(p, best, m, cap) && w < m
    ensures 3 * m * Load(p, a, w) <= (4 * m - 1) * cap
    decreases |p|
  {
    if p == [] {
      ThirdsArithmetic(m, 0, 0, cap);
    } else {
      GreedyPrefix(p, a, m);
      if w == a[|a| - 1] {
        LastItemFits(p, a, best, m, cap);
      } else {
        FeasiblePrefix(p, best, m, cap);
        LargestFirstBound(p[..|p| - 1], a[..|a| - 1], best[..|best| - 1], m, cap, w);
      }
    }
  }

  lemma LastItemFits(p: seq<nat>, a: seq<nat>, best: seq<nat>, m: nat, cap: nat)
    requires Descending(p) && p != [] && Feasible(p, best, m, cap) && |a| == |p|
    requires Assigns(a, m) && Lightest(p[..|p| - 1], a[..|a| - 1], m, a[|a| - 1])
    ensures 3 * m * Load(p, a, a[|a| - 1]) <= (4 * m - 1) * cap
  {
    if 3 * p[|p| - 1] <= cap {
      SmallItemFits(p, a, best, m, cap);
    } else {
      LargeItemFits(p, a, best, m, cap);
      CapIsWithin(m, Load(p, a, a[|a| - 1]), cap);
    }
  }

  lemma CapIsWithin(m: nat, l: nat, cap: nat)
    requires m >= 1 && l <= cap
    ensures 3 * m * l <= (4 * m - 1) * cap
  {
    assert 3 * m * l <= 3 * m * cap;
    assert (4 * m - 1) * cap == 3 * m * cap + (m - 1) * cap;
    assert (m - 1) * cap >= 0;
  }
}
