/**
 The history graph: which commits a commit continues.

 Both backends walk it. The walk of the in-memory store uses a stack, the prune module
 and the graph queries walk by level, SQLite uses a recursive query; all of them are
 held to the one definition of ancestors below.
 */
module Ancestry {
  import opened Base

  /** Parent links by commit. */
  type Graph = map<CommitId, set<CommitId>>

  function ParentsOf(g: Graph, c: CommitId): set<CommitId> {
    if c in g then g[c] else {}
  }

  /** `a` is reached from `c` through exactly `n` parent links. */
  ghost predicate Steps(g: Graph, c: CommitId, a: CommitId, n: nat)
    decreases n
  {
    if n == 0 then c == a else exists p :: p in ParentsOf(g, c) && Steps(g, p, a, n - 1)
  }

  /** `c` continues `a`: one or more parent links lead from `c` to `a`. */
  ghost predicate Descends(g: Graph, c: CommitId, a: CommitId) {
    exists n: nat :: n > 0 && Steps(g, c, a, n)
  }

  /** Every commit named by the graph, stored or only named as a parent. */
  ghost function Nodes(g: Graph): set<CommitId> {
    g.Keys + (set c, p | c in g && p in g[c] :: p)
  }

  /** Every commit reachable through parent links. */
  ghost function Ancestors(g: Graph, c: CommitId): set<CommitId> {
    set a | a in Nodes(g) && Descends(g, c, a)
  }

  /** What a commit inherits from: itself and its ancestors. */
  ghost function Line(g: Graph, c: CommitId): set<CommitId> {
    {c} + Ancestors(g, c)
  }

  /** Every parent is recorded before its child. */
  ghost predicate Ordered(g: Graph, seqs: map<CommitId, nat>) {
    && (forall c :: c in g <==> c in seqs)
    && forall c, p | c in g && p in g[c] :: p in seqs && seqs[p] < seqs[c]
  }

  // ----- paths -----

  lemma {:induction false} StepsCompose(g: Graph, c: CommitId, b: CommitId, a: CommitId, m: nat, n: nat)
    requires Steps(g, c, b, m) && Steps(g, b, a, n)
    ensures Steps(g, c, a, m + n)
    decreases m
  {
    if m > 0 {
      var p :| p in ParentsOf(g, c) && Steps(g, p, b, m - 1);
      StepsCompose(g, p, b, a, m - 1, n);
    }
  }

  lemma {:induction false} StepsEndInGraph(g: Graph, c: CommitId, a: CommitId, n: nat)
    requires n > 0 && Steps(g, c, a, n)
    ensures a in Nodes(g)
    decreases n
  {
    var p :| p in ParentsOf(g, c) && Steps(g, p, a, n - 1);
    if n > 1 {
      StepsEndInGraph(g, p, a, n - 1);
    }
  }

  /** Membership in the ancestor set is reachability. */
  lemma AncestorsAreReached(g: Graph, c: CommitId, a: CommitId)
    ensures a in Ancestors(g, c) <==> Descends(g, c, a)
  {
    if Descends(g, c, a) {
      var n: nat :| n > 0 && Steps(g, c, a, n);
      StepsEndInGraph(g, c, a, n);
    }
  }

  lemma DescendsTransitive(g: Graph, c: CommitId, b: CommitId, a: CommitId)
    requires Descends(g, c, b) && Descends(g, b, a)
    ensures Descends(g, c, a)
  {
    var m: nat :| m > 0 && Steps(g, c, b, m);
    var n: nat :| n > 0 && Steps(g, b, a, n);
    StepsCompose(g, c, b, a, m, n);
  }

  lemma ParentIsAncestor(g: Graph, c: CommitId, p: CommitId)
    requires p in ParentsOf(g, c)
    ensures Descends(g, c, p)
  {
    assert Steps(g, p, p, 0);
    assert Steps(g, c, p, 1);
  }

  /** Descent is a parent, or descent from a parent. */
  lemma DescendsUnfold(g: Graph, c: CommitId, a: CommitId)
    ensures Descends(g, c, a) <==> exists p :: p in ParentsOf(g, c) && (p == a || Descends(g, p, a))
  {
    if Descends(g, c, a) {
      var n: nat :| n > 0 && Steps(g, c, a, n);
      var p :| p in ParentsOf(g, c) && Steps(g, p, a, n - 1);
      if n > 1 {
        assert Descends(g, p, a);
      }
    }
    forall p | p in ParentsOf(g, c) && (p == a || Descends(g, p, a)) ensures Descends(g, c, a) {
      ParentIsAncestor(g, c, p);
      if p != a {
        DescendsTransitive(g, c, p, a);
      }
    }
  }

  /** The line of an ancestor lies inside the line of its descendant. */
  lemma LineNests(g: Graph, c: CommitId, b: CommitId)
    requires b in Line(g, c)
    ensures Line(g, b) <= Line(g, c)
  {
    forall a | a in Line(g, b) ensures a in Line(g, c) {
      if a != b && b != c {
        DescendsTransitive(g, c, b, a);
        AncestorsAreReached(g, c, a);
      }
    }
  }

  /** A set that holds the parents of `c` and is closed under parents holds every ancestor. */
  lemma {:induction false} ClosedHoldsSteps(g: Graph, s: set<CommitId>, c: CommitId, a: CommitId, n: nat)
    requires n > 0 && Steps(g, c, a, n)
    requires ParentsOf(g, c) <= s
    requires forall b | b in s :: ParentsOf(g, b) <= s
    ensures a in s
    decreases n
  {
    var p :| p in ParentsOf(g, c) && Steps(g, p, a, n - 1);
    if n > 1 {
      ClosedHoldsSteps(g, s, p, a, n - 1);
    }
  }

  lemma ClosedHoldsAncestors(g: Graph, s: set<CommitId>, c: CommitId)
    requires ParentsOf(g, c) <= s
    requires forall b | b in s :: ParentsOf(g, b) <= s
    ensures Ancestors(g, c) <= s
  {
    forall a | a in Ancestors(g, c) ensures a in s {
      var n: nat :| n > 0 && Steps(g, c, a, n);
      ClosedHoldsSteps(g, s, c, a, n);
    }
  }

  // ----- order -----

  lemma {:induction false} StepsGoBack(g: Graph, seqs: map<CommitId, nat>, c: CommitId, a: CommitId, n: nat)
    requires Ordered(g, seqs) && n > 0 && Steps(g, c, a, n)
    ensures c in seqs && a in seqs && seqs[a] < seqs[c]
    decreases n
  {
    var p :| p in ParentsOf(g, c) && Steps(g, p, a, n - 1);
    if n > 1 {
      StepsGoBack(g, seqs, p, a, n - 1);
    }
  }

  /** An ancestor is recorded earlier, so the graph has no cycle. */
  lemma DescendsGoesBack(g: Graph, seqs: map<CommitId, nat>, c: CommitId, a: CommitId)
    requires Ordered(g, seqs) && Descends(g, c, a)
    ensures c in seqs && a in seqs && seqs[a] < seqs[c]
  {
    var n: nat :| n > 0 && Steps(g, c, a, n);
    StepsGoBack(g, seqs, c, a, n);
  }

  lemma LineIsStored(g: Graph, seqs: map<CommitId, nat>, c: CommitId)
    requires Ordered(g, seqs) && c in seqs
    ensures Line(g, c) <= seqs.Keys
    ensures forall a | a in Line(g, c) :: seqs[a] <= seqs[c]
  {
    forall a | a in Line(g, c) ensures a in seqs && seqs[a] <= seqs[c] {
      if a != c {
        DescendsGoesBack(g, seqs, c, a);
      }
    }
  }

  // ----- forests -----

  /** Every commit continues at most one other. */
  ghost predicate Forest(g: Graph) {
    forall c, p, q | c in g && p in g[c] && q in g[c] :: p == q
  }

  /** In a forest the ancestors of a commit form a chain. */
  lemma {:induction false} ForestLineIsChain(g: Graph, c: CommitId, a: CommitId, b: CommitId, m: nat, n: nat)
    requires Forest(g) && m <= n && Steps(g, c, a, m) && Steps(g, c, b, n)
    ensures Steps(g, a, b, n - m)
    decreases m
  {
    if m > 0 {
      var p :| p in ParentsOf(g, c) && Steps(g, p, a, m - 1);
      var q :| q in ParentsOf(g, c) && Steps(g, q, b, n - 1);
      assert p == q;
      ForestLineIsChain(g, p, a, b, m - 1, n - 1);
    }
  }

  lemma ForestComparable(g: Graph, c: CommitId, a: CommitId, b: CommitId)
    requires Forest(g) && a in Line(g, c) && b in Line(g, c)
    ensures a == b || Descends(g, a, b) || Descends(g, b, a)
  {
    var m := Distance(g, c, a);
    var n := Distance(g, c, b);
    if m <= n {
      ForestLineIsChain(g, c, a, b, m, n);
      assert n - m > 0 ==> Descends(g, a, b);
    } else {
      ForestLineIsChain(g, c, b, a, n, m);
      assert Descends(g, b, a);
    }
  }

  /** Some number of links from `c` to a member of its line. */
  ghost function Distance(g: Graph, c: CommitId, a: CommitId): (n: nat)
    requires a in Line(g, c)
    ensures Steps(g, c, a, n)
  {
    if a == c then 0 else var n: nat :| n > 0 && Steps(g, c, a, n); n
  }

  // ----- contraction -----

  /** Remove `from`: its children continue its parents. */
  function Contract(g: Graph, from: CommitId): Graph {
    map c | c in g && c != from ::
      if from in g[c] then g[c] - {from} + ParentsOf(g, from) else g[c]
  }

  lemma {:induction false} ContractedStepsExist(g: Graph, from: CommitId, c: CommitId, a: CommitId, n: nat)
    requires from !in ParentsOf(g, from) && c != from && a != from
    requires n > 0 && Steps(g, c, a, n)
    ensures Descends(Contract(g, from), c, a)
    decreases n
  {
    var h := Contract(g, from);
    var p :| p in ParentsOf(g, c) && Steps(g, p, a, n - 1);
    if p == from {
      var q :| q in ParentsOf(g, from) && Steps(g, q, a, n - 2);
      ParentIsAncestor(h, c, q);
      if n > 2 {
        ContractedStepsExist(g, from, q, a, n - 2);
        DescendsTransitive(h, c, q, a);
      }
    } else {
      ParentIsAncestor(h, c, p);
      if n > 1 {
        ContractedStepsExist(g, from, p, a, n - 1);
        DescendsTransitive(h, c, p, a);
      }
    }
  }

  lemma {:induction false} ContractedStepsWereThere(g: Graph, from: CommitId, c: CommitId, a: CommitId, n: nat)
    requires n > 0 && Steps(Contract(g, from), c, a, n)
    ensures Descends(g, c, a)
    decreases n
  {
    var h := Contract(g, from);
    var p :| p in ParentsOf(h, c) && Steps(h, p, a, n - 1);
    if p in g[c] {
      ParentIsAncestor(g, c, p);
    } else {
      ParentIsAncestor(g, c, from);
      ParentIsAncestor(g, from, p);
      DescendsTransitive(g, c, from, p);
    }
    if n > 1 {
      ContractedStepsWereThere(g, from, p, a, n - 1);
      DescendsTransitive(g, c, p, a);
    }
  }

  /** Contraction does not change reachability between the commits that stay. */
  lemma ContractKeepsReachability(g: Graph, from: CommitId, c: CommitId, a: CommitId)
    requires from !in ParentsOf(g, from) && c != from && a != from
    ensures Descends(Contract(g, from), c, a) <==> Descends(g, c, a)
  {
    if Descends(g, c, a) {
      var n: nat :| n > 0 && Steps(g, c, a, n);
      ContractedStepsExist(g, from, c, a, n);
    }
    if Descends(Contract(g, from), c, a) {
      var n: nat :| n > 0 && Steps(Contract(g, from), c, a, n);
      ContractedStepsWereThere(g, from, c, a, n);
    }
  }

  lemma ContractKeepsLine(g: Graph, seqs: map<CommitId, nat>, from: CommitId, c: CommitId)
    requires Ordered(g, seqs) && c != from
    ensures Line(Contract(g, from), c) == Line(g, c) - {from}
  {
    var h := Contract(g, from);
    forall a ensures a in Line(h, c) <==> a in Line(g, c) - {from} {
      AncestorsAreReached(h, c, a);
      AncestorsAreReached(g, c, a);
      if a != from {
        ContractKeepsReachability(g, from, c, a);
      } else if a in Nodes(h) && a in Ancestors(h, c) {
        ContractForgets(g, seqs, from);
        assert false;
      }
    }
  }

  lemma ContractForgets(g: Graph, seqs: map<CommitId, nat>, from: CommitId)
    requires Ordered(g, seqs)
    ensures from !in Nodes(Contract(g, from))
    ensures Ordered(Contract(g, from), seqs - {from})
  {
  }

  lemma ContractKeepsForest(g: Graph, from: CommitId)
    requires Forest(g)
    ensures Forest(Contract(g, from))
  {
    var h := Contract(g, from);
    forall c, p, q | c in h && p in h[c] && q in h[c] ensures p == q {
      if from in g[c] {
        assert forall x | x in g[c] :: x == from;
      }
    }
  }
}
