/** Sorted, duplicate-free listings: how ordered sets are walked and lists made canonical. */
module Order {
  import opened Base

  predicate Ascending(s: seq<CommitId>) {
    forall i, j | 0 <= i < j < |s| :: s[i] < s[j]
  }

  predicate IsLeast(m: CommitId, s: set<CommitId>) {
    m in s && forall x | x in s :: m <= x
  }

  lemma {:induction false} LeastExists(s: set<CommitId>)
    requires s != {}
    ensures exists m :: IsLeast(m, s)
    decreases s
  {
    if forall y :: y !in s { assert false; }
    var y :| y in s;
    if s == {y} {
      assert IsLeast(y, s);
    } else {
      LeastExists(s - {y});
      var k :| IsLeast(k, s - {y});
      assert s == (s - {y}) + {y};
      assert IsLeast(if k < y then k else y, s);
    }
  }

  function Least(s: set<CommitId>): (m: CommitId)
    requires s != {}
    ensures IsLeast(m, s)
  {
    LeastExists(s);
    var m :| IsLeast(m, s);
    m
  }

  /** The members of a set in ascending order. */
  function InOrder(s: set<CommitId>): seq<CommitId> {
    if s == {} then [] else [Least(s)] + InOrder(s - {Least(s)})
  }

  lemma {:induction false} InOrderLists(s: set<CommitId>)
    ensures Ascending(InOrder(s)) && Elements(InOrder(s)) == s && |InOrder(s)| == |s|
    decreases s
  {
    if s != {} {
      var m := Least(s);
      InOrderLists(s - {m});
      LeastInFront(s, m, InOrder(s - {m}));
    }
  }

  lemma LeastInFront(s: set<CommitId>, m: CommitId, rest: seq<CommitId>)
    requires IsLeast(m, s) && Ascending(rest) && Elements(rest) == s - {m}
    ensures Ascending([m] + rest) && Elements([m] + rest) == s
  {
    forall i | 0 <= i < |rest| ensures m < rest[i] {
      assert rest[i] in Elements(rest);
    }
    assert {m} + (s - {m}) == s;
  }

  lemma InOrderMembers(s: set<CommitId>)
    ensures forall x :: x in InOrder(s) <==> x in s
    ensures Ascending(InOrder(s))
  {
    InOrderLists(s);
    forall x ensures x in InOrder(s) <==> x in s {
      assert x in InOrder(s) <==> x in Elements(InOrder(s));
    }
  }

  lemma {:induction false} LargestLast(s: set<CommitId>, m: CommitId)
    requires forall x | x in s :: x < m
    ensures InOrder(s + {m}) == InOrder(s) + [m]
    decreases s
  {
    if s == {} {
      assert s + {m} == {m};
      assert Least({m}) == m && {m} - {m} == {};
    } else {
      var l := Least(s);
      assert IsLeast(l, s + {m});
      assert Least(s + {m}) == l;
      LargestLast(s - {l}, m);
      assert (s + {m}) - {l} == (s - {l}) + {m};
    }
  }

  /** A strict total order given as a comparison. */
  ghost predicate StrictOrder<T(!new)>(less: (T, T) -> bool) {
    && (forall a :: !less(a, a))
    && (forall a, b, c :: less(a, b) && less(b, c) ==> less(a, c))
    && forall a, b :: a == b || less(a, b) || less(b, a)
  }

  predicate Sorted<T>(s: seq<T>, less: (T, T) -> bool) {
    forall i, j | 0 <= i < j < |s| :: less(s[i], s[j])
  }

  function Insert<T(==)>(x: T, s: seq<T>, less: (T, T) -> bool): seq<T> {
    if s == [] then [x]
    else if x == s[0] then s
    else if less(x, s[0]) then [x] + s
    else [s[0]] + Insert(x, s[1..], less)
  }

  /** Sort a list and drop the repeats. */
  function Canonical<T(==)>(s: seq<T>, less: (T, T) -> bool): seq<T> {
    if s == [] then [] else Insert(s[0], Canonical(s[1..], less), less)
  }

  lemma Before<T(!new)>(x: T, s: seq<T>, less: (T, T) -> bool)
    requires Sorted(s, less) && forall i | 0 <= i < |s| :: less(x, s[i])
    ensures Sorted([x] + s, less) && Elements([x] + s) == {x} + Elements(s)
  {
    var t := [x] + s;
    forall i, j | 0 <= i < j < |t| ensures less(t[i], t[j]) {
      assert t[j] == s[j - 1];
    }
  }

  lemma {:induction false} InsertKeepsSorted<T(!new)>(x: T, s: seq<T>, less: (T, T) -> bool)
    requires StrictOrder(less) && Sorted(s, less)
    ensures Sorted(Insert(x, s, less), less)
    ensures Elements(Insert(x, s, less)) == {x} + Elements(s)
  {
    if s == [] {
    } else if x == s[0] {
    } else if less(x, s[0]) {
      Before(x, s, less);
    } else {
      InsertKeepsSorted(x, s[1..], less);
      Behind(s[0], x, s[1..], Insert(x, s[1..], less), less);
      assert s == [s[0]] + s[1..];
    }
  }

  /** `rest` is sorted, has the elements of `tail` and `x`, and all of it comes after `h`. */
  lemma Behind<T(!new)>(h: T, x: T, tail: seq<T>, rest: seq<T>, less: (T, T) -> bool)
    requires less(h, x) && forall i | 0 <= i < |tail| :: less(h, tail[i])
    requires Sorted(rest, less) && Elements(rest) == {x} + Elements(tail)
    ensures Sorted([h] + rest, less) && Elements([h] + rest) == {x} + Elements([h] + tail)
  {
    forall i | 0 <= i < |rest| ensures less(h, rest[i]) {
      assert rest[i] in Elements(rest);
    }
    Before(h, rest, less);
    HeadJoins(h, tail);
  }

  lemma HeadJoins<T(!new)>(h: T, tail: seq<T>)
    ensures Elements([h] + tail) == {h} + Elements(tail)
  {
  }

  /** The canonical list is sorted and has the same elements. */
  lemma {:induction false} CanonicalIsSorted<T(!new)>(s: seq<T>, less: (T, T) -> bool)
    requires StrictOrder(less)
    ensures Sorted(Canonical(s, less), less)
    ensures Elements(Canonical(s, less)) == Elements(s)
  {
    if s != [] {
      CanonicalIsSorted(s[1..], less);
      InsertKeepsSorted(s[0], Canonical(s[1..], less), less);
      assert s == [s[0]] + s[1..];
    }
  }

  lemma NoElements<T(!new)>(s: seq<T>)
    ensures s == [] <==> Elements(s) == {}
  {
    if s != [] {
      assert s[0] in Elements(s);
    }
  }

  /** A sorted list is determined by its elements. */
  lemma {:induction false} SortedIsUnique<T(!new)>(a: seq<T>, b: seq<T>, less: (T, T) -> bool)
    requires StrictOrder(less) && Sorted(a, less) && Sorted(b, less)
    requires Elements(a) == Elements(b)
    ensures a == b
  {
    NoElements(a);
    NoElements(b);
    if a != [] {
      assert a[0] in Elements(b);
      assert b[0] in Elements(a);
      assert a[0] == b[0];
      assert a == [a[0]] + a[1..] && b == [b[0]] + b[1..];
      forall x ensures x in Elements(a[1..]) <==> x in Elements(b[1..]) {
        assert x in Elements(a) <==> x in Elements(b);
      }
      SortedIsUnique(a[1..], b[1..], less);
    }
  }

  /** Two lists have the same canonical form exactly when they have the same elements. */
  lemma CanonicalForgetsOrder<T(!new)>(s: seq<T>, t: seq<T>, less: (T, T) -> bool)
    requires StrictOrder(less)
    ensures Canonical(s, less) == Canonical(t, less) <==> Elements(s) == Elements(t)
  {
    CanonicalIsSorted(s, less);
    CanonicalIsSorted(t, less);
    if Elements(s) == Elements(t) {
      SortedIsUnique(Canonical(s, less), Canonical(t, less), less);
    }
  }
}
