/** A table kept as a sequence in ascending key order. */
module SlotTable {
  datatype Slot<V> = Slot(key: nat, value: V)

  predicate Ascending<V>(t: seq<Slot<V>>) {
    forall i, j | 0 <= i < j < |t| :: t[i].key < t[j].key
  }

  /** What each key holds. */
  ghost function Contents<V>(t: seq<Slot<V>>): map<nat, V> {
    if t == [] then map[] else Contents(t[..|t| - 1])[t[|t| - 1].key := t[|t| - 1].value]
  }

  predicate Vacant<V>(t: seq<Slot<V>>, key: nat) {
    forall i | 0 <= i < |t| :: t[i].key != key
  }

  lemma {:induction false} VacantIsAbsent<V>(t: seq<Slot<V>>, key: nat)
    ensures key !in Contents(t) <==> Vacant(t, key)
    decreases |t|
  {
    if t != [] {
      VacantIsAbsent(t[..|t| - 1], key);
    }
  }

  lemma {:induction false} HeldAt<V>(t: seq<Slot<V>>, i: nat)
    requires Ascending(t) && i < |t|
    ensures t[i].key in Contents(t) && Contents(t)[t[i].key] == t[i].value
    decreases |t|
  {
    if i < |t| - 1 {
      HeldAt(t[..|t| - 1], i);
    }
  }

  lemma {:induction false} ContentsJoin<V>(a: seq<Slot<V>>, b: seq<Slot<V>>)
    ensures Contents(a + b) == Contents(a) + Contents(b)
    decreases |b|
  {
    if b == [] {
      assert a + b == a;
    } else {
      var n := |b| - 1;
      assert (a + b)[..|a| + n] == a + b[..n];
      ContentsJoin(a, b[..n]);
    }
  }

  predicate Below<V>(t: seq<Slot<V>>, key: nat) {
    forall i | 0 <= i < |t| :: t[i].key < key
  }

  predicate Above<V>(t: seq<Slot<V>>, key: nat) {
    forall i | 0 <= i < |t| :: key < t[i].key
  }

  lemma Around<V>(a: seq<Slot<V>>, c: Slot<V>, b: seq<Slot<V>>)
    requires Ascending(a) && Ascending(b) && Below(a, c.key) && Above(b, c.key)
    ensures Ascending(a + [c] + b)
  {
    var t := a + [c] + b;
    forall i, j | 0 <= i < j < |t| ensures t[i].key < t[j].key {
      if j > |a| { assert t[j] == b[j - |a| - 1]; }
    }
  }

  lemma ContentsAround<V>(a: seq<Slot<V>>, c: Slot<V>, b: seq<Slot<V>>)
    requires Above(b, c.key)
    ensures Contents(a + [c] + b) == (Contents(a) + Contents(b))[c.key := c.value]
  {
    ContentsJoin(a + [c], b);
    ContentsJoin(a, [c]);
    VacantIsAbsent(b, c.key);
  }

  /** Inserting where a search says sets one key. */
  lemma InsertSets<V>(t: seq<Slot<V>>, i: nat, c: Slot<V>)
    requires Ascending(t) && i <= |t| && Below(t[..i], c.key) && Above(t[i..], c.key)
    ensures Ascending(t[..i] + [c] + t[i..])
    ensures Contents(t[..i] + [c] + t[i..]) == Contents(t)[c.key := c.value]
  {
    var a, b := t[..i], t[i..];
    ContentsJoin(a, b);
    assert a + b == t;
    assert Ascending(a) && Ascending(b);
    Around(a, c, b);
    ContentsAround(a, c, b);
  }

  lemma SetAgain<V>(m: map<nat, V>, key: nat, v: V, w: V)
    ensures m[key := v][key := w] == m[key := w]
    ensures key !in m ==> m[key := v] - {key} == m
  {
  }

  lemma Cut<V>(t: seq<Slot<V>>, i: nat)
    requires Ascending(t) && i < |t|
    ensures t == t[..i] + [t[i]] + t[i + 1..]
    ensures Ascending(t[..i]) && Ascending(t[i + 1..]) && Below(t[..i], t[i].key) && Above(t[i + 1..], t[i].key)
  {
  }

  lemma ReplaceSets<V>(t: seq<Slot<V>>, i: nat, c: Slot<V>)
    requires Ascending(t) && i < |t| && t[i].key == c.key
    ensures Ascending(t[i := c])
    ensures Contents(t[i := c]) == Contents(t)[c.key := c.value]
  {
    var a, b, d := t[..i], t[i + 1..], t[i];
    Cut(t, i);
    assert t[i := c] == a + [c] + b;
    ContentsAround(a, c, b);
    ContentsAround(a, d, b);
    SetAgain(Contents(a) + Contents(b), c.key, d.value, c.value);
  }

  lemma DropClears<V>(t: seq<Slot<V>>, i: nat)
    requires Ascending(t) && i < |t|
    ensures Ascending(t[..i] + t[i + 1..])
    ensures Contents(t[..i] + t[i + 1..]) == Contents(t) - {t[i].key}
  {
    var a, b, d := t[..i], t[i + 1..], t[i];
    Cut(t, i);
    ContentsAround(a, d, b);
    ContentsJoin(a, b);
    VacantIsAbsent(a, d.key);
    VacantIsAbsent(b, d.key);
    SetAgain(Contents(a + b), d.key, d.value, d.value);
  }

  /** Binary search: where the key is, or where it belongs. */
  method Find<V>(t: seq<Slot<V>>, key: nat) returns (found: bool, index: nat)
    requires Ascending(t)
    ensures index <= |t|
    ensures found ==> index < |t| && t[index].key == key
    ensures !found ==> Below(t[..index], key) && Above(t[index..], key)
  {
    var lo, hi := 0, |t|;
    while lo < hi
      invariant 0 <= lo <= hi <= |t|
      invariant forall j | 0 <= j < lo :: t[j].key < key
      invariant forall j | hi <= j < |t| :: key < t[j].key
    {
      var mid := (lo + hi) / 2;
      if t[mid].key == key {
        return true, mid;
      } else if t[mid].key < key {
        lo := mid + 1;
      } else {
        hi := mid;
      }
    }
    return false, lo;
  }
}
