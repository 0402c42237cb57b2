/** The part of a world an operation reads or writes. */
module Scopes {
  import opened Base
  import opened RegionLayout

  const MAX_REGION: int := 67_108_863
  const MIN_REGION: int := -67_108_864

  function ClampRegion(r: i32): int {
    if r > MAX_REGION then MAX_REGION else if r < MIN_REGION then MIN_REGION else r
  }

  function RegionFirst(r: i32): i32 {
    ClampRegion(r) * 32
  }

  function RegionLast(r: i32): i32 {
    var last := RegionFirst(r) + 31;
    if last > 0x7FFF_FFFF then 0x7FFF_FFFF else last
  }

  /** Inclusive rectangle of chunk coordinates. */
  datatype Rect = Rect(x0: i32, z0: i32, x1: i32, z1: i32) {

    predicate Contains(x: i32, z: i32) {
      x0 <= x && x <= x1 && z0 <= z && z <= z1
    }

    predicate OverlapsRegion(rx: i32, rz: i32) {
      x0 <= RegionLast(rx) && RegionFirst(rx) <= x1 && z0 <= RegionLast(rz) && RegionFirst(rz) <= z1
    }

    predicate CoversRegion(rx: i32, rz: i32) {
      x0 <= RegionFirst(rx) && RegionLast(rx) <= x1 && z0 <= RegionFirst(rz) && RegionLast(rz) <= z1
    }
  }

  /** A rectangle from any two corners. */
  function Corners(ax: i32, az: i32, bx: i32, bz: i32): Rect {
    Rect(if ax <= bx then ax else bx, if az <= bz then az else bz,
         if ax <= bx then bx else ax, if az <= bz then bz else az)
  }

  function RegionRect(rx: i32, rz: i32): Rect {
    Rect(RegionFirst(rx), RegionFirst(rz), RegionLast(rx), RegionLast(rz))
  }

  datatype Area = All | Within(rect: Rect) | Chunks(list: seq<Coord>) {

    predicate Contains(c: Coord) {
      match this
      case All => true
      case Within(rect) => rect.Contains(c.x, c.z)
      case Chunks(list) => c in list
    }

    predicate MatchesRegion(key: RegionKey) {
      match this
      case All => true
      case Within(rect) => rect.OverlapsRegion(key.rx, key.rz)
      case Chunks(list) => exists c :: c in list && c.x / 32 == key.rx && c.z / 32 == key.rz
    }

    /** A chunk list never counts as covering, even when it names all 1024 chunks. */
    predicate CoversRegion(key: RegionKey) {
      match this
      case All => true
      case Within(rect) => rect.CoversRegion(key.rx, key.rz)
      case Chunks(_) => false
    }
  }

  datatype Scope =
    | World
    | Kinds(kinds: seq<Kind>)
    | Select(kinds: seq<Kind>, areas: seq<(i32, Area)>)
  {
    predicate Contains(c: Coord) {
      match this
      case World => true
      case Kinds(kinds) => c.kind in kinds
      case Select(kinds, areas) => c.kind in kinds && exists a :: a in areas && a.0 == c.dim && a.1.Contains(c)
    }

    predicate MatchesRegion(key: RegionKey) {
      match this
      case World => true
      case Kinds(kinds) => key.kind in kinds
      case Select(kinds, areas) =>
        key.kind in kinds && exists a :: a in areas && a.0 == key.dim && a.1.MatchesRegion(key)
    }

    predicate CoversRegion(key: RegionKey) {
      match this
      case World => true
      case Kinds(kinds) => key.kind in kinds
      case Select(kinds, areas) =>
        key.kind in kinds && exists a :: a in areas && a.0 == key.dim && a.1.CoversRegion(key)
    }
  }

  /** The clamped span of a region holds exactly the chunks that divide into it. */
  lemma SpanIsRegion(r: i32, x: i32)
    ensures x / 32 == r ==> RegionFirst(r) <= x <= RegionLast(r)
    ensures MIN_REGION <= r <= MAX_REGION ==> (RegionFirst(r) <= x <= RegionLast(r) <==> x / 32 == r)
    ensures RegionFirst(r) / 32 == ClampRegion(r) == RegionLast(r) / 32
  {
    assert x == 32 * (x / 32) + x % 32;
  }

  /** Beyond the coordinates a chunk can have, a region stands for the last one that has any. */
  lemma FarRegionsClamp(r: i32)
    ensures MAX_REGION <= r ==> RegionFirst(r) == 0x7FFF_FFE0 && RegionLast(r) == 0x7FFF_FFFF
    ensures r <= MIN_REGION ==> RegionFirst(r) == -0x8000_0000 && RegionLast(r) == -0x7FFF_FFE1
  {
  }

  /** Two corners in any order span the same chunks. */
  lemma CornersHold(ax: i32, az: i32, bx: i32, bz: i32, x: i32, z: i32)
    ensures Corners(ax, az, bx, bz).Contains(x, z) <==>
      (ax <= x <= bx || bx <= x <= ax) && (az <= z <= bz || bz <= z <= az)
    ensures Corners(ax, az, bx, bz) == Corners(bx, bz, ax, az) == Corners(ax, bz, bx, az)
  {
  }

  /** A rectangle overlaps a nameable region exactly when they share a chunk. */
  lemma OverlapIsExact(ax: i32, az: i32, bx: i32, bz: i32, rx: i32, rz: i32)
    requires Locate(rx, rz).Ok?
    ensures Corners(ax, az, bx, bz).OverlapsRegion(rx, rz) <==>
      exists x: i32, z: i32 :: x / 32 == rx && z / 32 == rz && Corners(ax, az, bx, bz).Contains(x, z)
  {
    var rect := Corners(ax, az, bx, bz);
    LocatedIsNameable(rx, rz);
    if rect.OverlapsRegion(rx, rz) {
      var x: i32 := if rect.x0 <= RegionFirst(rx) then RegionFirst(rx) else rect.x0;
      var z: i32 := if rect.z0 <= RegionFirst(rz) then RegionFirst(rz) else rect.z0;
      SpanIsRegion(rx, x);
      SpanIsRegion(rz, z);
      assert x / 32 == rx && z / 32 == rz && rect.Contains(x, z);
    }
    forall x: i32, z: i32 | x / 32 == rx && z / 32 == rz && rect.Contains(x, z) ensures rect.OverlapsRegion(rx, rz) {
      SpanIsRegion(rx, x);
      SpanIsRegion(rz, z);
    }
  }

  /** A rectangle covers a nameable region exactly when it contains all of its chunks. */
  lemma CoverageIsExact(rect: Rect, rx: i32, rz: i32)
    requires Locate(rx, rz).Ok?
    ensures rect.CoversRegion(rx, rz) <==>
      forall x: i32, z: i32 | x / 32 == rx && z / 32 == rz :: rect.Contains(x, z)
  {
    LocatedIsNameable(rx, rz);
    if forall x: i32, z: i32 | x / 32 == rx && z / 32 == rz :: rect.Contains(x, z) {
      SpanIsRegion(rx, RegionFirst(rx));
      SpanIsRegion(rz, RegionFirst(rz));
      assert rect.Contains(RegionFirst(rx), RegionFirst(rz));
      assert rect.Contains(RegionLast(rx), RegionLast(rz));
    }
    forall x: i32, z: i32 | rect.CoversRegion(rx, rz) && x / 32 == rx && z / 32 == rz ensures rect.Contains(x, z) {
      SpanIsRegion(rx, x);
      SpanIsRegion(rz, z);
    }
  }

  /** A region rectangle covers and overlaps its own region, whatever its coordinates. */
  lemma RegionRectIsItsRegion(rx: i32, rz: i32, x: i32, z: i32)
    ensures RegionRect(rx, rz).CoversRegion(rx, rz) && RegionRect(rx, rz).OverlapsRegion(rx, rz)
    ensures Locate(rx, rz).Ok? ==> (RegionRect(rx, rz).Contains(x, z) <==> x / 32 == rx && z / 32 == rz)
  {
    LocatedIsNameable(rx, rz);
    SpanIsRegion(rx, x);
    SpanIsRegion(rz, z);
  }

  /** The file of a chunk in scope is a file the scope visits. */
  lemma ContainedIsMatched(scope: Scope, c: Coord)
    requires scope.Contains(c)
    ensures scope.MatchesRegion(RegionOf(c))
  {
    SpanIsRegion(RegionOf(c).rx, c.x);
    SpanIsRegion(RegionOf(c).rz, c.z);
    if scope.Select? {
      var a :| a in scope.areas && a.0 == c.dim && a.1.Contains(c);
      assert a.1.MatchesRegion(RegionOf(c));
    }
  }

  /** A scope that covers a file contains every chunk the file can hold. */
  lemma CoveredIsContained(scope: Scope, c: Coord)
    requires scope.CoversRegion(RegionOf(c))
    ensures scope.Contains(c)
  {
    SpanIsRegion(RegionOf(c).rx, c.x);
    SpanIsRegion(RegionOf(c).rz, c.z);
    if scope.Select? {
      var a :| a in scope.areas && a.0 == c.dim && a.1.CoversRegion(RegionOf(c));
      assert a.1.Contains(c);
    }
  }

  // ----- exactly what a scope selects -----

  /** Without a selection of areas only the family counts. */
  lemma FamiliesSelect(kinds: seq<Kind>, c: Coord, key: RegionKey)
    ensures Scope.World.Contains(c) && Scope.World.MatchesRegion(key) && Scope.World.CoversRegion(key)
    ensures Kinds(kinds).Contains(c) <==> c.kind in kinds
    ensures Kinds(kinds).MatchesRegion(key) <==> key.kind in kinds
    ensures Kinds(kinds).CoversRegion(key) <==> key.kind in kinds
  {
  }

  /** Families and dimensions that are not listed are out, for chunks and for files. */
  lemma UnlistedIsOut(kinds: seq<Kind>, areas: seq<(i32, Area)>, c: Coord, key: RegionKey)
    ensures Select(kinds, areas).Contains(c) ==> c.kind in kinds && exists a :: a in areas && a.0 == c.dim
    ensures Select(kinds, areas).MatchesRegion(key) ==> key.kind in kinds && exists a :: a in areas && a.0 == key.dim
    ensures Select(kinds, areas).CoversRegion(key) ==> key.kind in kinds && exists a :: a in areas && a.0 == key.dim
  {
  }

  /** Areas add up, and their order does not matter; coverage is never pieced together. */
  lemma AreasAddUp(kinds: seq<Kind>, a: seq<(i32, Area)>, b: seq<(i32, Area)>, c: Coord, key: RegionKey)
    ensures Select(kinds, a + b).Contains(c) <==> Select(kinds, a).Contains(c) || Select(kinds, b).Contains(c)
    ensures Select(kinds, a + b).MatchesRegion(key) <==>
      Select(kinds, a).MatchesRegion(key) || Select(kinds, b).MatchesRegion(key)
    ensures Select(kinds, a + b).CoversRegion(key) <==>
      Select(kinds, a).CoversRegion(key) || Select(kinds, b).CoversRegion(key)
  {
    assert forall x :: x in a + b <==> x in a || x in b;
  }

  /** A whole dimension. */
  lemma DimensionSelects(kinds: seq<Kind>, dim: i32, c: Coord, key: RegionKey)
    ensures Select(kinds, [(dim, All)]).Contains(c) <==> c.kind in kinds && c.dim == dim
    ensures Select(kinds, [(dim, All)]).MatchesRegion(key) <==> key.kind in kinds && key.dim == dim
    ensures Select(kinds, [(dim, All)]).CoversRegion(key) <==> key.kind in kinds && key.dim == dim
  {
    var areas := [(dim, All)];
    assert areas[0] in areas;
  }

  /** A rectangle between two corners. */
  lemma RectangleSelects(kinds: seq<Kind>, dim: i32, ax: i32, az: i32, bx: i32, bz: i32, c: Coord)
    ensures Select(kinds, [(dim, Within(Corners(ax, az, bx, bz)))]).Contains(c) <==>
      && c.kind in kinds && c.dim == dim
      && (ax <= c.x <= bx || bx <= c.x <= ax) && (az <= c.z <= bz || bz <= c.z <= az)
  {
    var areas := [(dim, Within(Corners(ax, az, bx, bz)))];
    assert areas[0] in areas;
    CornersHold(ax, az, bx, bz, c.x, c.z);
  }

  /** One rectangle covers a nameable file exactly when it selects every chunk the file can hold. */
  lemma RectangleCovers(kinds: seq<Kind>, dim: i32, rect: Rect, key: RegionKey)
    requires Locate(key.rx, key.rz).Ok?
    ensures Select(kinds, [(dim, Within(rect))]).CoversRegion(key) <==>
      forall c | RegionOf(c) == key :: Select(kinds, [(dim, Within(rect))]).Contains(c)
  {
    var areas := [(dim, Within(rect))];
    var scope := Select(kinds, areas);
    assert areas[0] in areas;
    CoverageIsExact(rect, key.rx, key.rz);
    var d := RegionHasChunk(key);
    if forall c | RegionOf(c) == key :: scope.Contains(c) {
      assert scope.Contains(d);
      forall x: i32, z: i32 | x / 32 == key.rx && z / 32 == key.rz ensures rect.Contains(x, z) {
        assert RegionOf(Coord(key.dim, key.kind, x, z)) == key;
      }
    }
    forall c | RegionOf(c) == key && scope.CoversRegion(key) ensures scope.Contains(c) { CoveredIsContained(scope, c); }
  }

  lemma RegionHasChunk(key: RegionKey) returns (c: Coord)
    requires Locate(key.rx, key.rz).Ok?
    ensures RegionOf(c) == key
  {
    LocatedIsNameable(key.rx, key.rz);
    var x, z := RegionFirst(key.rx), RegionFirst(key.rz);
    SpanIsRegion(key.rx, x);
    SpanIsRegion(key.rz, z);
    c := Coord(key.dim, key.kind, x, z);
  }

  /** A chunk list: exactly its chunks; the files at the places it names, and none of them covered. */
  lemma ListSelects(kinds: seq<Kind>, dim: i32, list: seq<Coord>, c: Coord, key: RegionKey)
    ensures var scope := Select(kinds, [(dim, Chunks(list))]);
      && (scope.Contains(c) <==> c.kind in kinds && c.dim == dim && c in list)
      && (scope.MatchesRegion(key) <==>
            && key.kind in kinds && key.dim == dim
            && exists d :: d in list && d.x / 32 == key.rx && d.z / 32 == key.rz)
      && !scope.CoversRegion(key)
  {
    var areas := [(dim, Chunks(list))];
    assert areas[0] in areas;
  }

  /** Areas as the program builds them, chunk lists left aside. */
  predicate Drawn(scope: Scope) {
    scope.Select? ==> forall a | a in scope.areas ::
      match a.1
      case All => true
      case Within(rect) => rect.x0 <= rect.x1 && rect.z0 <= rect.z1
      case Chunks(_) => false
  }

  /** So a scope visits a nameable file exactly when it selects a chunk the file can hold. */
  lemma MatchIsExact(scope: Scope, key: RegionKey)
    requires Drawn(scope) && Locate(key.rx, key.rz).Ok?
    ensures scope.MatchesRegion(key) <==> exists c :: RegionOf(c) == key && scope.Contains(c)
  {
    var d := RegionHasChunk(key);
    forall c | RegionOf(c) == key && scope.Contains(c) ensures scope.MatchesRegion(key) {
      ContainedIsMatched(scope, c);
    }
    if scope.MatchesRegion(key) && scope.Select? {
      var a :| a in scope.areas && a.0 == key.dim && a.1.MatchesRegion(key);
      if a.1.Within? {
        var r := a.1.rect;
        assert Corners(r.x0, r.z0, r.x1, r.z1) == r;
        OverlapIsExact(r.x0, r.z0, r.x1, r.z1, key.rx, key.rz);
        var x: i32, z: i32 :| x / 32 == key.rx && z / 32 == key.rz && r.Contains(x, z);
        var c := Coord(key.dim, key.kind, x, z);
        assert RegionOf(c) == key && a.1.Contains(c) && scope.Contains(c);
      } else {
        assert a.1.Contains(d) && scope.Contains(d);
      }
    }
  }
}
