/**
 * The integer grid that the terrain world is cut into.
 *
 * A chunk is identified by an integer grid location. This module holds the
 * geometry of that grid: the world-size of one cell, the conversion from a
 * continuous position to the cell containing it, the Moore neighbourhood that
 * the world prefetches, and the distance test it evicts by. It also holds the
 * specification functions on lists of locations that the cache's operations
 * are proved against (Insert, Prefetch, KeptCells), with their lemmas.
 */
module Grid {

  /** Samples per chunk side (CHUNK_SIZE). */
  const CHUNK_SIZE: int := 100
  /** World units per heightmap sample (CHUNK_TO_MESH_SCALE). */
  const CHUNK_TO_MESH_SCALE: int := 5
  /** World units per grid cell (Area::scaleOffset). */
  const SCALE_OFFSET: int := CHUNK_SIZE * CHUNK_TO_MESH_SCALE
  /** Eviction radius, in cells; the distance test compares against its square. */
  const FAR_RADIUS: int := 2

  /** An integer grid location of a chunk (the source's Vector2, always integral). */
  datatype Location = Location(x: int, y: int)

  /** A world position (the camera position); y is up, the grid lies in x and z. */
  datatype Vector3 = Vector3(x: real, y: real, z: real)

  /** The smallest integer not below r (std::ceil). */
  function Ceil(r: real): (n: int)
    ensures n as real - 1.0 < r <= n as real
  {
    -((-r).Floor)
  }

  /**
   * The cell of one coordinate: ceil(p / scaleOffset) - 1. Cell c covers the
   * half-open interval (c * 500, (c + 1) * 500], so a coordinate exactly on a
   * boundary belongs to the lower cell.
   */
  function CellOf(p: real): (c: int)
    ensures (c * SCALE_OFFSET) as real < p <= ((c + 1) * SCALE_OFFSET) as real
  {
    Ceil(p / SCALE_OFFSET as real) - 1
  }

  /** The bounds of CellOf determine it: every coordinate has exactly one cell. */
  lemma CellOfCharacterised(p: real, c: int)
    ensures CellOf(p) == c <==> (c * SCALE_OFFSET) as real < p <= ((c + 1) * SCALE_OFFSET) as real
  {
    var d := CellOf(p);
    if (c * SCALE_OFFSET) as real < p <= ((c + 1) * SCALE_OFFSET) as real {
      assert c * SCALE_OFFSET < (d + 1) * SCALE_OFFSET;
      assert d * SCALE_OFFSET < (c + 1) * SCALE_OFFSET;
    }
  }

  /** A coordinate on a cell boundary k * 500 lies in cell k - 1, not in cell k. */
  lemma BoundaryMapsToLowerCell(k: int)
    ensures CellOf((k * SCALE_OFFSET) as real) == k - 1
  {
    CellOfCharacterised((k * SCALE_OFFSET) as real, k - 1);
  }

  /** Squared Euclidean distance between two grid locations. */
  function Dist2(a: Location, b: Location): (d: int)
    ensures d >= 0
    ensures d == 0 <==> a == b
  {
    (a.x - b.x) * (a.x - b.x) + (a.y - b.y) * (a.y - b.y)
  }

  /**
   * Whether a location survives eviction around the cell c: its Euclidean
   * distance is not greater than 2, i.e. its squared distance is at most 4.
   */
  predicate Near(c: Location, l: Location)
  {
    Dist2(c, l) <= FAR_RADIUS * FAR_RADIUS
  }

  /**
   * The eviction test is symmetric, keeps the whole 3 x 3 block around c, and
   * keeps nothing outside the 5 x 5 block around c.
   */
  lemma NearBounds(c: Location, l: Location)
    ensures Near(c, l) == Near(l, c)
    ensures -1 <= l.x - c.x <= 1 && -1 <= l.y - c.y <= 1 ==> Near(c, l)
    ensures Near(c, l) ==> -2 <= l.x - c.x <= 2 && -2 <= l.y - c.y <= 2
  {
    var dx, dy := l.x - c.x, l.y - c.y;
    assert Dist2(c, l) == dx * dx + dy * dy;
    assert dx * dx >= 0 && dy * dy >= 0;
    if dx >= 3 { assert dx * dx >= 3 * dx; }
    if dx <= -3 { assert dx * dx >= -3 * dx; }
    if dy >= 3 { assert dy * dy >= 3 * dy; }
    if dy <= -3 { assert dy * dy >= -3 * dy; }
  }

  /**
   * The ring at Chebyshev distance 2 around c: of its 16 cells, exactly the
   * four straight ones (in c's row or column) are kept; the knight-move and
   * diagonal cells are evicted.
   */
  lemma RingOfTwo(c: Location, n: Location)
    requires -2 <= n.x - c.x <= 2 && -2 <= n.y - c.y <= 2
    requires n.x - c.x == 2 || n.x - c.x == -2 || n.y - c.y == 2 || n.y - c.y == -2
    ensures Near(c, n) <==> n.x == c.x || n.y == c.y
  {
    var dx, dy := n.x - c.x, n.y - c.y;
    assert Dist2(c, n) == dx * dx + dy * dy;
    assert dx * dx == if dx == 0 then 0 else if dx == 1 || dx == -1 then 1 else 4;
    assert dy * dy == if dy == 0 then 0 else if dy == 1 || dy == -1 then 1 else 4;
  }

  /** Whether n is one of the 8 cells around c (Chebyshev distance exactly 1). */
  predicate IsNeighbour(c: Location, n: Location)
  {
    n != c && -1 <= n.x - c.x <= 1 && -1 <= n.y - c.y <= 1
  }

  /**
   * The Moore neighbourhood of c in the order the world loads it:
   * north, north-east, east, south-east, south, south-west, west, north-west.
   */
  function Neighbours(c: Location): (ns: seq<Location>)
    ensures |ns| == 8
    ensures forall i :: 0 <= i < |ns| ==> IsNeighbour(c, ns[i]) && Near(c, ns[i])
  {
    [ Location(c.x, c.y - 1), Location(c.x + 1, c.y - 1),
      Location(c.x + 1, c.y), Location(c.x + 1, c.y + 1),
      Location(c.x, c.y + 1), Location(c.x - 1, c.y + 1),
      Location(c.x - 1, c.y), Location(c.x - 1, c.y - 1) ]
  }

  /** Neighbours lists exactly the neighbour cells, and each of them once. */
  lemma NeighboursExact(c: Location)
    ensures forall n :: n in Neighbours(c) <==> IsNeighbour(c, n)
    ensures Unique([c] + Neighbours(c))
  {
    var ns := Neighbours(c);
    forall n | IsNeighbour(c, n) ensures n in ns {
      if n.y == c.y - 1 {
        if n.x == c.x { assert n == ns[0]; }
        else if n.x == c.x + 1 { assert n == ns[1]; }
        else { assert n == ns[7]; }
      } else if n.y == c.y {
        if n.x == c.x + 1 { assert n == ns[2]; } else { assert n == ns[6]; }
      } else {
        if n.x == c.x + 1 { assert n == ns[3]; }
        else if n.x == c.x { assert n == ns[4]; }
        else { assert n == ns[5]; }
      }
    }
  }

  /** No element occurs twice. */
  predicate Unique<T(==)>(s: seq<T>)
  {
    forall i, j :: 0 <= i < j < |s| ==> s[i] != s[j]
  }

  /** Two lists without repeats and without common elements concatenate to one without repeats. */
  lemma UniqueAppend<T>(a: seq<T>, b: seq<T>)
    requires Unique(a) && Unique(b)
    requires forall x :: x in a ==> x !in b
    ensures Unique(a + b)
  {
    forall i, j | 0 <= i < j < |a + b| ensures (a + b)[i] != (a + b)[j] {
      if j < |a| {
      } else if i >= |a| {
        assert (a + b)[i] == b[i - |a|] && (a + b)[j] == b[j - |a|];
      } else {
        assert (a + b)[i] in a && (a + b)[j] == b[j - |a|];
      }
    }
  }

  /** Concatenation is associative. */
  lemma AppendAssoc<T>(a: seq<T>, b: seq<T>, c: seq<T>)
    ensures (a + b) + c == a + (b + c)
  {
  }

  /**
   * The location list after a get-or-load of l: unchanged when l is present,
   * otherwise l appended at the end.
   */
  function Insert(ls: seq<Location>, l: Location): seq<Location>
  {
    if l in ls then ls else ls + [l]
  }

  /** The location list after get-or-loading each of ns in turn, first to last. */
  function Prefetch(ls: seq<Location>, ns: seq<Location>): seq<Location>
    decreases |ns|
  {
    if ns == [] then ls else Insert(Prefetch(ls, ns[..|ns| - 1]), ns[|ns| - 1])
  }

  /**
   * Get-or-loading l keeps the list free of repeats, makes l present, adds
   * nothing else, and only appends.
   */
  lemma InsertSpec(ls: seq<Location>, l: Location)
    ensures l in Insert(ls, l)
    ensures forall m :: m in Insert(ls, l) <==> m in ls || m == l
    ensures |ls| <= |Insert(ls, l)| <= |ls| + 1 && ls <= Insert(ls, l)
    ensures Unique(ls) ==> Unique(Insert(ls, l))
  {
  }

  /** One step of a prefetch: after ns[..k], get-or-loading ns[k] gives ns[..k + 1]. */
  lemma PrefetchStep(ls: seq<Location>, ns: seq<Location>, k: nat)
    requires k < |ns|
    ensures Prefetch(ls, ns[..k + 1]) == Insert(Prefetch(ls, ns[..k]), ns[k])
  {
    assert ns[..k + 1][..k] == ns[..k];
  }

  /**
   * Prefetching keeps the list free of repeats, makes every cell of ns present,
   * adds nothing else, keeps the earlier locations in place and grows the list
   * by at most |ns|.
   */
  lemma {:induction false} PrefetchSpec(ls: seq<Location>, ns: seq<Location>)
    ensures forall m :: m in Prefetch(ls, ns) <==> m in ls || m in ns
    ensures |ls| <= |Prefetch(ls, ns)| <= |ls| + |ns| && ls <= Prefetch(ls, ns)
    ensures Unique(ls) ==> Unique(Prefetch(ls, ns))
    decreases |ns|
  {
    if ns != [] {
      var init, last := ns[..|ns| - 1], ns[|ns| - 1];
      PrefetchSpec(ls, init);
      InsertSpec(Prefetch(ls, init), last);
      assert ns == init + [last];
    }
  }

  /** When none of ns is present yet and ns has no repeats, each one is appended. */
  lemma {:induction false} PrefetchFresh(ls: seq<Location>, ns: seq<Location>)
    requires Unique(ls + ns)
    ensures Prefetch(ls, ns) == ls + ns
    decreases |ns|
  {
    if ns != [] {
      var n := |ns| - 1;
      var init := ns[..n];
      assert ls + ns == (ls + init) + [ns[n]];
      assert Unique(ls + init) by {
        forall i, j | 0 <= i < j < |ls + init| ensures (ls + init)[i] != (ls + init)[j] {
          assert (ls + init)[i] == (ls + ns)[i] && (ls + init)[j] == (ls + ns)[j];
        }
      }
      PrefetchFresh(ls, init);
      assert ns[n] !in ls + init by {
        forall i | 0 <= i < |ls + init| ensures (ls + init)[i] != ns[n] {
          assert (ls + init)[i] == (ls + ns)[i] && (ls + ns)[|ls| + n] == ns[n];
        }
      }
    }
  }

  /** From an empty cache, loading c and then its neighbourhood gives exactly 9 cells. */
  lemma NeighbourhoodFromEmpty(c: Location)
    ensures Prefetch(Insert([], c), Neighbours(c)) == [c] + Neighbours(c)
    ensures |Prefetch(Insert([], c), Neighbours(c))| == 9
  {
    NeighboursExact(c);
    assert Insert([], c) == [c];
    PrefetchFresh([c], Neighbours(c));
  }

  /**
   * The locations that survive eviction around c, in their original order.
   * Defined from the back so that it follows a front-to-back traversal.
   */
  function KeptCells(ls: seq<Location>, c: Location): (r: seq<Location>)
    ensures |r| <= |ls|
    decreases |ls|
  {
    if ls == [] then []
    else
      var last := ls[|ls| - 1];
      KeptCells(ls[..|ls| - 1], c) + (if Near(c, last) then [last] else [])
  }

  /**
   * Eviction keeps exactly the locations near c, and keeps a list without
   * repeats free of repeats.
   */
  lemma {:induction false} KeptCellsSpec(ls: seq<Location>, c: Location)
    ensures forall m :: m in KeptCells(ls, c) <==> m in ls && Near(c, m)
    ensures Unique(ls) ==> Unique(KeptCells(ls, c))
    decreases |ls|
  {
    if ls != [] {
      var n := |ls| - 1;
      KeptCellsSpec(ls[..n], c);
      assert ls == ls[..n] + [ls[n]];
      if Unique(ls) {
        assert ls[n] !in ls[..n];
        UniqueAppend(KeptCells(ls[..n], c), if Near(c, ls[n]) then [ls[n]] else []);
      }
    }
  }

  /** Eviction distributes over concatenation. */
  lemma {:induction false} KeptCellsAppend(a: seq<Location>, b: seq<Location>, c: Location)
    ensures KeptCells(a + b, c) == KeptCells(a, c) + KeptCells(b, c)
    decreases |b|
  {
    if b == [] {
      assert a + b == a;
    } else {
      var b' := b[..|b| - 1];
      assert (a + b)[..|a + b| - 1] == a + b';
      KeptCellsAppend(a, b', c);
    }
  }

  /** Eviction keeps a list whose every location is near. */
  lemma {:induction false} KeptCellsAllNear(ls: seq<Location>, c: Location)
    requires forall i :: 0 <= i < |ls| ==> Near(c, ls[i])
    ensures KeptCells(ls, c) == ls
    decreases |ls|
  {
    if ls != [] {
      KeptCellsAllNear(ls[..|ls| - 1], c);
    }
  }

  /** Eviction empties a list whose every location is far. */
  lemma {:induction false} KeptCellsAllFar(ls: seq<Location>, c: Location)
    requires forall i :: 0 <= i < |ls| ==> !Near(c, ls[i])
    ensures KeptCells(ls, c) == []
    decreases |ls|
  {
    if ls != [] {
      KeptCellsAllFar(ls[..|ls| - 1], c);
    }
  }

  /** Every cell of the 3 x 3 neighbourhood of t is near t. */
  lemma NeighbourhoodNear(t: Location)
    ensures forall i :: 0 <= i < |[t] + Neighbours(t)| ==> Near(t, ([t] + Neighbours(t))[i])
  {
    var around := [t] + Neighbours(t);
    forall i | 0 <= i < |around| ensures Near(t, around[i]) {
      if i > 0 {
        assert around[i] == Neighbours(t)[i - 1];
      }
    }
  }

  /**
   * Moving to a cell t far from every resident cell: loading t and its
   * neighbourhood appends those 9 cells.
   */
  lemma MoveFarAwayLoads(ls: seq<Location>, t: Location)
    requires Unique(ls)
    requires forall i :: 0 <= i < |ls| ==> !Near(t, ls[i])
    ensures Prefetch(Insert(ls, t), Neighbours(t)) == ls + ([t] + Neighbours(t))
  {
    NeighboursExact(t);
    NeighbourhoodNear(t);
    var around := [t] + Neighbours(t);
    forall x | x in ls ensures x !in around {
      var i :| 0 <= i < |ls| && ls[i] == x;
      assert !Near(t, x);
    }
    UniqueAppend(ls, around);
    assert ls + around == (ls + [t]) + Neighbours(t);
    PrefetchFresh(ls + [t], Neighbours(t));
  }

  /** Evicting around t drops a prefix of far cells and keeps a suffix of near ones. */
  lemma KeptCellsFarThenNear(far: seq<Location>, near: seq<Location>, t: Location)
    requires forall i :: 0 <= i < |far| ==> !Near(t, far[i])
    requires forall i :: 0 <= i < |near| ==> Near(t, near[i])
    ensures KeptCells(far + near, t) == near
  {
    KeptCellsAppend(far, near, t);
    KeptCellsAllFar(far, t);
    KeptCellsAllNear(near, t);
  }

  /** Whether every cell of o's neighbourhood is outside the eviction radius of t. */
  predicate FarApart(o: Location, t: Location)
  {
    o.x + 4 <= t.x || t.x + 4 <= o.x || o.y + 4 <= t.y || t.y + 4 <= o.y
  }

  /** A cell within Chebyshev distance 1 of o is out of range of a t far from o. */
  lemma FarApartNotNear(o: Location, t: Location, n: Location)
    requires FarApart(o, t)
    requires -1 <= n.x - o.x <= 1 && -1 <= n.y - o.y <= 1
    ensures !Near(t, n)
  {
    var dx, dy := t.x - n.x, t.y - n.y;
    assert dx * dx >= 0 && dy * dy >= 0;
    if dx >= 3 || dx <= -3 {
      assert dx * dx >= 3 * 3 by {
        if dx >= 3 { assert dx * dx >= 3 * dx; } else { assert dx * dx >= -3 * dx; }
      }
    } else {
      assert dy * dy >= 3 * 3 by {
        if dy >= 3 { assert dy * dy >= 3 * dy; } else { assert dy * dy >= -3 * dy; }
      }
    }
  }

  /** No cell of o's 3 x 3 neighbourhood is near a cell t far from o. */
  lemma NeighbourhoodOutOfRange(o: Location, t: Location)
    requires FarApart(o, t)
    ensures forall i :: 0 <= i < |[o] + Neighbours(o)| ==> !Near(t, ([o] + Neighbours(o))[i])
  {
    var first := [o] + Neighbours(o);
    forall i | 0 <= i < |first| ensures !Near(t, first[i]) {
      if i > 0 {
        assert first[i] == Neighbours(o)[i - 1];
      }
      FarApartNotNear(o, t, first[i]);
    }
  }

  /**
   * From an empty cache: loading the neighbourhood of o, then that of a cell t
   * far from it, and evicting around t leaves exactly the 9 cells around t.
   */
  lemma EvictionScenario(o: Location, t: Location)
    requires FarApart(o, t)
    ensures Prefetch(Insert([], o), Neighbours(o)) == [o] + Neighbours(o)
    ensures Prefetch(Insert([o] + Neighbours(o), t), Neighbours(t))
         == ([o] + Neighbours(o)) + ([t] + Neighbours(t))
    ensures KeptCells(([o] + Neighbours(o)) + ([t] + Neighbours(t)), t) == [t] + Neighbours(t)
  {
    NeighbourhoodFromEmpty(o);
    var first, around := [o] + Neighbours(o), [t] + Neighbours(t);
    NeighboursExact(o);
    NeighbourhoodOutOfRange(o, t);
    MoveFarAwayLoads(first, t);
    NeighbourhoodNear(t);
    KeptCellsFarThenNear(first, around, t);
  }
}
