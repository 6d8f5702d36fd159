/**
 * The chunk cache (InfinityWorld): a list of areas, each binding a grid
 * location to its loaded chunk, with get-or-load, neighbourhood prefetch,
 * proximity eviction and a full teardown.
 *
 * The cache keeps its areas in a seq that the methods reassign, in the order
 * the areas were loaded. Resources released by Unload(area) (the chunk's image,
 * the area's texture and model) are recorded in the ghost log `released`, so
 * that "released exactly once" can be stated.
 */
module World {
  import opened Grid
  import opened Terrain

  datatype Option<T> = None | Some(value: T)

  /** A cache entry: a grid location and the chunk generated for it. */
  class Area {
    const location: Location
    const chunk: Chunk

    constructor (location: Location, chunk: Chunk)
      ensures this.location == location && this.chunk == chunk
    {
      this.location := location;
      this.chunk := chunk;
    }
  }

  /** The locations of a list of areas, in order. */
  function Locations(areas: seq<Area>): (ls: seq<Location>)
  {
    seq(|areas|, i requires 0 <= i < |areas| => areas[i].location)
  }

  /** Distinct locations make distinct areas. */
  lemma UniqueAreas(areas: seq<Area>)
    requires Unique(Locations(areas))
    ensures Unique(areas)
  {
    forall i, j | 0 <= i < j < |areas| ensures areas[i] != areas[j] {
      assert Locations(areas)[i] != Locations(areas)[j];
    }
  }

  /** The first area with the given location, if there is one. */
  function Lookup(areas: seq<Area>, pos: Location): (r: Option<Area>)
    ensures r.Some? <==> pos in Locations(areas)
    ensures r.Some? ==> r.value in areas && r.value.location == pos
    decreases |areas|
  {
    if areas == [] then None
    else if areas[0].location == pos then
      assert Locations(areas)[0] == pos;
      Some(areas[0])
    else
      assert Locations(areas) == [areas[0].location] + Locations(areas[1..]);
      Lookup(areas[1..], pos)
  }

  /** When locations are unique, the area found for a location is the one holding it. */
  lemma {:induction false} LookupUnique(areas: seq<Area>, i: nat)
    requires Unique(Locations(areas)) && i < |areas|
    ensures Lookup(areas, areas[i].location) == Some(areas[i])
    decreases |areas|
  {
    assert Locations(areas)[i] == areas[i].location;
    if i > 0 {
      assert Locations(areas)[0] != Locations(areas)[i];
      assert Locations(areas[1..]) == Locations(areas)[1..];
      LookupUnique(areas[1..], i - 1);
    }
  }

  /** The areas that survive eviction around c, in their original order. */
  function Kept(areas: seq<Area>, c: Location): (r: seq<Area>)
    ensures |r| <= |areas|
    decreases |areas|
  {
    if areas == [] then []
    else
      var last := areas[|areas| - 1];
      Kept(areas[..|areas| - 1], c) + (if Near(c, last.location) then [last] else [])
  }

  /** Evicting areas evicts exactly their locations. */
  lemma {:induction false} KeptLocations(areas: seq<Area>, c: Location)
    ensures Locations(Kept(areas, c)) == KeptCells(Locations(areas), c)
    decreases |areas|
  {
    if areas != [] {
      var n := |areas| - 1;
      assert Locations(areas)[..n] == Locations(areas[..n]);
      KeptLocations(areas[..n], c);
      var tail := if Near(c, areas[n].location) then [areas[n]] else [];
      assert Locations(Kept(areas[..n], c) + tail) == Locations(Kept(areas[..n], c)) + Locations(tail);
    }
  }

  /** The areas that eviction around c removes, in their original order. */
  function Evicted(areas: seq<Area>, c: Location): (r: seq<Area>)
    ensures |r| + |Kept(areas, c)| == |areas|
    decreases |areas|
  {
    if areas == [] then []
    else
      var last := areas[|areas| - 1];
      Evicted(areas[..|areas| - 1], c) + (if Near(c, last.location) then [] else [last])
  }

  /**
   * When the areas far from c form a prefix of length n and the rest are near
   * c, eviction releases that prefix and keeps the rest.
   */
  lemma {:induction false} KeptEvictedSplit(areas: seq<Area>, n: nat, c: Location)
    requires n <= |areas|
    requires forall j :: 0 <= j < n ==> !Near(c, areas[j].location)
    requires forall j :: n <= j < |areas| ==> Near(c, areas[j].location)
    ensures Evicted(areas, c) == areas[..n] && Kept(areas, c) == areas[n..]
    decreases |areas|
  {
    if areas != [] {
      var m := |areas| - 1;
      var init := areas[..m];
      if n <= m {
        KeptEvictedSplit(init, n, c);
        assert init[..n] == areas[..n];
        assert init[n..] + [areas[m]] == areas[n..];
      } else {
        KeptEvictedSplit(init, m, c);
        assert init + [areas[m]] == areas;
      }
    }
  }

  /**
   * Eviction splits the areas: the kept ones are exactly those near c, the
   * evicted ones exactly those that are not, and neither part repeats an area.
   */
  lemma {:induction false} KeptEvictedMembers(areas: seq<Area>, c: Location)
    ensures forall a :: a in Kept(areas, c) <==> a in areas && Near(c, a.location)
    ensures forall a :: a in Evicted(areas, c) <==> a in areas && !Near(c, a.location)
    ensures Unique(areas) ==> Unique(Kept(areas, c)) && Unique(Evicted(areas, c))
    decreases |areas|
  {
    if areas != [] {
      var n := |areas| - 1;
      KeptEvictedMembers(areas[..n], c);
      assert areas == areas[..n] + [areas[n]];
      if Unique(areas) {
        assert areas[n] !in areas[..n];
        UniqueAppend(Kept(areas[..n], c), if Near(c, areas[n].location) then [areas[n]] else []);
        UniqueAppend(Evicted(areas[..n], c), if Near(c, areas[n].location) then [] else [areas[n]]);
      }
    }
  }

  class InfinityWorld {
    /** The noise seed the world was created with. */
    const seed: int
    /** The noise field generated from that seed (SimplexNoise::noise after setSeed(seed)). */
    const noise: NoiseField
    /** The resident areas, in load order. */
    var areas: seq<Area>
    /** The locations of the resident areas, in load order. */
    ghost var cells: seq<Location>
    /** Every area passed to Unload(area), in release order. */
    ghost var released: seq<Area>
    /** The chunks this world has generated. */
    ghost var Repr: set<Chunk>
    /** The sample grids of those chunks. */
    ghost var Grids: set<array2<real>>

    /** An area whose chunk holds the samples generated for the area's own location. */
    ghost predicate Generated(a: Area)
      reads a.chunk.heights
    {
      a.chunk.location == a.location && a.chunk.Holds(noise)
    }

    /** A resident area holds a loaded chunk generated for its own location. */
    ghost predicate Resident(a: Area)
      reads a.chunk, a.chunk.heights
    {
      Generated(a) && a.chunk.isLoaded
    }

    /**
     * The cache invariant: at most one area per location, every resident area
     * loaded, no area released twice, no resident area released, and every
     * released area unloaded.
     */
    ghost predicate Valid()
      reads this, Repr, Grids
    {
      cells == Locations(areas) &&
      Unique(cells) &&
      (forall i :: 0 <= i < |areas| ==>
        areas[i].chunk in Repr && areas[i].chunk.heights in Grids && Resident(areas[i])) &&
      Unique(released) &&
      (forall i :: 0 <= i < |areas| ==> areas[i] !in released) &&
      (forall i :: 0 <= i < |released| ==> released[i].chunk in Repr && !released[i].chunk.isLoaded)
    }

    /**
     * The areas extend before: the areas already loaded stay, in place, and
     * every area after them was allocated since.
     */
    twostate predicate Grows(before: seq<Area>)
      reads this
    {
      before <= areas && forall j :: |before| <= j < |areas| ==> fresh(areas[j])
    }

    /** A world with no area loaded. */
    constructor (seed: int, noise: NoiseField)
      ensures Valid() && this.seed == seed && this.noise == noise
      ensures areas == [] && released == [] && Repr == {}
    {
      this.seed := seed;
      this.noise := noise;
      areas := [];
      cells := [];
      released := [];
      Repr := {};
      Grids := {};
    }

    /** Visits every resident area once, in load order; visited holds what each visit returned. */
    method EachArea<T>(visit: Area -> T) returns (visited: seq<T>)
      ensures |visited| == |areas|
      ensures forall i :: 0 <= i < |areas| ==> visited[i] == visit(areas[i])
    {
      visited := [];
      for i := 0 to |areas|
        invariant |visited| == i
        invariant forall j :: 0 <= j < i ==> visited[j] == visit(areas[j])
      {
        visited := visited + [visit(areas[i])];
      }
    }

    /** Linear search for the first area at a location. */
    method GetAreaByLocalPos(pos: Location) returns (found: Option<Area>)
      ensures found == Lookup(areas, pos)
    {
      for i := 0 to |areas|
        invariant Lookup(areas, pos) == Lookup(areas[i..], pos)
      {
        assert areas[i..][1..] == areas[i + 1..];
        if areas[i].location == pos {
          return Some(areas[i]);
        }
      }
      return None;
    }

    /** The grid cell of a world position, from its x and z coordinates. */
    static function GetChunkLocationByPosition(pos: Vector3): (loc: Location)
      ensures (loc.x * SCALE_OFFSET) as real < pos.x <= ((loc.x + 1) * SCALE_OFFSET) as real
      ensures (loc.y * SCALE_OFFSET) as real < pos.z <= ((loc.y + 1) * SCALE_OFFSET) as real
    {
      Location(CellOf(pos.x), CellOf(pos.z))
    }

    /**
     * Returns the area at a location, generating and appending it first when
     * the location is not resident.
     */
    method LoadOrGetAreaByLocation(location: Location) returns (area: Area)
      requires Valid()
      modifies this
      ensures Valid() && released == old(released)
      ensures area.location == location && area in areas
      ensures cells == Insert(old(cells), location)
      ensures location in old(cells) ==>
        areas == old(areas) && old(Lookup(areas, location)) == Some(area)
      ensures location !in old(cells) ==>
        areas == old(areas) + [area] && fresh(area) && fresh(area.chunk)
      ensures Grows(old(areas))
      ensures location in old(cells) ==> Repr == old(Repr)
      ensures location !in old(cells) ==> Repr == old(Repr) + {area.chunk}
      ensures fresh(Repr - old(Repr))
    {
      var foundArea := GetAreaByLocalPos(location);
      if foundArea.Some? {
        return foundArea.value;
      }
      var chunk := Generate(location);
      area := new Area(location, chunk);
      areas := areas + [area];
      cells := cells + [location];
      Repr := Repr + {chunk};
      Grids := Grids + {chunk.heights};
      assert Locations(areas) == Locations(old(areas)) + [location];
    }

    /** A new chunk for a location, loaded from this world's noise field. */
    method Generate(location: Location) returns (chunk: Chunk)
      ensures fresh(chunk) && fresh(chunk.heights)
      ensures chunk.location == location && chunk.isLoaded && chunk.Holds(noise)
    {
      chunk := new Chunk(location);
      chunk.Load(noise);
    }

    /** The area of the cell that contains a world position. */
    method GetArea(pos: Vector3) returns (area: Area)
      requires Valid()
      modifies this
      ensures Valid() && released == old(released)
      ensures area.location == GetChunkLocationByPosition(pos) && area in areas
      ensures cells == Insert(old(cells), GetChunkLocationByPosition(pos))
      ensures GetChunkLocationByPosition(pos) in old(cells) ==>
        areas == old(areas) && old(Lookup(areas, GetChunkLocationByPosition(pos))) == Some(area)
      ensures GetChunkLocationByPosition(pos) !in old(cells) ==>
        areas == old(areas) + [area] && fresh(area) && fresh(area.chunk)
      ensures Grows(old(areas))
      ensures GetChunkLocationByPosition(pos) in old(cells) ==> Repr == old(Repr)
      ensures GetChunkLocationByPosition(pos) !in old(cells) ==> Repr == old(Repr) + {area.chunk}
      ensures fresh(Repr - old(Repr))
    {
      var location := GetChunkLocationByPosition(pos);
      area := LoadOrGetAreaByLocation(location);
    }

    /**
     * Get-or-loads the 8 cells around an area, north first and clockwise, one
     * after the other.
     */
    method LoadNeighbours(area: Area)
      requires Valid()
      modifies this
      ensures Valid() && released == old(released)
      ensures cells == Prefetch(old(cells), Neighbours(area.location))
      ensures Grows(old(areas))
      ensures Repr == old(Repr) + (set j | |old(areas)| <= j < |areas| :: areas[j].chunk)
      ensures fresh(Repr - old(Repr))
    {
      var around := Neighbours(area.location);
      for k := 0 to |around|
        invariant Valid() && released == old(released)
        invariant cells == Prefetch(old(cells), around[..k])
        invariant Grows(old(areas))
        invariant Repr == old(Repr) + (set j | |old(areas)| <= j < |areas| :: areas[j].chunk)
        invariant fresh(Repr - old(Repr))
      {
        PrefetchStep(old(cells), around, k);
        var _ := LoadOrGetAreaByLocation(around[k]);
      }
      assert around[..|around|] == around;
    }

    /**
     * Removes, in one front-to-back pass, every area whose Euclidean distance
     * from the cell of pos exceeds 2, unloading each removed area once.
     */
    method UnloadFarAreas(pos: Vector3)
      requires Valid()
      modifies this, Repr
      ensures Valid() && Repr == old(Repr)
      ensures areas == Kept(old(areas), GetChunkLocationByPosition(pos))
      ensures cells == KeptCells(old(cells), GetChunkLocationByPosition(pos))
      ensures released == old(released) + Evicted(old(areas), GetChunkLocationByPosition(pos))
      ensures forall j :: 0 <= j < |old(areas)| ==>
        old(areas)[j].chunk.isLoaded == Near(GetChunkLocationByPosition(pos), old(areas)[j].location)
    {
      var currentLocation := GetChunkLocationByPosition(pos);
      ghost var s := areas;
      ghost var done: seq<Area> := [];
      ghost var rest := areas;
      var i := 0;
      while i < |areas|
        invariant Valid()
        invariant s == done + rest && Repr == old(Repr) && Grids == old(Grids)
        invariant areas == Kept(done, currentLocation) + rest && i == |Kept(done, currentLocation)|
        invariant released == old(released) + Evicted(done, currentLocation)
        decreases |rest|
      {
        i := VisitArea(currentLocation, i, done, rest, old(released));
        done, rest := done + [rest[0]], rest[1..];
      }
      assert rest == [] && done == s;
      EvictionDone(s, currentLocation, old(released));
    }

    /**
     * The body of the UnloadFarAreas pass: areas holds the kept areas among
     * those visited (done) followed by those still to visit (rest); the next
     * one, at index i, is erased and unloaded when it lies beyond the radius
     * around c, and stepped over otherwise. Returns the index of the area to
     * visit after it. The cache stays valid.
     */
    method VisitArea(c: Location, i: nat, ghost done: seq<Area>, ghost rest: seq<Area>,
                     ghost log: seq<Area>) returns (next: nat)
      requires Valid()
      requires rest != []
      requires areas == Kept(done, c) + rest && i == |Kept(done, c)|
      requires released == log + Evicted(done, c)
      modifies this, Repr
      ensures Valid() && Repr == old(Repr) && Grids == old(Grids)
      ensures areas == Kept(done + [rest[0]], c) + rest[1..] && next == |Kept(done + [rest[0]], c)|
      ensures released == log + Evicted(done + [rest[0]], c)
    {
      EvictionStep(done, rest, c);
      next := i;
      var area := areas[i];
      if Dist2(c, area.location) > FAR_RADIUS * FAR_RADIUS {
        ghost var before := areas;
        areas := areas[..i] + areas[i + 1..];
        EraseKeepsOthers(before, i);
        assert area.chunk in Repr;
        Unload(area);
        AppendAssoc(log, Evicted(done, c), [area]);
        cells := Locations(areas);
        EraseKeepsValid(before, i, log + Evicted(done, c));
      } else {
        next := i + 1;
      }
    }

    /**
     * Erasing the i-th area of a valid cache leaves areas that are resident
     * and do not share the erased area's chunk.
     */
    lemma EraseKeepsOthers(before: seq<Area>, i: nat)
      requires i < |before| && areas == before[..i] + before[i + 1..]
      requires Unique(Locations(before))
      requires forall j :: 0 <= j < |before| ==>
        before[j].chunk in Repr && before[j].chunk.heights in Grids && Resident(before[j])
      ensures forall j :: 0 <= j < |areas| ==>
        areas[j].chunk != before[i].chunk &&
        areas[j].chunk in Repr && areas[j].chunk.heights in Grids && Resident(areas[j])
    {
      ChunkOwnedOnce(before, i);
      forall j | 0 <= j < |areas|
        ensures areas[j].chunk != before[i].chunk
        ensures areas[j].chunk in Repr && areas[j].chunk.heights in Grids && Resident(areas[j])
      {
        var k := if j < i then j else j + 1;
        assert areas[j] == before[k] && k != i;
      }
    }

    /**
     * Once the i-th area of a valid cache is erased, unloaded and logged as
     * released, the cache is valid again.
     */
    lemma EraseKeepsValid(before: seq<Area>, i: nat, log: seq<Area>)
      requires i < |before| && Unique(Locations(before)) && Unique(log)
      requires forall j :: 0 <= j < |before| ==> before[j] !in log
      requires areas == before[..i] + before[i + 1..] && cells == Locations(areas)
      requires forall j :: 0 <= j < |areas| ==>
        areas[j].chunk in Repr && areas[j].chunk.heights in Grids && Resident(areas[j])
      requires released == log + [before[i]]
      requires forall j :: 0 <= j < |released| ==> released[j].chunk in Repr && !released[j].chunk.isLoaded
      ensures Valid()
    {
      UniqueAreas(before);
      assert Locations(areas) == Locations(before)[..i] + Locations(before)[i + 1..];
      UniqueRemove(Locations(before), i);
      UniqueRemove(before, i);
      UniqueAppend(log, [before[i]]);
      forall j | 0 <= j < |areas| ensures areas[j] !in released {
        var k := if j < i then j else j + 1;
        assert areas[j] == before[k] && k != i;
      }
    }

    /**
     * After a pass over the areas s of a valid cache that kept Kept(s, c) and
     * released Evicted(s, c), the cache lists the locations KeptCells keeps,
     * and every area of s is loaded exactly when it is near c.
     */
    lemma EvictionDone(s: seq<Area>, c: Location, log: seq<Area>)
      requires Valid() && areas == Kept(s, c) && released == log + Evicted(s, c)
      ensures cells == KeptCells(Locations(s), c)
      ensures forall j :: 0 <= j < |s| ==> s[j].chunk.isLoaded == Near(c, s[j].location)
    {
      KeptLocations(s, c);
      KeptEvictedMembers(s, c);
      forall j | 0 <= j < |s| ensures s[j].chunk.isLoaded == Near(c, s[j].location) {
        assert s[j] in s;
        if Near(c, s[j].location) {
          var k :| 0 <= k < |areas| && areas[k] == s[j];
          assert Resident(areas[k]);
        } else {
          var k :| 0 <= k < |Evicted(s, c)| && Evicted(s, c)[k] == s[j];
          assert released[|log| + k] == s[j];
        }
      }
    }

    /** Unloads one area's chunk and releases its texture and model. */
    method Unload(area: Area)
      modifies this, area.chunk
      ensures areas == old(areas) && released == old(released) + [area]
      ensures cells == old(cells) && Repr == old(Repr) && Grids == old(Grids)
      ensures !area.chunk.isLoaded
    {
      var _ := area.chunk.Unload();
      released := released + [area];
    }

    /** Unloads every area, then empties the cache. */
    method UnloadAll()
      requires Valid()
      modifies this, Repr
      ensures Valid()
      ensures areas == [] && released == old(released) + old(areas)
      ensures forall a :: a in old(areas) ==> !a.chunk.isLoaded
    {
      ghost var s := areas;
      UniqueAreas(s);
      assert forall j :: 0 <= j < |s| ==> Resident(s[j]);
      for i := 0 to |areas|
        invariant areas == s && Repr == old(Repr) && Grids == old(Grids)
        invariant released == old(released) + s[..i]
        invariant forall j :: 0 <= j < |s| ==> s[j].chunk.isLoaded == (i <= j)
        invariant forall j :: 0 <= j < |old(released)| ==> !old(released)[j].chunk.isLoaded
      {
        ChunkOwnedOnce(s, i);
        Unload(areas[i]);
        assert s[..i + 1] == s[..i] + [s[i]];
      }
      assert s[..|s|] == s;
      UniqueAppend(old(released), s);
      forall j | 0 <= j < |released| ensures released[j].chunk in Repr && !released[j].chunk.isLoaded {
        if j >= |old(released)| {
          assert released[j] == s[j - |old(released)|];
        }
      }
      areas := [];
      cells := [];
    }
  }

  /**
   * One step of the eviction pass: with the areas done decided and rest still
   * to visit, the list holds the kept ones followed by rest, so rest[0] is
   * next; dropping it (when far) or stepping over it (when near) leaves the
   * list for done + [rest[0]] decided.
   */
  lemma EvictionStep(done: seq<Area>, rest: seq<Area>, c: Location)
    requires rest != []
    ensures done + rest == (done + [rest[0]]) + rest[1..]
    ensures (Kept(done, c) + rest)[|Kept(done, c)|] == rest[0]
    ensures Near(c, rest[0].location) ==>
      Kept(done + [rest[0]], c) == Kept(done, c) + [rest[0]] &&
      Evicted(done + [rest[0]], c) == Evicted(done, c) &&
      Kept(done, c) + rest == Kept(done + [rest[0]], c) + rest[1..]
    ensures !Near(c, rest[0].location) ==>
      Kept(done + [rest[0]], c) == Kept(done, c) &&
      Evicted(done + [rest[0]], c) == Evicted(done, c) + [rest[0]] &&
      (Kept(done, c) + rest)[..|Kept(done, c)|] + (Kept(done, c) + rest)[|Kept(done, c)| + 1..]
        == Kept(done + [rest[0]], c) + rest[1..]
  {
    KeptSnoc(done, rest[0], c);
    SplitHead(done, rest);
    SplitHead(Kept(done, c), rest);
  }

  /** Deciding one more area extends the kept or the evicted areas by it. */
  lemma KeptSnoc(done: seq<Area>, a: Area, c: Location)
    ensures Kept(done + [a], c) == Kept(done, c) + (if Near(c, a.location) then [a] else [])
    ensures Evicted(done + [a], c) == Evicted(done, c) + (if Near(c, a.location) then [] else [a])
  {
    assert (done + [a])[..|done|] == done;
  }

  /**
   * In kept + rest, rest[0] sits at index |kept|; stepping over it moves it to
   * kept, and erasing it leaves kept + rest[1..].
   */
  lemma SplitHead<T>(kept: seq<T>, rest: seq<T>)
    requires rest != []
    ensures (kept + rest)[|kept|] == rest[0]
    ensures kept + rest == (kept + [rest[0]]) + rest[1..]
    ensures (kept + rest)[..|kept|] + (kept + rest)[|kept| + 1..] == kept + rest[1..]
  {
    assert (kept + rest)[..|kept|] == kept;
    assert (kept + rest)[|kept| + 1..] == rest[1..];
  }

  /** Erasing one element of a list without repeats leaves a list without repeats that lacks it. */
  lemma UniqueRemove<T>(xs: seq<T>, i: nat)
    requires i < |xs| && Unique(xs)
    ensures Unique(xs[..i] + xs[i + 1..]) && xs[i] !in xs[..i] + xs[i + 1..]
  {
    var ys := xs[..i] + xs[i + 1..];
    forall j | 0 <= j < |ys| ensures ys[j] == xs[if j < i then j else j + 1] { }
  }

  /** In a valid cache, no other resident area shares the chunk of area k. */
  lemma ChunkOwnedOnce(s: seq<Area>, k: int)
    requires Unique(Locations(s)) && 0 <= k < |s|
    requires forall a :: a in s ==> a.chunk.location == a.location
    ensures forall j :: 0 <= j < |s| && j != k ==> s[j].chunk != s[k].chunk
  {
    forall j | 0 <= j < |s| && j != k ensures s[j].chunk != s[k].chunk {
      assert Locations(s)[j] != Locations(s)[k];
    }
  }
}
