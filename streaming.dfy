/**
 * The frame loop that drives the chunk cache: each tick loads the cell under
 * the camera and its neighbourhood, lets the camera move, draws every
 * resident area, and evicts around the camera's new cell.
 *
 * Window, input and rendering are outside the model: the camera position
 * before and after the camera update is a parameter of a tick, and drawing an
 * area is modelled by the world position its model is drawn at.
 */
module Streaming {
  import opened Grid
  import opened Terrain
  import opened World

  /** The seed the application creates its world with. */
  const SEED: int := 12456
  /** The camera position at start-up. */
  const START: Vector3 := Vector3(0.1, 10.0, 0.1)
  /** The height every area model is drawn at. */
  const DRAW_HEIGHT: real := -150.0

  /** The world position an area's model is drawn at: its cell's corner, scaled. */
  function DrawOrigin(l: Location): (v: Vector3)
    ensures v.y == DRAW_HEIGHT
    ensures CellOf(v.x) == l.x - 1 && CellOf(v.z) == l.y - 1
  {
    BoundaryMapsToLowerCell(l.x);
    BoundaryMapsToLowerCell(l.y);
    Vector3((l.x * SCALE_OFFSET) as real, DRAW_HEIGHT, (l.y * SCALE_OFFSET) as real)
  }

  /**
   * The footprint of an area's model, one cell wide beyond its draw origin,
   * lies in the area's own cell: a camera over the drawn terrain is in the
   * cell whose area is drawn there.
   */
  lemma FootprintMapsBack(l: Location, dx: real, dz: real)
    requires 0.0 < dx <= SCALE_OFFSET as real && 0.0 < dz <= SCALE_OFFSET as real
    ensures CellOf(DrawOrigin(l).x + dx) == l.x && CellOf(DrawOrigin(l).z + dz) == l.y
  {
    var o := DrawOrigin(l);
    assert ((l.x + 1) * SCALE_OFFSET) as real == o.x + SCALE_OFFSET as real;
    assert ((l.y + 1) * SCALE_OFFSET) as real == o.z + SCALE_OFFSET as real;
    CellOfCharacterised(o.x + dx, l.x);
    CellOfCharacterised(o.z + dz, l.y);
  }

  /** The draw origins of a list of locations, in order. */
  function Origins(ls: seq<Location>): (vs: seq<Vector3>)
    ensures |vs| == |ls|
    ensures forall i :: 0 <= i < |ls| ==> CellOf(vs[i].x) == ls[i].x - 1 && CellOf(vs[i].z) == ls[i].y - 1
  {
    seq(|ls|, i requires 0 <= i < |ls| => DrawOrigin(ls[i]))
  }

  /**
   * One iteration of the frame loop with the camera at before when the tick
   * starts and at after once the camera has been updated. Returns where each
   * area was drawn, in the order EachArea visits them, and (ghost) the areas
   * resident once loading is done: the old ones, in place, then the new ones.
   * Eviction then keeps the old area objects near the camera's new cell and
   * releases the others, in list order.
   */
  method Tick(world: InfinityWorld, before: Vector3, after: Vector3)
    returns (drawn: seq<Vector3>, ghost loaded: seq<Area>)
    requires world.Valid()
    modifies world, world.Repr
    ensures world.Valid() && fresh(world.Repr - old(world.Repr))
    ensures old(world.areas) <= loaded
    ensures forall j :: |old(world.areas)| <= j < |loaded| ==> fresh(loaded[j])
    ensures Locations(loaded) == Prefetch(Insert(old(world.cells), InfinityWorld.GetChunkLocationByPosition(before)),
                                          Neighbours(InfinityWorld.GetChunkLocationByPosition(before)))
    ensures drawn == Origins(Locations(loaded))
    ensures world.areas == Kept(loaded, InfinityWorld.GetChunkLocationByPosition(after))
    ensures world.released == old(world.released) + Evicted(loaded, InfinityWorld.GetChunkLocationByPosition(after))
    ensures forall j :: 0 <= j < |loaded| ==>
      loaded[j].chunk.isLoaded == Near(InfinityWorld.GetChunkLocationByPosition(after), loaded[j].location)
    ensures world.cells == AfterTick(old(world.cells), InfinityWorld.GetChunkLocationByPosition(before),
                                     InfinityWorld.GetChunkLocationByPosition(after))
  {
    LoadAroundCamera(world, before);
    loaded := world.areas;
    drawn := world.EachArea((a: Area) => DrawOrigin(a.location));
    DrawnInLoadOrder(loaded, drawn);
    world.UnloadFarAreas(after);
  }

  /**
   * The loading half of a tick: get-or-load the camera's cell, then its
   * neighbourhood. Loaded areas stay in place; new ones are appended.
   */
  method LoadAroundCamera(world: InfinityWorld, pos: Vector3)
    requires world.Valid()
    modifies world
    ensures world.Valid() && world.released == old(world.released) && fresh(world.Repr - old(world.Repr))
    ensures world.Grows(old(world.areas))
    ensures world.Repr == old(world.Repr) + (set j | |old(world.areas)| <= j < |world.areas| :: world.areas[j].chunk)
    ensures world.cells == Prefetch(Insert(old(world.cells), InfinityWorld.GetChunkLocationByPosition(pos)),
                                    Neighbours(InfinityWorld.GetChunkLocationByPosition(pos)))
  {
    var localArea := world.GetArea(pos);
    world.LoadNeighbours(localArea);
  }

  /** Drawing each area at its own origin, in load order, draws the origins of the location list. */
  lemma DrawnInLoadOrder(areas: seq<Area>, drawn: seq<Vector3>)
    requires |drawn| == |areas|
    requires forall i :: 0 <= i < |areas| ==> drawn[i] == DrawOrigin(areas[i].location)
    ensures drawn == Origins(Locations(areas))
  {
  }

  /** The cells a tick leaves resident: Tick's effect on the location list. */
  function AfterTick(ls: seq<Location>, here: Location, next: Location): seq<Location>
  {
    KeptCells(Prefetch(Insert(ls, here), Neighbours(here)), next)
  }

  /**
   * After a tick, a cell is resident exactly when it was resident or loaded
   * by the tick, and lies within range of the camera's new cell; a tick adds
   * at most 9 cells and keeps the list free of repeats.
   */
  lemma AfterTickSpec(ls: seq<Location>, here: Location, next: Location)
    ensures forall m :: m in AfterTick(ls, here, next) <==>
      (m in ls || m == here || m in Neighbours(here)) && Near(next, m)
    ensures |AfterTick(ls, here, next)| <= |ls| + 9
    ensures Unique(ls) ==> Unique(AfterTick(ls, here, next))
  {
    InsertSpec(ls, here);
    PrefetchSpec(Insert(ls, here), Neighbours(here));
    KeptCellsSpec(Prefetch(Insert(ls, here), Neighbours(here)), next);
  }

  /**
   * A tick whose camera stays in its cell leaves that cell and its whole
   * neighbourhood resident, drops exactly the cells beyond the radius, and
   * keeps the list free of repeats.
   */
  lemma StayKeepsNeighbourhood(ls: seq<Location>, c: Location)
    requires Unique(ls)
    ensures forall i :: 0 <= i < |Neighbours(c)| ==> Neighbours(c)[i] in AfterTick(ls, c, c)
    ensures c in AfterTick(ls, c, c)
    ensures forall m :: m in AfterTick(ls, c, c) <==> (m in ls && Near(c, m)) || m == c || m in Neighbours(c)
    ensures Unique(AfterTick(ls, c, c))
  {
    InsertSpec(ls, c);
    PrefetchSpec(Insert(ls, c), Neighbours(c));
    KeptCellsSpec(Prefetch(Insert(ls, c), Neighbours(c)), c);
  }

  /**
   * The eviction centre is the camera's cell after the camera update, not the
   * cell the tick loaded around: a camera crossing diagonally from c into
   * c + (1, 1) evicts the north-west neighbour that the same tick loaded.
   */
  lemma DiagonalCrossingEvicts(ls: seq<Location>, c: Location)
    ensures Location(c.x - 1, c.y - 1) in Neighbours(c)
    ensures Location(c.x - 1, c.y - 1) in Prefetch(Insert(ls, c), Neighbours(c))
    ensures Location(c.x - 1, c.y - 1) !in AfterTick(ls, c, Location(c.x + 1, c.y + 1))
  {
    var corner := Location(c.x - 1, c.y - 1);
    assert Neighbours(c)[7] == corner;
    PrefetchSpec(Insert(ls, c), Neighbours(c));
    KeptCellsSpec(Prefetch(Insert(ls, c), Neighbours(c)), Location(c.x + 1, c.y + 1));
  }

  /**
   * The camera starts in cell (0, 0) and stays for a tick, then appears over
   * cell (10, 10) and stays for a tick: the first tick loads and draws the 9
   * cells around (0, 0) and releases nothing; the second loads the 9 around
   * (10, 10), draws all 18, and evicts the first 9, each released once and
   * unloaded.
   */
  method Scenario(noise: NoiseField) returns (world: InfinityWorld, first: seq<Vector3>, second: seq<Vector3>)
    ensures world.Valid() && world.seed == SEED
    ensures first == Origins([Location(0, 0)] + Neighbours(Location(0, 0)))
    ensures second == Origins(([Location(0, 0)] + Neighbours(Location(0, 0))) +
                              ([Location(10, 10)] + Neighbours(Location(10, 10))))
    ensures world.cells == [Location(10, 10)] + Neighbours(Location(10, 10))
    ensures Locations(world.released) == [Location(0, 0)] + Neighbours(Location(0, 0))
    ensures Unique(world.released)
    ensures forall j :: 0 <= j < |world.released| ==> !world.released[j].chunk.isLoaded
  {
    world := new InfinityWorld(SEED, noise);
    ghost var loaded := [];
    first, loaded := FirstFrame(world);
    second := SecondFrame(world, loaded);
  }

  /** The scenario's first frame, over the empty world: the 9 cells around (0, 0). */
  method FirstFrame(world: InfinityWorld) returns (first: seq<Vector3>, ghost loaded: seq<Area>)
    requires world.Valid() && world.areas == [] && world.released == []
    modifies world, world.Repr
    ensures world.Valid() && fresh(world.Repr - old(world.Repr))
    ensures first == Origins([Location(0, 0)] + Neighbours(Location(0, 0)))
    ensures world.areas == loaded && world.released == []
    ensures Locations(loaded) == [Location(0, 0)] + Neighbours(Location(0, 0))
  {
    FirstFrameCells();
    first, loaded := Tick(world, START, START);
    ScenarioKeepsFirst(loaded);
  }

  /**
   * The scenario's second frame, over the first one's areas: the 9 cells
   * around (10, 10) are loaded and the first 9 areas released.
   */
  method SecondFrame(world: InfinityWorld, ghost loaded: seq<Area>) returns (second: seq<Vector3>)
    requires world.Valid() && world.areas == loaded && world.released == []
    requires Locations(loaded) == [Location(0, 0)] + Neighbours(Location(0, 0))
    modifies world, world.Repr
    ensures world.Valid() && fresh(world.Repr - old(world.Repr))
    ensures second == Origins(([Location(0, 0)] + Neighbours(Location(0, 0))) +
                              ([Location(10, 10)] + Neighbours(Location(10, 10))))
    ensures world.cells == [Location(10, 10)] + Neighbours(Location(10, 10))
    ensures world.released == loaded
  {
    SecondFrameCells();
    ghost var loaded2;
    second, loaded2 := Tick(world, Vector3(5250.0, 10.0, 5250.0), Vector3(5250.0, 10.0, 5250.0));
    ScenarioReleasesFirst(loaded, loaded2);
  }

  /** The first tick of the scenario keeps every area it loaded. */
  lemma ScenarioKeepsFirst(loaded: seq<Area>)
    requires Locations(loaded) == [Location(0, 0)] + Neighbours(Location(0, 0))
    ensures Kept(loaded, Location(0, 0)) == loaded && Evicted(loaded, Location(0, 0)) == []
  {
    var o := Location(0, 0);
    NeighbourhoodNear(o);
    forall j | 0 <= j < |loaded| ensures Near(o, loaded[j].location) {
      assert loaded[j].location == Locations(loaded)[j];
    }
    KeptEvictedSplit(loaded, 0, o);
  }

  /**
   * The second tick of the scenario releases exactly the areas of the first,
   * and keeps the 9 it loaded.
   */
  lemma ScenarioReleasesFirst(loaded1: seq<Area>, loaded2: seq<Area>)
    requires Locations(loaded1) == [Location(0, 0)] + Neighbours(Location(0, 0))
    requires loaded1 <= loaded2
    requires Locations(loaded2) == ([Location(0, 0)] + Neighbours(Location(0, 0))) +
                                   ([Location(10, 10)] + Neighbours(Location(10, 10)))
    ensures Evicted(loaded2, Location(10, 10)) == loaded1
  {
    var o, t := Location(0, 0), Location(10, 10);
    var first, around := [o] + Neighbours(o), [t] + Neighbours(t);
    assert FarApart(o, t);
    NeighbourhoodOutOfRange(o, t);
    NeighbourhoodNear(t);
    forall j | 0 <= j < |loaded2| ensures Near(t, loaded2[j].location) <==> j >= |first| {
      assert loaded2[j].location == (first + around)[j];
      if j >= |first| {
        assert (first + around)[j] == around[j - |first|];
      }
    }
    KeptEvictedSplit(loaded2, |first|, t);
    assert |loaded1| == |first|;
  }

  /**
   * The start position lies in cell (0, 0), and the first frame over an empty
   * world loads and keeps exactly the 9 cells around it.
   */
  lemma FirstFrameCells()
    ensures CellOf(START.x) == 0 && CellOf(START.z) == 0
    ensures Prefetch(Insert([], Location(0, 0)), Neighbours(Location(0, 0)))
         == [Location(0, 0)] + Neighbours(Location(0, 0))
    ensures AfterTick([], Location(0, 0), Location(0, 0)) == [Location(0, 0)] + Neighbours(Location(0, 0))
  {
    var o := Location(0, 0);
    CellOfCharacterised(START.x, 0);
    NeighbourhoodFromEmpty(o);
    NeighbourhoodNear(o);
    KeptCellsAllNear([o] + Neighbours(o), o);
  }

  /**
   * The coordinate 5250 lies in cell 10, and the second frame, over the 9
   * cells around (0, 0), appends the 9 around (10, 10) and keeps only those.
   */
  lemma SecondFrameCells()
    ensures CellOf(5250.0) == 10
    ensures Prefetch(Insert([Location(0, 0)] + Neighbours(Location(0, 0)), Location(10, 10)), Neighbours(Location(10, 10)))
         == ([Location(0, 0)] + Neighbours(Location(0, 0))) + ([Location(10, 10)] + Neighbours(Location(10, 10)))
    ensures AfterTick([Location(0, 0)] + Neighbours(Location(0, 0)), Location(10, 10), Location(10, 10))
         == [Location(10, 10)] + Neighbours(Location(10, 10))
  {
    var o, t := Location(0, 0), Location(10, 10);
    CellOfCharacterised(5250.0, 10);
    assert FarApart(o, t);
    EvictionScenario(o, t);
  }
}
