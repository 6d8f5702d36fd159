# Infinity terrain chunk cache, modelled in Dafny

This project models the chunk cache of InfinityTerrainGenerator and proves
properties of the model. The cache is the `InfinityWorld` struct with its
`ChunkNode` chunks in `include/world.h`, driven once per frame by the main
loop in `src/main.cpp`.

The world is cut into square cells, each 500 world units wide (100 samples at
a mesh scale of 5). A cell is named by an integer grid location. The cache
keeps a list of *areas*, and each area binds a location to its chunk. A chunk
is a 100 x 100 grid of heights sampled from a seeded noise field and clamped
to [0, 2]. Neighbouring chunks share their border row or column.

Each frame the program does five things in order:

1. It get-or-loads the area under the camera.
2. It get-or-loads the 8 areas around it.
3. It lets the camera move.
4. It draws every area.
5. It evicts every area farther than 2 cells, in Euclidean distance, from the
   camera's new cell.

The project has four modules:

- `grid.dfy` (module `Grid`) covers grid geometry:
  - the conversion from a world position to its cell;
  - the Moore neighbourhood, in the order the source loads it;
  - the eviction radius.

  It also holds the functions that specify what the cache does to its list
  of locations: `Insert` for get-or-load, `Prefetch` for the neighbourhood
  load and `KeptCells` for eviction. The lemmas about these functions are
  here too.
- `chunk.dfy` (module `Terrain`) covers the height function (three noise
  octaves, clamped) and the class `Chunk`. `Chunk` has its sample array
  `heights`, its `isLoaded` flag, the nested loop in `Load`, and the guarded
  `Unload`. This module also proves stitching and determinism.
- `world.dfy` (module `World`) covers the class `Area` and the class
  `InfinityWorld`:
  - The field `areas` is a `seq` that the methods reassign.
  - The methods that change the location list are proved against the
    location-list functions.
  - The class invariant `Valid()` states six things:
    1. the ghost list `cells` is the list of the areas' locations, and no
       two areas share a location;
    2. every resident area's chunk is in the footprint `Repr`, and its sample
       grid is in `Grids`;
    3. every resident area holds a loaded chunk generated for its own
       location;
    4. no area is released twice;
    5. no resident area has been released;
    6. every released area's chunk is in `Repr` and is unloaded.
  - The ghost log `released` records every area passed to `Unload(area)`.
    This lets "each evicted area is unloaded exactly once" be stated.
- `streaming.dfy` (module `Streaming`) covers one iteration of the frame loop
  (`Tick`), the draw positions, and the start-up scenario.

## Model

| member | source | states |
|---|---|---|
| Grid.CellOf | include/world.h:152-158 | the cell c of a coordinate p satisfies c*500 < p <= (c+1)*500 |
| Grid.CellOfCharacterised | include/world.h:152-158 | those bounds hold for exactly one cell, so every coordinate has exactly one cell |
| Grid.BoundaryMapsToLowerCell | include/world.h:152-158 | a coordinate exactly on a boundary k*500 lies in the lower cell k-1 |
| Grid.Ceil | include/world.h:155-156 | the result is the least integer not below its argument |
| Grid.Dist2 | include/world.h:166 | the squared distance is non-negative, and it is zero exactly when the two locations are equal |
| Grid.NearBounds | include/world.h:166 | `Near`, the negation of the source's distance test, is symmetric; it keeps every cell of the 3 x 3 block around the centre and nothing outside the 5 x 5 block |
| Grid.RingOfTwo | include/world.h:166 | of the 16 cells at Chebyshev distance 2, a cell is kept exactly when it is in the centre's row or column: the four straight cells are kept, and the eight knight-move and four diagonal cells are evicted |
| Grid.Neighbours | include/world.h:133-148 | the 8 locations loaded, in source order (N, NE, E, SE, S, SW, W, NW), are all neighbours of the centre and all within the eviction radius |
| Grid.NeighboursExact | include/world.h:133-140 | the 8 locations are exactly the cells at Chebyshev distance 1, and the centre with its 8 neighbours has no repeats |
| Grid.InsertSpec | include/world.h:113-129 | `Insert`, the effect of get-or-load on the location list: get-or-load makes the location present and adds nothing else; it keeps the old list as a prefix and grows it by at most one; it keeps the list free of repeats |
| Grid.PrefetchStep | include/world.h:141-148 | loading the k-th neighbour after the first k is the prefetch of the first k+1 |
| Grid.PrefetchSpec | include/world.h:131-149 | `Prefetch`, the effect of a neighbourhood load on the location list: after the load, every loaded cell is present and nothing else was added; the old list is a prefix; the list grew by at most 8 and has no repeats |
| Grid.PrefetchFresh | include/world.h:131-149 | when none of the cells is present yet, each one is appended in order |
| Grid.NeighbourhoodFromEmpty | include/world.h:107-149 | from an empty cache, loading a cell and then its neighbourhood gives exactly those 9 cells |
| Grid.KeptCells | include/world.h:160-176 | eviction never lengthens the list |
| Grid.KeptCellsSpec | include/world.h:160-176 | after eviction around c, a location is resident exactly when it was resident and is within the radius of c; no repeats appear |
| Grid.KeptCellsAppend | include/world.h:163-174 | the front-to-back pass treats each entry on its own: evicting a concatenation evicts each part |
| Grid.KeptCellsAllNear | include/world.h:163-174 | a list whose every location is in range comes through eviction unchanged, in order |
| Grid.KeptCellsAllFar | include/world.h:163-174 | a list whose every location is out of range is emptied |
| Grid.NeighbourhoodNear | include/world.h:133-166 | no cell of a 3 x 3 neighbourhood is evicted around its centre |
| Grid.MoveFarAwayLoads | include/world.h:107-149 | moving to a cell far from every resident one appends that cell and its 8 neighbours |
| Grid.KeptCellsFarThenNear | include/world.h:160-176 | evicting far cells followed by near ones leaves exactly the near ones |
| Grid.FarApartNotNear | include/world.h:166 | a cell next to o is out of range of a cell at least 4 away from o on some axis |
| Grid.NeighbourhoodOutOfRange | include/world.h:131-166 | the whole neighbourhood of o is out of range of such a cell |
| Grid.EvictionScenario | include/world.h:107-176 | from empty: loading the neighbourhood of o, then that of a far cell t, then evicting around t leaves exactly the 9 cells around t |
| Terrain.Clamp | include/world.h:33-38 | the result lies in [min, max]; it is the value itself when the value is in range, and otherwise the bound it crossed |
| Terrain.Octaves | include/world.h:33-36 | the sum of the three octaves lies in [-3, 3] whenever the noise field stays in [-1, 1] |
| Terrain.CalcHeight | include/world.h:31-39 | a height lies in [min, max], and it is the octave sum whenever that sum is in range |
| Terrain.Sample | include/world.h:44-51 | every generated sample lies in [0, 2] |
| Terrain.SampleStitchX | include/world.h:44-51 | the last column of a chunk samples the same world point as the first column of its eastern neighbour |
| Terrain.SampleStitchY | include/world.h:44-51 | the last row of a chunk samples the same world point as the first row of its southern neighbour |
| Terrain.Chunk.constructor | include/world.h:24 | a new chunk has its location, a 100 x 100 grid, and is not loaded |
| Terrain.Chunk.Load | include/world.h:41-56 | after the nested loop, every sample holds the generated height for its location, every sample is in [0, 2], and the chunk is loaded |
| Terrain.Chunk.Unload | include/world.h:58-63 | afterwards the chunk is not loaded; the image is released exactly when it was loaded |
| Terrain.UnloadTwice | include/world.h:58-63 | a second Unload releases nothing |
| Terrain.ChunksStitch | include/world.h:44-51 | two loaded chunks adjacent east-west or north-south agree sample for sample on their shared border |
| Terrain.ChunksDeterministic | include/world.h:41-56 | two loads of the same location give identical sample grids |
| World.Area.constructor | include/world.h:126 | the record built for a location stores that location and the chunk generated for it; the mesh and model are not part of the record |
| World.Lookup | include/world.h:95-105 | an area is found exactly when its location is resident, and the area found is resident and has that location |
| World.LookupUnique | include/world.h:95-105 | with unique locations, the area found for a location is the one that holds it |
| World.Kept | include/world.h:160-176 | eviction keeps at most the areas it was given |
| World.Evicted | include/world.h:160-176 | every area is either kept or evicted |
| World.KeptEvictedSplit | include/world.h:160-176 | when the out-of-range areas form a prefix, eviction releases exactly that prefix and keeps the rest, in order |
| World.KeptLocations | include/world.h:160-176 | evicting areas evicts exactly their locations |
| World.KeptEvictedMembers | include/world.h:160-176 | the kept areas are exactly those in range and the evicted ones exactly those out of range; neither part repeats an area |
| World.InfinityWorld.constructor | include/world.h:77-80 | a new world stores its seed, has no areas, and satisfies the cache invariant |
| World.InfinityWorld.EachArea | include/world.h:87-93 | the callback is applied to every resident area once, in load order |
| World.InfinityWorld.GetAreaByLocalPos | include/world.h:95-105 | the linear search returns the first area with the location, or nothing when there is none |
| World.InfinityWorld.GetChunkLocationByPosition | include/world.h:152-158 | the x and z coordinates of the position lie inside the returned cell |
| World.InfinityWorld.LoadOrGetAreaByLocation | include/world.h:113-129 | a resident location returns its existing area and leaves the list alone; an absent location appends exactly one fresh area with a fresh loaded chunk; the chunk footprint is unchanged when the location is resident and grows by exactly the new chunk otherwise, so no chunk is generated redundantly; the areas already loaded stay, in place; the invariant is kept and the location list follows Insert |
| World.InfinityWorld.Generate | include/world.h:120-121 | a new chunk for the location is loaded and holds the heights generated for it |
| World.InfinityWorld.GetArea | include/world.h:107-111 | the area returned is resident and is the one for the position's cell; when that cell is resident, its existing area is returned and the list is unchanged; otherwise exactly one fresh area with a fresh chunk is appended; the chunk footprint is unchanged when the cell is resident and grows by exactly the new chunk otherwise; the areas already loaded stay, in place; the location list follows Insert; nothing is released |
| World.InfinityWorld.LoadNeighbours | include/world.h:131-149 | the location list becomes Prefetch of the 8 neighbours; the areas already loaded stay, in place, and every area after them is fresh, so no loaded area is regenerated; the chunk footprint grows by exactly the chunks of the appended areas; nothing is released; the invariant is kept |
| World.InfinityWorld.UnloadFarAreas | include/world.h:160-176 | the areas left are exactly the kept ones, in order; the evicted ones are released once each, in order; every area of the old list is loaded exactly when it is within the radius; the invariant is kept |
| World.InfinityWorld.VisitArea | include/world.h:165-173 | one step of the pass either erases and unloads the area under the iterator or steps over it, as the distance test decides; the invariant is kept |
| World.InfinityWorld.EraseKeepsOthers | include/world.h:168 | erasing one area leaves the others resident, and none of them shares its chunk |
| World.InfinityWorld.EraseKeepsValid | include/world.h:168-169 | erasing, unloading and logging one area restores the cache invariant |
| World.InfinityWorld.EvictionDone | include/world.h:160-176 | after the pass the location list is KeptCells, and each old area is loaded exactly when it is in range |
| World.InfinityWorld.Unload | include/world.h:178-183 | the chunk is unloaded, the area is logged as released once, and the area list is unchanged |
| World.InfinityWorld.UnloadAll | include/world.h:185-192 | every old area is released once, in order, and unloaded; the list is emptied; the invariant is kept |
| World.EvictionStep | include/world.h:163-174 | the index of the area under the iterator, and the list after erasing it or stepping over it, match the kept list extended by one decision |
| World.KeptSnoc | include/world.h:166-172 | deciding one more area adds it to the kept areas when it is in range, and to the evicted ones otherwise |
| World.ChunkOwnedOnce | include/world.h:120-127 | in a valid cache no two areas share a chunk |
| Streaming.DrawOrigin | src/main.cpp:85-87 | an area is drawn at height -150, at its cell's corner, and that corner converts back to the cell below |
| Streaming.FootprintMapsBack | src/main.cpp:85-87 | every point of the half-open footprint (o, o + 500] on both axes, o being the draw origin, converts back to the area's own cell; the west and north edges at o belong to the neighbouring cell, as DrawOrigin states |
| Streaming.Origins | src/main.cpp:85-87 | one draw position per area, each at the corner of its area's cell |
| Streaming.Tick | src/main.cpp:64-96 | one frame loads without regenerating: the old areas stay in place and the new ones are fresh and follow the neighbourhood load; it draws every area so loaded, in order; it then keeps exactly those old and new area objects near the camera's new cell, releases the others in order, leaves each loaded exactly when near, and leaves the cells AfterTick gives; the invariant is kept |
| Streaming.LoadAroundCamera | src/main.cpp:66-67 | the loading half of a frame: the location list becomes the cell under the camera and its neighbourhood get-or-loaded in turn; the areas already loaded stay, in place; the chunk footprint grows by exactly the chunks of the appended areas; nothing is released |
| Streaming.AfterTickSpec | src/main.cpp:66-94 | `AfterTick`, one frame's effect on the location list: a cell is resident afterwards exactly when it was resident or loaded by the frame and lies within range of the camera's new cell; the list grows by at most 9 and keeps no repeats |
| Streaming.StayKeepsNeighbourhood | src/main.cpp:66-94 | if the camera stays in its cell, the cell and all 8 neighbours stay resident; exactly the out-of-range cells go; no repeats appear |
| Streaming.DiagonalCrossingEvicts | src/main.cpp:66-94 | a camera crossing diagonally into the next cell evicts a neighbour that the same frame loaded |
| Streaming.Scenario | src/main.cpp:50-94 | with seed 12456, one frame at the start position loads and draws the 9 cells around (0,0); one frame over (5250, 10, 5250) draws all 18 and leaves exactly the 9 around (10,10); the areas of (0,0)'s neighbourhood are released, each once, and unloaded |
| Streaming.FirstFrame | src/main.cpp:50-94 | the first frame over the empty world draws the 9 cells around (0,0) and releases nothing |
| Streaming.SecondFrame | src/main.cpp:64-94 | the second frame, over (5250, 10, 5250), draws all 18 cells, leaves the 9 around (10,10), and releases exactly the first frame's areas |
| Streaming.ScenarioKeepsFirst | src/main.cpp:94 | eviction in the first frame keeps every area it loaded and releases none |
| Streaming.ScenarioReleasesFirst | src/main.cpp:94 | eviction in the second frame releases exactly the areas of the first frame |
| Streaming.FirstFrameCells | src/main.cpp:50-67 | the start position lies in cell (0,0), and the first frame over an empty world loads and keeps exactly the 9 cells around it |
| Streaming.SecondFrameCells | src/main.cpp:64-94 | 5250 lies in cell 10, and the second frame appends the 9 cells around (10,10) and keeps only those |

## Left out

- Floating point. Positions and heights are `real`, so `float` rounding is
  not modelled. Locations are integers: they come from `ceil(...) - 1` and
  ±1 offsets. On such values the `(int)` casts in the lookup are the
  identity, and `Vector2Distance(...) > 2` is exactly `dx*dx + dy*dy > 4`.
- The noise library (`SimplexNoise::noise`, `setSeed`). It is a foreign
  floating-point function. It is replaced by a deterministic noise field,
  given to the world together with the seed. The field is taken to be the
  one `setSeed(seed)` produces; nothing in the model ties the two, so the
  seed 12456 of `Scenario` constrains nothing. Only the octave sum and the
  clamp are modelled, and the [-1, 1] range of simplex noise is a
  hypothesis of the bound on `Octaves`, not a fact proved.
- Graphics resources: the height-map image and its pixel encoding
  `(val/2)*255`, the texture, mesh and model, and their release calls. They
  belong to the graphics library. An area's release is recorded in the ghost
  log `released`, and a chunk's image release in the result of
  `Chunk.Unload`. The `mesh` and `model` fields of `Area` are not modelled.
- Reference counting (`shared_ptr`) and the destructors `~ChunkNode` and
  `~InfinityWorld`. Object lifetime is not modelled. The teardown that
  `~InfinityWorld` performs is `UnloadAll`.
- The uninitialised `isLoaded` in the `ChunkNode` constructor is modelled as
  `false`.
- `FAR_AREA_LIMIT_DISTANCE` is never used. The threshold that applies is the
  literal 2 in the distance test.
- Window, input, camera and drawing calls in the frame loop. The camera
  position before and after the camera update are parameters of `Tick`.
  Drawing an area is modelled by the position its model is drawn at.
- World.InfinityWorld.LoadNeighbours: the source makes eight consecutive
  calls. The model makes the same eight get-or-loads, in the same order, from
  a loop over `Neighbours`, because chaining eight calls' frame conditions in
  one proof is too costly for the verifier.
- World.InfinityWorld.UnloadFarAreas: the body of the iterator loop is the
  separate method `VisitArea`. Erasing at an index of the `seq` stands for
  `areas.erase(it)`.
- Eviction centre. Eviction is centred on the camera's cell after the
  camera update (src/main.cpp:94 and include/world.h:162), not on the cell
  the frame loaded around. So a cell loaded in a frame can be evicted in the
  same frame: `DiagonalCrossingEvicts` shows a camera crossing diagonally
  that evicts a neighbour it has just loaded.
- Proof structure of the frame loop. `Tick` delegates the two loading calls
  to `LoadAroundCamera`, because one proof over the whole frame is
  too costly for the verifier. The scenario is split into `FirstFrame` and
  `SecondFrame` for the same reason.
