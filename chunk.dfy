/**
 * One chunk of terrain (ChunkNode): a CHUNK_SIZE x CHUNK_SIZE grid of height
 * samples generated from a seeded noise field, with a load/unload lifecycle.
 *
 * Sample (x, y) of the chunk at grid location (cx, cy) is taken at the world
 * sample offset (cx * 99 + x, cy * 99 + y). Neighbouring chunks therefore share
 * their border row or column, which is what stitches them together.
 */
module Terrain {
  import opened Grid

  /** Frequencies of the three noise octaves that are summed into a height. */
  const LANDSCAPE_NOISE_SMALL: real := 0.001
  const LANDSCAPE_NOISE_MEDIUM: real := 0.01
  const LANDSCAPE_NOISE_BIG: real := 0.00009

  /** The seeded noise field: a deterministic function of a point. */
  type NoiseField = (real, real) -> real

  /** Clamp(value, min, max) as the graphics library defines it. */
  function Clamp(value: real, min: real, max: real): (r: real)
    ensures r == value || r == min || r == max
    ensures min <= max ==> min <= r <= max
    ensures min <= value <= max ==> r == value
    ensures value < min <= max ==> r == min
    ensures min <= max < value ==> r == max
  {
    var low := if value < min then min else value;
    if low > max then max else low
  }

  /** Whether a noise field stays within [-1, 1], as simplex noise does. */
  ghost predicate NoiseBounded(noise: NoiseField)
  {
    forall x, y :: -1.0 <= noise(x, y) <= 1.0
  }

  /**
   * The sum of the three noise octaves at world sample (X, Y): within
   * [-3, 3] for a bounded noise field.
   */
  function Octaves(noise: NoiseField, X: real, Y: real): (r: real)
    ensures NoiseBounded(noise) ==> -3.0 <= r <= 3.0
  {
    noise(X * LANDSCAPE_NOISE_SMALL, Y * LANDSCAPE_NOISE_SMALL) +
    noise(X * LANDSCAPE_NOISE_MEDIUM, Y * LANDSCAPE_NOISE_MEDIUM) +
    noise(X * LANDSCAPE_NOISE_BIG, Y * LANDSCAPE_NOISE_BIG)
  }

  /** The height at world sample (X, Y): the octave sum clamped to [min, max]. */
  function CalcHeight(noise: NoiseField, X: real, Y: real, min: int, max: int): (h: real)
    ensures min <= max ==> min as real <= h <= max as real
    ensures min as real <= Octaves(noise, X, Y) <= max as real ==> h == Octaves(noise, X, Y)
  {
    Clamp(Octaves(noise, X, Y), min as real, max as real)
  }

  /** The height that sample (x, y) of the chunk at loc holds once loaded. */
  function Sample(noise: NoiseField, loc: Location, x: int, y: int): (h: real)
    ensures 0.0 <= h <= 2.0
  {
    CalcHeight(noise, (loc.x * (CHUNK_SIZE - 1) + x) as real, (loc.y * (CHUNK_SIZE - 1) + y) as real, 0, 2)
  }

  /** The last column of a chunk is the first column of its eastern neighbour. */
  lemma SampleStitchX(noise: NoiseField, loc: Location, y: int)
    ensures Sample(noise, loc, CHUNK_SIZE - 1, y) == Sample(noise, Location(loc.x + 1, loc.y), 0, y)
  {
  }

  /** The last row of a chunk is the first row of its southern neighbour. */
  lemma SampleStitchY(noise: NoiseField, loc: Location, x: int)
    ensures Sample(noise, loc, x, CHUNK_SIZE - 1) == Sample(noise, Location(loc.x, loc.y + 1), x, 0)
  {
  }

  class Chunk {
    const location: Location
    const heights: array2<real>
    var isLoaded: bool

    /** A fresh, not yet loaded chunk for a grid location. */
    constructor (location: Location)
      ensures this.location == location && !isLoaded
      ensures fresh(heights) && Shaped()
    {
      this.location := location;
      heights := new real[CHUNK_SIZE, CHUNK_SIZE];
      isLoaded := false;
    }

    /** The sample grid has CHUNK_SIZE x CHUNK_SIZE entries. */
    predicate Shaped()
    {
      heights.Length0 == CHUNK_SIZE && heights.Length1 == CHUNK_SIZE
    }

    /** Every sample holds the height generated for this chunk's location. */
    ghost predicate Holds(noise: NoiseField)
      reads heights
    {
      Shaped() &&
      forall x, y :: 0 <= x < CHUNK_SIZE && 0 <= y < CHUNK_SIZE ==>
        heights[x, y] == Sample(noise, location, x, y)
    }

    /** Generates every sample from the noise field and marks the chunk loaded. */
    method Load(noise: NoiseField)
      requires Shaped()
      modifies this, heights
      ensures isLoaded && Holds(noise)
      ensures forall x, y :: 0 <= x < CHUNK_SIZE && 0 <= y < CHUNK_SIZE ==> 0.0 <= heights[x, y] <= 2.0
    {
      var offsetX := location.x * (CHUNK_SIZE - 1);
      var offsetY := location.y * (CHUNK_SIZE - 1);
      for x := 0 to CHUNK_SIZE
        invariant forall i, j :: 0 <= i < x && 0 <= j < CHUNK_SIZE ==>
          heights[i, j] == Sample(noise, location, i, j)
      {
        for y := 0 to CHUNK_SIZE
          invariant forall i, j :: 0 <= i < x && 0 <= j < CHUNK_SIZE ==>
            heights[i, j] == Sample(noise, location, i, j)
          invariant forall j :: 0 <= j < y ==> heights[x, j] == Sample(noise, location, x, j)
        {
          var val := CalcHeight(noise, (offsetX + x) as real, (offsetY + y) as real, 0, 2);
          heights[x, y] := val;
        }
      }
      isLoaded := true;
    }

    /**
     * Releases the height-map image if the chunk is loaded, and does nothing
     * otherwise; freed tells whether an image was released.
     */
    method Unload() returns (ghost freed: bool)
      modifies this
      ensures !isLoaded
      ensures freed == old(isLoaded)
    {
      freed := isLoaded;
      if !isLoaded {
        return;
      }
      isLoaded := false;
    }
  }

  /** A second Unload releases nothing: unloading is idempotent. */
  method UnloadTwice(c: Chunk) returns (ghost first: bool, ghost second: bool)
    modifies c
    ensures first == old(c.isLoaded) && !second && !c.isLoaded
  {
    first := c.Unload();
    second := c.Unload();
  }

  /** Adjacent loaded chunks agree sample for sample on their shared border. */
  lemma ChunksStitch(noise: NoiseField, a: Chunk, b: Chunk)
    requires a.Holds(noise) && b.Holds(noise)
    ensures b.location == Location(a.location.x + 1, a.location.y) ==>
      forall y :: 0 <= y < CHUNK_SIZE ==> a.heights[CHUNK_SIZE - 1, y] == b.heights[0, y]
    ensures b.location == Location(a.location.x, a.location.y + 1) ==>
      forall x :: 0 <= x < CHUNK_SIZE ==> a.heights[x, CHUNK_SIZE - 1] == b.heights[x, 0]
  {
  }

  /** Two loads of the same location produce identical sample grids. */
  lemma ChunksDeterministic(noise: NoiseField, a: Chunk, b: Chunk)
    requires a.Holds(noise) && b.Holds(noise) && a.location == b.location
    ensures forall x, y :: 0 <= x < CHUNK_SIZE && 0 <= y < CHUNK_SIZE ==> a.heights[x, y] == b.heights[x, y]
  {
  }
}
