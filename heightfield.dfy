/** The heightmap gen_map fills: one noise sample per cell, rescaled to [0, size]. */
module HeightField {
  import opened Grid

  /** The noise sample for cell (x, z): the seeded noise function evaluated at the
      cell's position relative to the centre of the grid. */
  function Sample(noise: (real, real) -> real, size: int, x: int, z: int): real
    requires size > 0
  {
    noise(x as real / size as real - 0.5, z as real / size as real - 0.5)
  }

  /** The height gen_map stores for cell (x, z): a sample in [-1, 1] becomes a
      height in [0, size], the middle of the noise range the middle height. */
  function Height(noise: (real, real) -> real, size: int, x: int, z: int): (h: real)
    requires size > 0
    ensures -1.0 <= Sample(noise, size, x, z) <= 1.0 ==> 0.0 <= h <= size as real
    ensures Sample(noise, size, x, z) == 0.0 ==> 2.0 * h == size as real
  {
    var s := Sample(noise, size, x, z);
    Rescale(size as real, s);
    size as real * (s / 2.0 + 0.5)
  }

  /** Mapping [-1, 1] onto [0, a]. */
  lemma Rescale(a: real, s: real)
    requires 0.0 <= a
    ensures -1.0 <= s <= 1.0 ==> 0.0 <= a * (s / 2.0 + 0.5) <= a
  {
    if -1.0 <= s <= 1.0 {
      var t := s / 2.0 + 0.5;
      assert 0.0 <= t <= 1.0;
      assert a * t <= a * 1.0;
    }
  }

  /** The sample of every cell of the grid is the noise at a point of
      [-0.5, 0.5) on both axes. */
  lemma SamplePositions(noise: (real, real) -> real, size: int, x: int, z: int)
    requires InGrid(size, x, z)
    ensures var u, v := x as real / size as real - 0.5, z as real / size as real - 0.5;
      -0.5 <= u < 0.5 && -0.5 <= v < 0.5 && Sample(noise, size, x, z) == noise(u, v)
  {
    assert x as real < size as real && z as real < size as real;
  }

  /** The whole heightmap, in the row-major order gen_map writes it. */
  function Field(noise: (real, real) -> real, size: int): (r: seq<real>)
    requires 0 <= size
    ensures |r| == size * size
  {
    seq(size * size, k requires 0 <= k < size * size =>
      CellInGrid(size, k);
      Height(noise, size, k / size, k % size))
  }

  /** Cell (x, z) of the heightmap holds that cell's height. */
  lemma FieldAt(noise: (real, real) -> real, size: int, x: int, z: int)
    requires InGrid(size, x, z)
    ensures 0 <= Idx(size, x, z) < |Field(noise, size)|
    ensures Field(noise, size)[Idx(size, x, z)] == Height(noise, size, x, z)
  {
    IdxInBounds(size, x, z);
    DivMod(size, x, z);
  }

  /** When the noise stays in [-1, 1], every height lies in [0, size]. */
  lemma FieldInRange(noise: (real, real) -> real, size: int)
    requires 0 <= size
    requires forall u, v :: -1.0 <= noise(u, v) <= 1.0
    ensures forall k :: 0 <= k < |Field(noise, size)| ==> 0.0 <= Field(noise, size)[k] <= size as real
  {
    forall k | 0 <= k < |Field(noise, size)|
      ensures 0.0 <= Field(noise, size)[k] <= size as real
    {
      CellInGrid(size, k);
      var s := Sample(noise, size, k / size, k % size);
      assert -1.0 <= s <= 1.0;
    }
  }
}
