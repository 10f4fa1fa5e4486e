/** Row-major indexing of the size-by-size terrain grid: cell (x, z) lives at x*size+z. */
module Grid {

  predicate InGrid(size: int, x: int, z: int)
  {
    0 <= x < size && 0 <= z < size
  }

  /** The flat index the source uses for cell (x, z). */
  function Idx(size: int, x: int, z: int): int
  {
    x * size + z
  }

  lemma MulMonotone(a: int, b: int, c: int)
    requires 0 <= c && a <= b
    ensures a * c <= b * c
  {
    assert b * c - a * c == (b - a) * c;
  }

  /** Every cell of the grid has a flat index inside the heightmap. */
  lemma IdxInBounds(size: int, x: int, z: int)
    requires InGrid(size, x, z)
    ensures 0 <= Idx(size, x, z) < size * size
  {
    MulMonotone(0, x, size);
    MulMonotone(x, size - 1, size);
    assert (size - 1) * size == size * size - size;
  }

  /** The flat index determines the cell: division and remainder recover x and z. */
  lemma DivMod(size: int, x: int, z: int)
    requires 0 <= z < size
    ensures (x * size + z) / size == x && (x * size + z) % size == z
  {
    var k := x * size + z;
    var q, r := k / size, k % size;
    assert k == q * size + r;
    assert (x - q) * size == r - z;
    if x - q >= 1 {
      MulMonotone(1, x - q, size);
      assert false;
    } else if x - q <= -1 {
      MulMonotone(x - q, -1, size);
      assert false;
    }
  }

  /** Every flat index below size*size names a cell of the grid. */
  lemma CellInGrid(size: int, k: int)
    requires 0 <= size && 0 <= k < size * size
    ensures size > 0
    ensures InGrid(size, k / size, k % size)
  {
    var q := k / size;
    if q >= size {
      MulMonotone(size, q, size);
      assert false;
    }
  }

  /** The cell after the last of row x - 1 is the first of row x. */
  lemma NextRow(size: int, x: int)
    ensures Idx(size, x - 1, size) == Idx(size, x, 0)
  {
    assert (x - 1) * size == x * size - size;
  }
}
