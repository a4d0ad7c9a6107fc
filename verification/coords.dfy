/** Tile coordinates: validity and the ancestor ("container") at a coarser zoom. */
module Coords {

  datatype Coordinate = Coordinate(zoom: int, column: int, row: int)

  function Pow2(n: nat): (r: nat)
    ensures r >= 1
  {
    if n == 0 then 1 else 2 * Pow2(n - 1)
  }

  /** `coord_is_valid`: a non-negative zoom and column and row inside the 2^zoom by 2^zoom grid. */
  function CoordIsValid(c: Coordinate): (valid: bool)
    ensures valid <==> c.zoom >= 0 && 0 <= c.column < Pow2(c.zoom) && 0 <= c.row < Pow2(c.zoom)
  {
    if c.zoom < 0 || c.column < 0 || c.row < 0 then false
    else
      var maxval := Pow2(c.zoom);
      !(c.column >= maxval || c.row >= maxval)
  }

  /**
   * `coord.zoomTo(z).container()` for `z <= coord.zoom`: scale column and
   * row down by 2^(zoom - z) and round down.
   */
  function ContainerAt(c: Coordinate, z: nat): (a: Coordinate)
    requires z <= c.zoom
    ensures a.zoom == z
    ensures a.column * Pow2(c.zoom - z) <= c.column < (a.column + 1) * Pow2(c.zoom - z)
    ensures a.row * Pow2(c.zoom - z) <= c.row < (a.row + 1) * Pow2(c.zoom - z)
  {
    var scale := Pow2(c.zoom - z);
    Coordinate(z, c.column / scale, c.row / scale)
  }

  lemma {:induction false} Pow2Add(a: nat, b: nat)
    ensures Pow2(a + b) == Pow2(a) * Pow2(b)
  {
    if b > 0 {
      Pow2Add(a, b - 1);
      assert Pow2(a + b) == 2 * Pow2(a + b - 1);
    }
  }

  lemma QuotientBelow(x: int, bound: int, scale: int)
    requires 0 <= x < bound * scale && scale > 0
    ensures 0 <= x / scale < bound
  {
  }

  /** The container of a valid tile is a valid tile. */
  lemma ContainerIsValid(c: Coordinate, z: nat)
    requires CoordIsValid(c) && z <= c.zoom
    ensures CoordIsValid(ContainerAt(c, z))
  {
    var scale := Pow2(c.zoom - z);
    Pow2Add(z, c.zoom - z);
    QuotientBelow(c.column, Pow2(z), scale);
    QuotientBelow(c.row, Pow2(z), scale);
  }
}
