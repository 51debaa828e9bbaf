/**
 * The grid the DICOM viewer lays slice thumbnails out on: 100 x 100 pixel
 * thumbnails with 20 pixels of padding, five to a row, tile `i` in row
 * `i // 5` and column `i % 5`, in a scene five tiles wide and as many rows
 * high as the slices need.
 */
module Tiles {
  const Columns: nat := 5
  const Thumbnail: nat := 100
  const Padding: nat := 20
  /** The distance between the origins of neighbouring tiles. */
  const Pitch: nat := Thumbnail + Padding

  /** `(total_tiles + columns - 1) // columns`: the number of rows, rounded up. */
  function GridRows(n: nat): (rows: nat)
    ensures rows * Columns >= n
    ensures rows > 0 ==> (rows - 1) * Columns < n
  {
    (n + Columns - 1) / Columns
  }

  /** The origin of tile `i`: `(col * 120, row * 120)` with `(row, col) = divmod(i, 5)`. */
  function TilePosition(i: nat): (p: (int, int))
    ensures 0 <= p.0 <= (Columns - 1) * Pitch && p.0 % Pitch == 0
    ensures p.1 >= 0 && p.1 % Pitch == 0
    ensures p.1 / Pitch * Columns + p.0 / Pitch == i
  {
    ((i % Columns) * Pitch, (i / Columns) * Pitch)
  }

  /** The scene rectangle for `n` tiles: `(columns * 120, rows * 120)`. */
  function SceneSize(n: nat): (int, int) {
    (Columns * Pitch, GridRows(n) * Pitch)
  }

  /** Distinct tiles have distinct origins. */
  lemma TilePositionInjective(i: nat, j: nat)
    requires TilePosition(i) == TilePosition(j)
    ensures i == j
  {
  }

  /** Each of `n` tiles, thumbnail and padding included, lies inside the scene rectangle. */
  lemma TileInScene(i: nat, n: nat)
    requires i < n
    ensures var (x, y) := TilePosition(i);
      var (w, h) := SceneSize(n);
      0 <= x && x + Pitch <= w && 0 <= y && y + Pitch <= h
  {
    var r := GridRows(n);
    assert i / Columns < r;
    assert (i / Columns) * Pitch + Pitch <= r * Pitch;
  }

  /** Two different tiles do not overlap: their origins are a whole pitch apart along some axis. */
  lemma TilesApart(i: nat, j: nat)
    requires i != j
    ensures var (xi, yi) := TilePosition(i);
      var (xj, yj) := TilePosition(j);
      xi + Pitch <= xj || xj + Pitch <= xi || yi + Pitch <= yj || yj + Pitch <= yi
  {
    if TilePosition(i) == TilePosition(j) {
      TilePositionInjective(i, j);
    }
  }
}
