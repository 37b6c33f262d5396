/** The letter grid shared by both day-4 programs: rows of characters,
    addressed by (column, row) coordinates. Both programs carry identical
    copies of `new_position`, `is_valid_coord`, `letter_at` and
    `get_all_coordinates`; they are modelled once, here. */
module GridGeometry {
  import opened Results

  type Grid = seq<seq<char>>

  /** A cell as (x, y): column first, then row. */
  type Coord = (nat, nat)

  /** A move as (dx, dy). */
  type Offset = (int, int)

  /** Every row is as wide as the first. */
  predicate IsRectangular(g: Grid) {
    forall y | 0 <= y < |g| :: |g[y]| == |g[0]|
  }

  /** `is_valid_coord`: the row exists and the column is within the width
      of the first row. */
  predicate IsValidCoord(g: Grid, x: nat, y: nat)
    ensures IsValidCoord(g, x, y) <==> OnGrid(g, x, y)
    ensures IsValidCoord(g, x, y) && IsRectangular(g) ==> x < |g[y]|
  {
    y < |g| && x < |g[0]|
  }

  /** `letter_at`: the letter at a coordinate the caller has checked. */
  function LetterAt(g: Grid, x: nat, y: nat): (r: char)
    requires IsValidCoord(g, x, y) && x < |g[y]|
    ensures r in g[y]
    ensures IsRectangular(g) ==> HoldsAt(g, x, y, r)
  {
    g[y][x]
  }

  /** `new_position`: the cell reached by a move, when it lies on the grid. */
  function NewPosition(g: Grid, x: nat, y: nat, moveX: int, moveY: int): (r: Option<Coord>)
    requires |g| > 0
    ensures r.Some? <==> 0 <= x + moveX < |g[0]| && 0 <= y + moveY < |g|
    ensures r.Some? ==> r.value.0 == x + moveX && r.value.1 == y + moveY
  {
    var newX := x + moveX;
    var newY := y + moveY;
    if newX < 0 || newX >= |g[0]| || newY < 0 || newY >= |g| then None
    else Some((newX, newY))
  }

  /** A cell that `new_position` returns can be read. */
  lemma NewPositionIsValid(g: Grid, x: nat, y: nat, moveX: int, moveY: int)
    requires |g| > 0 && IsRectangular(g) && NewPosition(g, x, y, moveX, moveY).Some?
    ensures var c := NewPosition(g, x, y, moveX, moveY).value;
            IsValidCoord(g, c.0, c.1) && c.0 < |g[c.1]|
  {
  }

  /** (x, y) lies on the grid, measured against the first row as
      `new_position` does. */
  predicate OnGrid(g: Grid, x: int, y: int) {
    0 <= y < |g| && 0 <= x < |g[0]|
  }

  /** The cell (x, y) lies on the grid and holds `c`. */
  predicate HoldsAt(g: Grid, x: int, y: int, c: char)
    requires IsRectangular(g)
  {
    OnGrid(g, x, y) && g[y][x] == c
  }

  /** `c` comes before `d` when read row by row, left to right. */
  predicate RowMajorBefore(c: Coord, d: Coord) {
    c.1 < d.1 || (c.1 == d.1 && c.0 < d.0)
  }

  /** `get_all_coordinates`: every cell of every row, row by row, each row
      as long as it is. */
  function AllCoordinates(g: Grid): (r: seq<Coord>)
    ensures forall c: Coord :: c in r <==> c.1 < |g| && c.0 < |g[c.1]|
    ensures forall i, j | 0 <= i < j < |r| :: RowMajorBefore(r[i], r[j])
  {
    if g == [] then []
    else
      var before := AllCoordinates(g[..|g| - 1]);
      var row := |g| - 1;
      var cells := seq(|g[row]|, x requires 0 <= x => (x, row));
      assert forall c: Coord :: c in cells <==> c.1 == row && c.0 < |g[row]| by {
        forall c: Coord | c.1 == row && c.0 < |g[row]|
          ensures c in cells
        {
          assert cells[c.0] == c;
        }
      }
      before + cells
  }

  /** The number of listed cells that hold the letter `c`. */
  function CountLetter(g: Grid, cells: seq<Coord>, c: char): (r: nat)
    requires |g| > 0 && IsRectangular(g)
    requires forall i | 0 <= i < |cells| :: IsValidCoord(g, cells[i].0, cells[i].1)
    ensures r <= |cells|
  {
    if cells == [] then 0
    else
      var (x, y) := cells[|cells| - 1];
      CountLetter(g, cells[..|cells| - 1], c) + if LetterAt(g, x, y) == c then 1 else 0
  }

  /** Every coordinate listed for a rectangular grid can be read. */
  lemma AllCoordinatesValid(g: Grid)
    requires IsRectangular(g)
    ensures var cells := AllCoordinates(g);
            forall i | 0 <= i < |cells| :: IsValidCoord(g, cells[i].0, cells[i].1) && cells[i].0 < |g[cells[i].1]|
  {
    var cells := AllCoordinates(g);
    assert forall i | 0 <= i < |cells| :: cells[i] in cells;
  }
}
