/** The day-4 part-2 search: count the cells holding 'A' that are the
    centre of two diagonal "MAS" words, each read in either direction. */
module CrossSearch {
  import opened Results
  import opened GridGeometry
  import opened Sequences

  /** The list of highlighted coordinates that `search_from_coord` appends
      to through its mutable reference. */
  class CoordLog {
    var items: seq<Coord>

    constructor()
      ensures items == []
    {
      items := [];
    }

    method Push(c: Coord)
      modifies this
      ensures items == old(items) + [c]
    {
      items := items + [c];
    }
  }

  /** The two diagonals through a centre: up-left with down-right, and
      down-left with up-right. */
  const CrossPaths: seq<seq<Offset>> := [[(-1, -1), (1, 1)], [(-1, 1), (1, -1)]]

  /** `get_next_two_coords`: both cells of a path, when both lie on the grid. */
  function GetNextTwoCoords(g: Grid, x: nat, y: nat, path: seq<Offset>): (r: Result<seq<Coord>, ()>)
    requires |g| > 0 && |path| == 2
    ensures r.Ok? <==> OnGrid(g, x + path[0].0, y + path[0].1) && OnGrid(g, x + path[1].0, y + path[1].1)
    ensures r.Ok? ==> r.value == [(x + path[0].0, y + path[0].1), (x + path[1].0, y + path[1].1)]
  {
    var p0 := NewPosition(g, x, y, path[0].0, path[0].1);
    var p1 := NewPosition(g, x, y, path[1].0, path[1].1);
    if p0.None? || p1.None? then Err(())
    else Ok([p0.value, p1.value])
  }

  /** The two letters at the ends of a diagonal read "MAS" one way or the other. */
  predicate IsMasPair(a: char, b: char) {
    (a == 'M' && b == 'S') || (a == 'S' && b == 'M')
  }

  /** `spells_mas`: the two cells hold 'M' and 'S', in either order. */
  predicate SpellsMas(g: Grid, p: seq<Coord>)
    requires |p| == 2 && IsRectangular(g)
    requires IsValidCoord(g, p[0].0, p[0].1) && IsValidCoord(g, p[1].0, p[1].1)
    ensures SpellsMas(g, p) ==> p[0] != p[1]
  {
    IsMasPair(LetterAt(g, p[0].0, p[0].1), LetterAt(g, p[1].0, p[1].1))
  }

  /** Reading a pair of cells in the other order gives the same answer. */
  lemma SpellsMasEitherOrder(g: Grid, p: Coord, q: Coord)
    requires IsRectangular(g) && IsValidCoord(g, p.0, p.1) && IsValidCoord(g, q.0, q.1)
    ensures SpellsMas(g, [p, q]) <==> SpellsMas(g, [q, p])
  {
  }

  /** Both diagonals through (x, y) lie on the grid and read "MAS" in
      either direction; (x, y) is not on the border. The letter at (x, y)
      itself is not part of this, the caller checks it. */
  predicate XMasAt(g: Grid, x: nat, y: nat)
    requires IsRectangular(g)
  {
    && OnGrid(g, x - 1, y - 1) && OnGrid(g, x + 1, y + 1)
    && IsMasPair(g[y - 1][x - 1], g[y + 1][x + 1])
    && IsMasPair(g[y + 1][x - 1], g[y - 1][x + 1])
  }

  /** The five coordinates recorded for a cross: the centre, the up-left and
      down-right ends, then the down-left and up-right ends. */
  function CrossCells(x: nat, y: nat): (r: seq<Coord>)
    requires x >= 1 && y >= 1
    ensures |r| == 5 && r[0] == (x, y)
  {
    [(x, y), (x - 1, y - 1), (x + 1, y + 1), (x - 1, y + 1), (x + 1, y - 1)]
  }

  /** Both paths are accepted and spell "MAS" exactly when a cross is
      centred at (x, y), and then they are the four corner cells. Both are
      accepted exactly when (x, y) is on the grid but not on its border. */
  lemma PathsMatch(g: Grid, x: nat, y: nat)
    requires |g| > 0 && IsRectangular(g)
    ensures var p, q := GetNextTwoCoords(g, x, y, CrossPaths[0]), GetNextTwoCoords(g, x, y, CrossPaths[1]);
            (p.Ok? && q.Ok? && SpellsMas(g, p.value) && SpellsMas(g, q.value)) <==> XMasAt(g, x, y)
    ensures var p, q := GetNextTwoCoords(g, x, y, CrossPaths[0]), GetNextTwoCoords(g, x, y, CrossPaths[1]);
            p.Ok? && q.Ok? ==> x >= 1 && y >= 1 && [(x, y)] + p.value + q.value == CrossCells(x, y)
    ensures var p, q := GetNextTwoCoords(g, x, y, CrossPaths[0]), GetNextTwoCoords(g, x, y, CrossPaths[1]);
            (p.Ok? && q.Ok?) <==> (1 <= x && x + 1 < |g[0]| && 1 <= y && y + 1 < |g|)
  {
    var p, q := CrossPaths[0], CrossPaths[1];
    assert p[0] == (-1, -1) && p[1] == (1, 1) && q[0] == (-1, 1) && q[1] == (1, -1);
  }

  /** `search_from_coord`: a cross is centred at (x, y) exactly when it
      reports one, and then, and only then, its five cells are appended
      to the log. */
  method SearchFromCoord(g: Grid, x: nat, y: nat, log: CoordLog) returns (found: bool)
    requires |g| > 0 && IsRectangular(g)
    modifies log
    ensures found == XMasAt(g, x, y)
    ensures found ==> x >= 1 && y >= 1 && log.items == old(log.items) + CrossCells(x, y)
    ensures !found ==> log.items == old(log.items)
  {
    var first := GetNextTwoCoords(g, x, y, CrossPaths[0]);
    var second := GetNextTwoCoords(g, x, y, CrossPaths[1]);
    PathsMatch(g, x, y);
    if first.Err? || second.Err? {
      return false;
    }
    if !SpellsMas(g, first.value) || !SpellsMas(g, second.value) {
      return false;
    }
    log.Push((x, y));
    log.Push(first.value[0]);
    log.Push(first.value[1]);
    log.Push(second.value[0]);
    log.Push(second.value[1]);
    return true;
  }

  /** A cross centred at a cell holding 'A'. */
  predicate CrossCentre(g: Grid, x: nat, y: nat)
    requires |g| > 0 && IsRectangular(g) && IsValidCoord(g, x, y)
  {
    LetterAt(g, x, y) == 'A' && XMasAt(g, x, y)
  }

  /** The number of listed cells that are the centre of a cross; never more
      than the number of listed cells holding 'A'. */
  function CrossTotal(g: Grid, cells: seq<Coord>): (r: nat)
    requires |g| > 0 && IsRectangular(g)
    requires forall i | 0 <= i < |cells| :: IsValidCoord(g, cells[i].0, cells[i].1)
    ensures r <= CountLetter(g, cells, 'A') <= |cells|
  {
    if cells == [] then 0
    else
      var (x, y) := cells[|cells| - 1];
      CrossTotal(g, cells[..|cells| - 1]) + if CrossCentre(g, x, y) then 1 else 0
  }

  /** The coordinates recorded for the listed cells that are the centre of
      a cross, in list order. */
  function CrossCoords(g: Grid, cells: seq<Coord>): (r: seq<Coord>)
    requires |g| > 0 && IsRectangular(g)
    requires forall i | 0 <= i < |cells| :: IsValidCoord(g, cells[i].0, cells[i].1)
    ensures |r| == 5 * CrossTotal(g, cells)
  {
    if cells == [] then []
    else
      var (x, y) := cells[|cells| - 1];
      CrossCoords(g, cells[..|cells| - 1]) + if CrossCentre(g, x, y) then CrossCells(x, y) else []
  }

  /** One more cell adds its own cross, if any, to the total and the record. */
  lemma CellStep(g: Grid, cells: seq<Coord>, i: nat)
    requires |g| > 0 && IsRectangular(g) && i < |cells|
    requires forall j | 0 <= j < |cells| :: IsValidCoord(g, cells[j].0, cells[j].1)
    ensures var (x, y) := cells[i];
            && CrossTotal(g, cells[..i + 1]) == CrossTotal(g, cells[..i]) + (if CrossCentre(g, x, y) then 1 else 0)
            && CrossCoords(g, cells[..i + 1]) == CrossCoords(g, cells[..i]) + (if CrossCentre(g, x, y) then CrossCells(x, y) else [])
  {
    assert cells[..i + 1][..i] == cells[..i];
  }

  /** Lines 17-25 of `main`: count the cells holding 'A' at which
      `search_from_coord` finds a cross, and record each cross. */
  method CountCrossesInGrid(g: Grid, log: CoordLog) returns (xmasCount: nat)
    requires IsRectangular(g)
    modifies log
    ensures g == [] ==> xmasCount == 0 && log.items == old(log.items)
    ensures g != [] ==> xmasCount == CrossTotal(g, AllCoordinates(g))
                        && xmasCount <= CountLetter(g, AllCoordinates(g), 'A')
                        && log.items == old(log.items) + CrossCoords(g, AllCoordinates(g))
  {
    if g == [] {
      return 0;
    }
    var cells := AllCoordinates(g);
    AllCoordinatesValid(g);
    xmasCount := CountCrossesFrom(g, cells, log);
  }

  /** The two filters and the sum of lines 19-25 over a list of cells. */
  method CountCrossesFrom(g: Grid, cells: seq<Coord>, log: CoordLog) returns (xmasCount: nat)
    requires |g| > 0 && IsRectangular(g)
    requires forall i | 0 <= i < |cells| :: IsValidCoord(g, cells[i].0, cells[i].1)
    modifies log
    ensures xmasCount == CrossTotal(g, cells) && xmasCount <= CountLetter(g, cells, 'A')
    ensures log.items == old(log.items) + CrossCoords(g, cells)
  {
    xmasCount := 0;
    for i := 0 to |cells|
      invariant xmasCount == CrossTotal(g, cells[..i])
      invariant log.items == old(log.items) + CrossCoords(g, cells[..i])
    {
      var (x, y) := cells[i];
      CellStep(g, cells, i);
      if LetterAt(g, x, y) == 'A' {
        var found := SearchFromCoord(g, x, y, log);
        if found {
          xmasCount := xmasCount + 1;
        }
      }
    }
    assert cells[..|cells|] == cells;
  }

  /** Five recorded coordinates: a centre holding 'A' followed by the four
      corners of a cross around it. */
  predicate CrossGroup(g: Grid, group: seq<Coord>)
    requires IsRectangular(g)
  {
    && |group| == 5
    && group[0].0 >= 1 && group[0].1 >= 1
    && HoldsAt(g, group[0].0, group[0].1, 'A')
    && XMasAt(g, group[0].0, group[0].1)
    && group == CrossCells(group[0].0, group[0].1)
  }

  /** A list of recorded coordinates made of whole groups of five, each a cross. */
  predicate CrossGroups(g: Grid, s: seq<Coord>)
    requires IsRectangular(g)
    decreases |s|
  {
    if |s| < 5 then s == [] else CrossGroup(g, s[..5]) && CrossGroups(g, s[5..])
  }

  lemma {:induction false} CrossGroupsAppend(g: Grid, a: seq<Coord>, b: seq<Coord>)
    requires IsRectangular(g) && CrossGroups(g, a) && CrossGroups(g, b)
    ensures CrossGroups(g, a + b)
    decreases |a|
  {
    if a != [] {
      CrossGroupsAppend(g, a[5..], b);
      assert (a + b)[..5] == a[..5];
      assert (a + b)[5..] == a[5..] + b;
    } else {
      assert a + b == b;
    }
  }

  /** Everything recorded is a whole number of crosses, each centred at an 'A'. */
  lemma {:induction false} CrossCoordsAreCrosses(g: Grid, cells: seq<Coord>)
    requires |g| > 0 && IsRectangular(g)
    requires forall i | 0 <= i < |cells| :: IsValidCoord(g, cells[i].0, cells[i].1)
    ensures CrossGroups(g, CrossCoords(g, cells))
  {
    if cells != [] {
      var before := cells[..|cells| - 1];
      var (x, y) := cells[|cells| - 1];
      CrossCoordsAreCrosses(g, before);
      if CrossCentre(g, x, y) {
        var group := CrossCells(x, y);
        assert CrossGroup(g, group);
        assert group[..5] == group && group[5..] == [];
        CrossGroupsAppend(g, CrossCoords(g, before), group);
      } else {
        assert CrossCoords(g, cells) == CrossCoords(g, before);
      }
    }
  }

  /** The grid seen in a mirror: every row reversed. */
  function Mirrored(g: Grid): (r: Grid)
    ensures |r| == |g|
    ensures forall y | 0 <= y < |g| :: r[y] == Reversed(g[y])
  {
    seq(|g|, y requires 0 <= y < |g| => Reversed(g[y]))
  }

  /** The shape is its own mirror image: a cross is centred at (x, y)
      exactly when one is centred at the mirrored cell of the mirrored grid. */
  lemma MirroredCross(g: Grid, x: nat, y: nat)
    requires |g| > 0 && IsRectangular(g) && x < |g[0]|
    ensures IsRectangular(Mirrored(g))
    ensures XMasAt(g, x, y) <==> XMasAt(Mirrored(g), |g[0]| - 1 - x, y)
  {
    var m := Mirrored(g);
    var w := |g[0]|;
    var mx := w - 1 - x;
    if XMasAt(g, x, y) {
      assert m[y - 1][mx - 1] == g[y - 1][x + 1] && m[y + 1][mx + 1] == g[y + 1][x - 1];
      assert m[y + 1][mx - 1] == g[y + 1][x + 1] && m[y - 1][mx + 1] == g[y - 1][x - 1];
    }
    if XMasAt(m, mx, y) {
      assert m[y - 1][mx - 1] == g[y - 1][x + 1] && m[y + 1][mx + 1] == g[y + 1][x - 1];
      assert m[y + 1][mx - 1] == g[y + 1][x + 1] && m[y - 1][mx + 1] == g[y - 1][x - 1];
    }
  }

  /** A cell on the border of the grid is never the centre of a cross. */
  lemma BorderHasNoCross(g: Grid, x: nat, y: nat)
    requires |g| > 0 && IsRectangular(g)
    requires x == 0 || y == 0 || x + 1 >= |g[0]| || y + 1 >= |g|
    ensures !XMasAt(g, x, y)
  {
  }

  /** M.S / .A. / M.S: both diagonals read "MAS", one downwards and one
      upwards, so the centre counts. */
  lemma CrossExample(g: Grid)
    requires g == [['M', '.', 'S'], ['.', 'A', '.'], ['M', '.', 'S']]
    ensures XMasAt(g, 1, 1) && CrossTotal(g, [(1, 1)]) == 1
  {
    assert CrossCentre(g, 1, 1);
    assert [(1, 1)][..0] == [];
  }

  /** A cell not holding 'A' adds nothing to the total. */
  lemma NonAAddsNothing(g: Grid, cells: seq<Coord>, c: Coord)
    requires |g| > 0 && IsRectangular(g)
    requires forall i | 0 <= i < |cells| :: IsValidCoord(g, cells[i].0, cells[i].1)
    requires IsValidCoord(g, c.0, c.1) && LetterAt(g, c.0, c.1) != 'A'
    ensures CrossTotal(g, cells + [c]) == CrossTotal(g, cells)
  {
    assert (cells + [c])[..|cells|] == cells;
  }

  /** A three-by-three grid lists its nine cells row by row. */
  lemma SquareCells(g: Grid)
    requires |g| == 3 && |g[0]| == 3 && |g[1]| == 3 && |g[2]| == 3
    ensures AllCoordinates(g) == [(0, 0), (1, 0), (2, 0), (0, 1), (1, 1), (2, 1), (0, 2), (1, 2), (2, 2)]
  {
    assert g[..1][..0] == [] && g[..2][..1] == g[..1] && g[..3] == g;
    assert AllCoordinates(g[..1]) == [] + seq(3, x requires 0 <= x => (x, 0));
    assert AllCoordinates(g[..2]) == AllCoordinates(g[..1]) + seq(3, x requires 0 <= x => (x, 1));
    assert AllCoordinates(g) == AllCoordinates(g[..2]) + seq(3, x requires 0 <= x => (x, 2));
  }

  /** Over every cell of M.S / .A. / M.S, the program counts exactly one cross. */
  lemma CrossGridTotal(g: Grid)
    requires g == [['M', '.', 'S'], ['.', 'A', '.'], ['M', '.', 'S']]
    ensures CrossTotal(g, AllCoordinates(g)) == 1
  {
    SquareCells(g);
    SquareTotal(g);
  }

  /** The nine cells of M.S / .A. / M.S, row by row, hold one cross. */
  lemma SquareTotal(g: Grid)
    requires g == [['M', '.', 'S'], ['.', 'A', '.'], ['M', '.', 'S']]
    ensures CrossTotal(g, [(0, 0), (1, 0), (2, 0), (0, 1), (1, 1), (2, 1), (0, 2), (1, 2), (2, 2)]) == 1
  {
    var top := [(0, 0), (1, 0), (2, 0), (0, 1)];
    assert CrossTotal(g, top) == 0 by {
      NonAAddsNothing(g, [], (0, 0));
      NonAAddsNothing(g, [(0, 0)], (1, 0));
      NonAAddsNothing(g, [(0, 0), (1, 0)], (2, 0));
      NonAAddsNothing(g, [(0, 0), (1, 0), (2, 0)], (0, 1));
      assert [] + [(0, 0)] == [(0, 0)] && [(0, 0)] + [(1, 0)] == [(0, 0), (1, 0)];
      assert [(0, 0), (1, 0)] + [(2, 0)] == [(0, 0), (1, 0), (2, 0)] && [(0, 0), (1, 0), (2, 0)] + [(0, 1)] == top;
    }
    var centre := top + [(1, 1)];
    assert CrossTotal(g, centre) == 1 by {
      assert CrossCentre(g, 1, 1);
      assert centre[..4] == top;
    }
    var six := centre + [(2, 1)];
    NonAAddsNothing(g, centre, (2, 1));
    var seven := six + [(0, 2)];
    NonAAddsNothing(g, six, (0, 2));
    var eight := seven + [(1, 2)];
    NonAAddsNothing(g, seven, (1, 2));
    NonAAddsNothing(g, eight, (2, 2));
    assert eight + [(2, 2)] == [(0, 0), (1, 0), (2, 0), (0, 1), (1, 1), (2, 1), (0, 2), (1, 2), (2, 2)];
  }

  /** M.M / .A. / M.S: the down-left and up-right corners both hold 'M',
      so that diagonal reads "MAM" and the centre does not count. */
  lemma NoCrossExample(g: Grid)
    requires g == [['M', '.', 'M'], ['.', 'A', '.'], ['M', '.', 'S']]
    ensures !XMasAt(g, 1, 1)
  {
  }
}
