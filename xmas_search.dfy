/** The day-4 part-1 word search: from each 'X' of the grid, count the
    compass directions in which the next three cells read 'M', 'A', 'S'. */
module XmasSearch {
  import opened Results
  import opened GridGeometry

  /** `NEXT_CHAR`: the letter that follows each letter of "XMAS", sorted by key. */
  const NextChar: seq<(char, char)> := [('A', 'S'), ('M', 'A'), ('X', 'M')]

  /** The keys of `NextChar` are strictly increasing, as a binary search
      over them needs; so a plain lookup finds the same entry. */
  lemma NextCharSorted()
    ensures forall i, j | 0 <= i < j < |NextChar| :: NextChar[i].0 < NextChar[j].0
  {
  }

  /** The value stored under `key` in a table of pairs. */
  function LookUp(table: seq<(char, char)>, key: char): (r: Option<char>)
    ensures r.Some? <==> exists i | 0 <= i < |table| :: table[i].0 == key
    ensures r.Some? ==> exists i | 0 <= i < |table| :: table[i] == (key, r.value)
  {
    if table == [] then None
    else if table[0].0 == key then Some(table[0].1)
    else
      var r := LookUp(table[1..], key);
      assert forall i | 1 <= i < |table| :: table[i] == table[1..][i - 1];
      r
  }

  /** `get_next_char`: the letter after `c` in "XMAS". */
  function GetNextChar(c: char): (r: Option<char>)
    ensures r == if c == 'X' then Some('M')
                 else if c == 'M' then Some('A')
                 else if c == 'A' then Some('S')
                 else None
  {
    LookUp(NextChar, c)
  }

  /** The eight directions, in the order in which `search_from_coord` tries them:
      up-left, up, up-right, left, right, down-left, down, down-right. */
  const Directions: seq<Offset> := [(-1, -1), (0, -1), (1, -1), (-1, 0), (1, 0), (-1, 1), (0, 1), (1, 1)]

  /** The eight paths of three moves each from `search_from_coord`. */
  const Paths: seq<seq<Offset>> := [
    [(-1, -1), (-2, -2), (-3, -3)],
    [(0, -1), (0, -2), (0, -3)],
    [(1, -1), (2, -2), (3, -3)],
    [(-1, 0), (-2, 0), (-3, 0)],
    [(1, 0), (2, 0), (3, 0)],
    [(-1, 1), (-2, 2), (-3, 3)],
    [(0, 1), (0, 2), (0, 3)],
    [(1, 1), (2, 2), (3, 3)]
  ]

  /** Every direction moves at most one cell along each axis. */
  lemma DirectionsAreUnit(d: nat)
    requires d < 8
    ensures -1 <= Directions[d].0 <= 1 && -1 <= Directions[d].1 <= 1
    ensures Directions[d] != (0, 0)
  {
  }

  /** Each path takes one, two and three steps in its direction. */
  lemma PathsAreRays(d: nat)
    requires d < 8
    ensures |Paths| == |Directions| == 8
    ensures var (dx, dy) := Directions[d];
            Paths[d] == [(dx, dy), (2 * dx, 2 * dy), (3 * dx, 3 * dy)]
  {
  }

  /** `get_next_three_coords`: the three cells of a path, in path order,
      when all of them lie on the grid; one cell off the grid rejects the path. */
  function GetNextThreeCoords(g: Grid, x: nat, y: nat, path: seq<Offset>): (r: Result<seq<Coord>, ()>)
    requires |g| > 0 && |path| == 3
    ensures r.Ok? <==> forall k | 0 <= k < 3 :: OnGrid(g, x + path[k].0, y + path[k].1)
    ensures r.Ok? ==> |r.value| == 3 && forall k | 0 <= k < 3 :: r.value[k] == (x + path[k].0, y + path[k].1)
  {
    var p0 := NewPosition(g, x, y, path[0].0, path[0].1);
    var p1 := NewPosition(g, x, y, path[1].0, path[1].1);
    var p2 := NewPosition(g, x, y, path[2].0, path[2].1);
    if p0.None? || p1.None? || p2.None? then Err(())
    else Ok([p0.value, p1.value, p2.value])
  }

  /** `spells_xmas`: the three cells read 'M', 'A', 'S'. */
  predicate SpellsXmas(g: Grid, p: seq<Coord>)
    requires |p| == 3 && IsRectangular(g)
    requires forall k | 0 <= k < 3 :: IsValidCoord(g, p[k].0, p[k].1)
    ensures SpellsXmas(g, p) ==> p[0] != p[1] && p[1] != p[2] && p[0] != p[2]
  {
    LetterAt(g, p[0].0, p[0].1) == 'M' && LetterAt(g, p[1].0, p[1].1) == 'A' && LetterAt(g, p[2].0, p[2].1) == 'S'
  }

  /** Reading from (x, y) in direction `d`, the next three cells lie on the
      grid and read 'M', 'A', 'S'; the letter at (x, y) itself is not part
      of this, the caller checks it. */
  predicate XmasAlong(g: Grid, x: nat, y: nat, d: nat)
    requires d < 8 && IsRectangular(g)
  {
    var (dx, dy) := Directions[d];
    HoldsAt(g, x + dx, y + dy, 'M') && HoldsAt(g, x + 2 * dx, y + 2 * dy, 'A') && HoldsAt(g, x + 3 * dx, y + 3 * dy, 'S')
  }

  /** The number of the first `n` directions along which "MAS" follows (x, y). */
  function CountAlong(g: Grid, x: nat, y: nat, n: nat): (r: nat)
    requires n <= 8 && IsRectangular(g)
    ensures r <= n
  {
    if n == 0 then 0
    else CountAlong(g, x, y, n - 1) + (if XmasAlong(g, x, y, n - 1) then 1 else 0)
  }

  /** The three cells after (x, y) in direction `d`, for a direction whose
      third cell has no negative coordinate. */
  function Ray(x: nat, y: nat, d: nat): (r: seq<Coord>)
    requires d < 8
    requires x + 3 * Directions[d].0 >= 0 && y + 3 * Directions[d].1 >= 0
    ensures |r| == 3
  {
    DirectionsAreUnit(d);
    var (dx, dy) := Directions[d];
    [(x + dx, y + dy), (x + 2 * dx, y + 2 * dy), (x + 3 * dx, y + 3 * dy)]
  }

  /** The origin followed by the three cells of each matching direction,
      among the first `n` directions. */
  function FoundCoords(g: Grid, x: nat, y: nat, n: nat): (r: seq<Coord>)
    requires n <= 8 && IsRectangular(g)
    ensures |r| == 4 * CountAlong(g, x, y, n)
  {
    if n == 0 then []
    else
      var d := n - 1;
      FoundCoords(g, x, y, d)
      + if XmasAlong(g, x, y, d) then [(x, y)] + Ray(x, y, d) else []
  }

  /** A path is accepted exactly when the three cells of its ray lie on the
      grid, and then its cells are that ray; from a cell on the grid, that is
      exactly when the ray's far end is on the grid. It is accepted and
      spells "MAS" exactly when "MAS" lies along its direction. */
  lemma PathMatches(g: Grid, x: nat, y: nat, d: nat)
    requires d < 8 && |g| > 0 && IsRectangular(g)
    ensures var p := GetNextThreeCoords(g, x, y, Paths[d]);
            (p.Ok? && SpellsXmas(g, p.value)) <==> XmasAlong(g, x, y, d)
    ensures var p := GetNextThreeCoords(g, x, y, Paths[d]);
            p.Ok? && SpellsXmas(g, p.value) ==> p.value == Ray(x, y, d)
    ensures var p, (dx, dy) := GetNextThreeCoords(g, x, y, Paths[d]), Directions[d];
            p.Ok? <==> OnGrid(g, x + dx, y + dy) && OnGrid(g, x + 2 * dx, y + 2 * dy) && OnGrid(g, x + 3 * dx, y + 3 * dy)
    ensures var p := GetNextThreeCoords(g, x, y, Paths[d]);
            p.Ok? ==> p.value == Ray(x, y, d)
    ensures var p, (dx, dy) := GetNextThreeCoords(g, x, y, Paths[d]), Directions[d];
            OnGrid(g, x, y) ==> (p.Ok? <==> OnGrid(g, x + 3 * dx, y + 3 * dy))
  {
    PathsAreRays(d);
    var (dx, dy) := Directions[d];
    var path := Paths[d];
    assert path[0] == (dx, dy) && path[1] == (2 * dx, 2 * dy) && path[2] == (3 * dx, 3 * dy);
  }

  /** `search_from_coord`: try each path, and for each one that spells
      "MAS" record the origin and the three cells. */
  method SearchFromCoord(g: Grid, x: nat, y: nat) returns (numFound: nat, wordCoords: seq<Coord>)
    requires |g| > 0 && IsRectangular(g)
    ensures numFound == CountAlong(g, x, y, 8) && numFound <= 8
    ensures wordCoords == FoundCoords(g, x, y, 8) && |wordCoords| == 4 * numFound
  {
    numFound := 0;
    wordCoords := [];
    for d := 0 to |Paths|
      invariant numFound == CountAlong(g, x, y, d)
      invariant wordCoords == FoundCoords(g, x, y, d)
    {
      var p := GetNextThreeCoords(g, x, y, Paths[d]);
      PathMatches(g, x, y, d);
      if p.Ok? && SpellsXmas(g, p.value) {
        wordCoords := wordCoords + [(x, y)] + p.value;
        numFound := numFound + 1;
      }
    }
  }

  /** Each group of four recorded coordinates is the origin followed by
      three cells, in one direction, that read 'M', 'A', 'S'. */
  lemma {:induction false} FoundCoordsSpellXmas(g: Grid, x: nat, y: nat, n: nat, i: nat)
    requires n <= 8 && IsRectangular(g) && i < CountAlong(g, x, y, n)
    ensures var group := FoundCoords(g, x, y, n)[4 * i..4 * i + 4];
            && group[0] == (x, y)
            && exists d | 0 <= d < n :: XmasAlong(g, x, y, d) && group[1..] == Ray(x, y, d)
  {
    var d := n - 1;
    var before := FoundCoords(g, x, y, d);
    var added := if XmasAlong(g, x, y, d) then [(x, y)] + Ray(x, y, d) else [];
    assert FoundCoords(g, x, y, n) == before + added;
    if i < CountAlong(g, x, y, d) {
      FoundCoordsSpellXmas(g, x, y, d, i);
      SliceOfPrefix(before, added, 4 * i, 4 * i + 4);
    } else {
      SliceOfSuffix(before, added);
      assert added[1..] == Ray(x, y, d);
    }
  }

  /** A slice inside the first part of a concatenation. */
  lemma SliceOfPrefix<T>(a: seq<T>, b: seq<T>, lo: nat, hi: nat)
    requires lo <= hi <= |a|
    ensures (a + b)[lo..hi] == a[lo..hi]
  {
  }

  /** The second part of a concatenation, sliced back out. */
  lemma SliceOfSuffix<T>(a: seq<T>, b: seq<T>)
    ensures (a + b)[|a|..|a| + |b|] == b
  {
  }

  /** The cells of a ray that "MAS" lies along can be read, and read
      'M', 'A', 'S' in order. */
  lemma RayReadsMas(g: Grid, x: nat, y: nat, d: nat)
    requires d < 8 && IsRectangular(g) && XmasAlong(g, x, y, d)
    ensures var r := Ray(x, y, d);
            && (forall k | 0 <= k < 3 :: IsValidCoord(g, r[k].0, r[k].1))
            && g[r[0].1][r[0].0] == 'M' && g[r[1].1][r[1].0] == 'A' && g[r[2].1][r[2].0] == 'S'
  {
  }

  /** Some direction among the first `n` is counted exactly when "MAS"
      lies along one of them. */
  lemma {:induction false} CountAlongPositive(g: Grid, x: nat, y: nat, n: nat)
    requires n <= 8 && IsRectangular(g)
    ensures CountAlong(g, x, y, n) > 0 <==> exists d | 0 <= d < n :: XmasAlong(g, x, y, d)
  {
    if n > 0 {
      CountAlongPositive(g, x, y, n - 1);
      if XmasAlong(g, x, y, n - 1) {
        assert CountAlong(g, x, y, n) > 0;
      } else {
        assert forall d | 0 <= d < n && XmasAlong(g, x, y, d) :: d < n - 1;
      }
    }
  }

  /** Four recorded coordinates: an 'X' followed by the three cells that
      read 'M', 'A', 'S' in one direction. */
  predicate XmasGroup(g: Grid, group: seq<Coord>)
    requires IsRectangular(g)
  {
    && |group| == 4
    && HoldsAt(g, group[0].0, group[0].1, 'X')
    && exists d | 0 <= d < 8 :: XmasAlong(g, group[0].0, group[0].1, d) && group[1..] == Ray(group[0].0, group[0].1, d)
  }

  /** A list of recorded coordinates made of whole groups of four, each an
      occurrence of "XMAS". */
  predicate XmasGroups(g: Grid, s: seq<Coord>)
    requires IsRectangular(g)
    decreases |s|
  {
    if |s| < 4 then s == [] else XmasGroup(g, s[..4]) && XmasGroups(g, s[4..])
  }

  lemma {:induction false} XmasGroupsAppend(g: Grid, a: seq<Coord>, b: seq<Coord>)
    requires IsRectangular(g) && XmasGroups(g, a) && XmasGroups(g, b)
    ensures XmasGroups(g, a + b)
    decreases |a|
  {
    if a != [] {
      XmasGroupsAppend(g, a[4..], b);
      assert (a + b)[..4] == a[..4];
      assert (a + b)[4..] == a[4..] + b;
    } else {
      assert a + b == b;
    }
  }

  /** From a cell holding 'X', every group `search_from_coord` records is an
      occurrence of "XMAS". */
  lemma {:induction false} FoundCoordsAreXmas(g: Grid, x: nat, y: nat, n: nat)
    requires n <= 8 && IsRectangular(g) && HoldsAt(g, x, y, 'X')
    ensures XmasGroups(g, FoundCoords(g, x, y, n))
  {
    if n > 0 {
      var d := n - 1;
      FoundCoordsAreXmas(g, x, y, d);
      if XmasAlong(g, x, y, d) {
        var group := [(x, y)] + Ray(x, y, d);
        assert group[1..] == Ray(x, y, d);
        assert XmasGroup(g, group);
        assert group[..4] == group && group[4..] == [];
        XmasGroupsAppend(g, FoundCoords(g, x, y, d), group);
      } else {
        assert FoundCoords(g, x, y, n) == FoundCoords(g, x, y, d);
      }
    }
  }

  /** Appending what is found from a cell holding 'X' keeps the recorded
      coordinates whole occurrences of "XMAS". */
  lemma AppendFound(g: Grid, x: nat, y: nat, recorded: seq<Coord>)
    requires IsRectangular(g) && XmasGroups(g, recorded) && |g| > 0 && IsValidCoord(g, x, y)
    requires LetterAt(g, x, y) == 'X'
    ensures XmasGroups(g, recorded + FoundCoords(g, x, y, 8))
  {
    FoundCoordsAreXmas(g, x, y, 8);
    XmasGroupsAppend(g, recorded, FoundCoords(g, x, y, 8));
  }

  /** The program total over a list of cells: the matches counted from
      each cell that holds 'X'; at most eight per cell. */
  function XmasTotal(g: Grid, cells: seq<Coord>): (r: nat)
    requires |g| > 0 && IsRectangular(g)
    requires forall i | 0 <= i < |cells| :: IsValidCoord(g, cells[i].0, cells[i].1)
    ensures r <= 8 * CountLetter(g, cells, 'X') <= 8 * |cells|
  {
    if cells == [] then 0
    else
      var (x, y) := cells[|cells| - 1];
      XmasTotal(g, cells[..|cells| - 1]) + if LetterAt(g, x, y) == 'X' then CountAlong(g, x, y, 8) else 0
  }

  /** The coordinates recorded over a list of cells: the finds of each cell
      holding 'X', in list order; four per counted match. */
  function XmasCoords(g: Grid, cells: seq<Coord>): (r: seq<Coord>)
    requires |g| > 0 && IsRectangular(g)
    requires forall i | 0 <= i < |cells| :: IsValidCoord(g, cells[i].0, cells[i].1)
    ensures |r| == 4 * XmasTotal(g, cells)
  {
    if cells == [] then []
    else
      var (x, y) := cells[|cells| - 1];
      XmasCoords(g, cells[..|cells| - 1]) + if LetterAt(g, x, y) == 'X' then FoundCoords(g, x, y, 8) else []
  }

  /** The total is zero exactly when no listed cell holding 'X' starts
      "XMAS" in any direction. */
  lemma {:induction false} XmasTotalZero(g: Grid, cells: seq<Coord>)
    requires |g| > 0 && IsRectangular(g)
    requires forall i | 0 <= i < |cells| :: IsValidCoord(g, cells[i].0, cells[i].1)
    ensures XmasTotal(g, cells) == 0 <==>
            forall i, d | 0 <= i < |cells| && 0 <= d < 8 ::
              !(HoldsAt(g, cells[i].0, cells[i].1, 'X') && XmasAlong(g, cells[i].0, cells[i].1, d))
  {
    if cells != [] {
      var last := |cells| - 1;
      var before := cells[..last];
      XmasTotalZero(g, before);
      CountAlongPositive(g, cells[last].0, cells[last].1, 8);
      assert forall i | 0 <= i < last :: before[i] == cells[i];
    }
  }

  /** One more cell adds its own count to the total and its own finds to
      the record. */
  lemma TotalStep(g: Grid, cells: seq<Coord>, i: nat)
    requires |g| > 0 && IsRectangular(g) && i < |cells|
    requires forall j | 0 <= j < |cells| :: IsValidCoord(g, cells[j].0, cells[j].1)
    ensures XmasTotal(g, cells[..i + 1]) == XmasTotal(g, cells[..i])
              + if LetterAt(g, cells[i].0, cells[i].1) == 'X' then CountAlong(g, cells[i].0, cells[i].1, 8) else 0
    ensures XmasCoords(g, cells[..i + 1]) == XmasCoords(g, cells[..i])
              + if LetterAt(g, cells[i].0, cells[i].1) == 'X' then FoundCoords(g, cells[i].0, cells[i].1, 8) else []
  {
    assert cells[..i + 1][..i] == cells[..i];
  }

  /** Lines 17-27 of `main`: sum the counts from every 'X', collecting the
      coordinates of every match. */
  method CountXmasInGrid(g: Grid) returns (xmasCount: nat, wordCoords: seq<Coord>)
    requires IsRectangular(g)
    ensures g == [] ==> xmasCount == 0 && wordCoords == []
    ensures g != [] ==> xmasCount == XmasTotal(g, AllCoordinates(g))
                        && xmasCount <= 8 * CountLetter(g, AllCoordinates(g), 'X')
                        && wordCoords == XmasCoords(g, AllCoordinates(g))
    ensures |wordCoords| == 4 * xmasCount && XmasGroups(g, wordCoords)
  {
    if g == [] {
      return 0, [];
    }
    var cells := AllCoordinates(g);
    AllCoordinatesValid(g);
    xmasCount, wordCoords := CountXmasFrom(g, cells);
  }

  /** The filter, map and sum of lines 19-27 over a list of cells. */
  method CountXmasFrom(g: Grid, cells: seq<Coord>) returns (xmasCount: nat, wordCoords: seq<Coord>)
    requires |g| > 0 && IsRectangular(g)
    requires forall i | 0 <= i < |cells| :: IsValidCoord(g, cells[i].0, cells[i].1)
    ensures xmasCount == XmasTotal(g, cells) && xmasCount <= 8 * CountLetter(g, cells, 'X')
    ensures wordCoords == XmasCoords(g, cells)
    ensures |wordCoords| == 4 * xmasCount && XmasGroups(g, wordCoords)
  {
    xmasCount := 0;
    wordCoords := [];
    for i := 0 to |cells|
      invariant xmasCount == XmasTotal(g, cells[..i])
      invariant wordCoords == XmasCoords(g, cells[..i])
      invariant XmasGroups(g, wordCoords)
    {
      var (x, y) := cells[i];
      TotalStep(g, cells, i);
      if LetterAt(g, x, y) == 'X' {
        var numFound, coords := SearchFromCoord(g, x, y);
        AppendFound(g, x, y, wordCoords);
        xmasCount := xmasCount + numFound;
        wordCoords := wordCoords + coords;
      }
    }
    assert cells[..|cells|] == cells;
  }

  /** A single row "XMAS" holds one occurrence, read to the right from its
      first cell. */
  lemma SingleRowExample(g: Grid)
    requires g == [['X', 'M', 'A', 'S']]
    ensures CountAlong(g, 0, 0, 8) == 1
    ensures FoundCoords(g, 0, 0, 8) == [(0, 0), (1, 0), (2, 0), (3, 0)]
  {
    assert !XmasAlong(g, 0, 0, 0) && !XmasAlong(g, 0, 0, 1) && !XmasAlong(g, 0, 0, 2) && !XmasAlong(g, 0, 0, 3);
    assert CountAlong(g, 0, 0, 1) == 0 && FoundCoords(g, 0, 0, 1) == [];
    assert CountAlong(g, 0, 0, 2) == 0 && FoundCoords(g, 0, 0, 2) == [];
    assert CountAlong(g, 0, 0, 3) == 0 && FoundCoords(g, 0, 0, 3) == [];
    assert CountAlong(g, 0, 0, 4) == 0 && FoundCoords(g, 0, 0, 4) == [];
    assert XmasAlong(g, 0, 0, 4) && Ray(0, 0, 4) == [(1, 0), (2, 0), (3, 0)];
    assert CountAlong(g, 0, 0, 5) == 1 && FoundCoords(g, 0, 0, 5) == [(0, 0), (1, 0), (2, 0), (3, 0)];
    assert !XmasAlong(g, 0, 0, 5) && !XmasAlong(g, 0, 0, 6) && !XmasAlong(g, 0, 0, 7);
    assert CountAlong(g, 0, 0, 6) == 1 && FoundCoords(g, 0, 0, 6) == FoundCoords(g, 0, 0, 5);
    assert CountAlong(g, 0, 0, 7) == 1 && FoundCoords(g, 0, 0, 7) == FoundCoords(g, 0, 0, 5);
  }

  lemma SingleRowCells(g: Grid)
    requires g == [['X', 'M', 'A', 'S']]
    ensures AllCoordinates(g) == [(0, 0), (1, 0), (2, 0), (3, 0)]
  {
    assert g[..0] == [];
    assert AllCoordinates(g) == [] + seq(4, x requires 0 <= x => (x, 0));
  }

  /** Cells not holding 'X' add nothing to the total. */
  lemma NonXAddsNothing(g: Grid, cells: seq<Coord>, c: Coord)
    requires |g| > 0 && IsRectangular(g)
    requires forall i | 0 <= i < |cells| :: IsValidCoord(g, cells[i].0, cells[i].1)
    requires IsValidCoord(g, c.0, c.1) && LetterAt(g, c.0, c.1) != 'X'
    ensures XmasTotal(g, cells + [c]) == XmasTotal(g, cells)
  {
    assert (cells + [c])[..|cells|] == cells;
  }

  /** The program total of the grid "XMAS" is 1. */
  lemma SingleRowTotal(g: Grid)
    requires g == [['X', 'M', 'A', 'S']]
    ensures XmasTotal(g, AllCoordinates(g)) == 1
  {
    SingleRowCells(g);
    SingleRowExample(g);
    var first := [(0, 0)];
    assert XmasTotal(g, first) == 1 by { assert first[..0] == []; }
    NonXAddsNothing(g, first, (1, 0));
    NonXAddsNothing(g, first + [(1, 0)], (2, 0));
    NonXAddsNothing(g, first + [(1, 0)] + [(2, 0)], (3, 0));
    assert AllCoordinates(g) == first + [(1, 0)] + [(2, 0)] + [(3, 0)];
  }
}
