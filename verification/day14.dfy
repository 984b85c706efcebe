/** Day 14: "Parabolic Reflector Dish". A square platform holds round rocks
    'O', cube rocks '#' and empty cells '.'. Tilting the platform rolls every
    round rock as far as it goes in one direction; the load on the north
    beams weighs each round rock by its distance from the south edge. */
module Day14 {
  import opened Common

  /** The platform, as rows of characters. */
  type Grid = seq<seq<char>>

  const Round: char := 'O'
  const Empty: char := '.'

  function Max(a: nat, b: nat): nat
  {
    if a >= b then a else b
  }

  // ---------------------------------------------------------------------
  // One line of the platform (a row or a column)
  // ---------------------------------------------------------------------

  /** One pass of a tilt along a line: scanning from the start, each
      adjacent pair `x, y` is swapped into `y, x`, and the scan goes on from
      the cell the `x` moved into. */
  function Pass(c: seq<char>, x: char, y: char): (r: seq<char>)
    decreases |c|
    ensures |r| == |c|
  {
    if |c| < 2 then c
    else if c[0] == x && c[1] == y then [y] + Pass([x] + c[2..], x, y)
    else [c[0]] + Pass(c[1..], x, y)
  }

  /** The characters a line holds and the cells other than `x` and `y`. */
  predicate Keeps(c: seq<char>, r: seq<char>, x: char, y: char)
  {
    |r| == |c| && multiset(r) == multiset(c) &&
    (forall k :: 0 <= k < |c| && c[k] != x && c[k] != y ==> r[k] == c[k]) &&
    (forall k :: 0 <= k < |c| && (c[k] == x || c[k] == y) ==> r[k] == x || r[k] == y)
  }

  /** A pass only swaps an `x` with a `y`: it keeps the characters of the
      line, and every other character stays in its cell. */
  lemma {:induction false} PassKeeps(c: seq<char>, x: char, y: char)
    ensures Keeps(c, Pass(c, x, y), x, y)
    decreases |c|
  {
    if |c| < 2 {
    } else if c[0] == x && c[1] == y {
      var d := [x] + c[2..];
      PassKeeps(d, x, y);
      SwapKeeps(c, d, Pass(d, x, y), x, y);
    } else {
      PassKeeps(c[1..], x, y);
      ConsKeeps(c, Pass(c[1..], x, y), x, y);
    }
  }

  lemma SwapKeeps(c: seq<char>, d: seq<char>, pd: seq<char>, x: char, y: char)
    requires |c| >= 2 && c[0] == x && c[1] == y && d == [x] + c[2..] && Keeps(d, pd, x, y)
    ensures Keeps(c, [y] + pd, x, y)
  {
    assert c == [x, y] + c[2..];
    assert forall k :: 2 <= k < |c| ==> d[k - 1] == c[k];
  }

  lemma ConsKeeps(c: seq<char>, pr: seq<char>, x: char, y: char)
    requires |c| >= 1 && Keeps(c[1..], pr, x, y)
    ensures Keeps(c, [c[0]] + pr, x, y)
  {
    assert c == [c[0]] + c[1..];
  }

  lemma KeepsTrans(a: seq<char>, b: seq<char>, c: seq<char>, x: char, y: char)
    requires Keeps(a, b, x, y) && Keeps(b, c, x, y)
    ensures Keeps(a, c, x, y)
  {
  }

  /** `k` passes one after another. */
  function Passes(c: seq<char>, k: nat, x: char, y: char): (r: seq<char>)
    ensures |r| == |c|
  {
    if k == 0 then c else Pass(Passes(c, k - 1, x, y), x, y)
  }

  lemma {:induction false} PassesKeep(c: seq<char>, k: nat, x: char, y: char)
    ensures Keeps(c, Passes(c, k, x, y), x, y)
  {
    if k > 0 {
      var prev := Passes(c, k - 1, x, y);
      PassesKeep(c, k - 1, x, y);
      PassKeeps(prev, x, y);
      KeepsTrans(c, prev, Pass(prev, x, y), x, y);
    }
  }

  /** A full tilt of a line: as many passes as the line is long. */
  function Tilt(c: seq<char>, x: char, y: char): (r: seq<char>)
    ensures |r| == |c|
  {
    Passes(c, |c|, x, y)
  }

  /** No `x` is directly followed by a `y`: nothing is left to roll. */
  predicate Settled(c: seq<char>, x: char, y: char)
  {
    forall k :: 0 <= k < |c| - 1 ==> !(c[k] == x && c[k + 1] == y)
  }

  /** The largest number of `x` cells that some `y` still has to cross: the
      `x` cells between it and the nearest other character before it (or
      the start of the line, with `a` such cells before the line). */
  function Lag(c: seq<char>, a: nat, x: char, y: char): nat
    decreases |c|
  {
    if c == [] then 0
    else if c[0] == x then Lag(c[1..], a + 1, x, y)
    else if c[0] == y then Max(a, Lag(c[1..], a, x, y))
    else Lag(c[1..], 0, x, y)
  }

  /** A pass moves every `y` that still has an `x` before it one step, so
      the lag drops by one. */
  lemma {:induction false} LagPass(c: seq<char>, a: nat, x: char, y: char)
    requires x != y
    requires a > 0 && c != [] ==> c[0] != y
    ensures Lag(Pass(c, x, y), a, x, y) <= Max(Lag(c, a, x, y), 1) - 1
    decreases |c|
  {
    if |c| < 2 {
    } else if c[0] == x && c[1] == y {
      var d := [x] + c[2..];
      LagPass(d, a, x, y);
      assert d[1..] == c[2..] && c[1..][1..] == c[2..];
      assert ([y] + Pass(d, x, y))[1..] == Pass(d, x, y);
    } else {
      var b := if c[0] == x then a + 1 else if c[0] == y then a else 0;
      LagPass(c[1..], b, x, y);
      assert ([c[0]] + Pass(c[1..], x, y))[1..] == Pass(c[1..], x, y);
    }
  }

  lemma {:induction false} LagBound(c: seq<char>, a: nat, x: char, y: char)
    ensures Lag(c, a, x, y) <= a + |c|
    decreases |c|
  {
    if c != [] {
      LagBound(c[1..], if c[0] == x then a + 1 else if c[0] == y then a else 0, x, y);
    }
  }

  /** A line with no lag left is settled. */
  lemma {:induction false} LagZeroSettled(c: seq<char>, a: nat, x: char, y: char)
    requires x != y && Lag(c, a, x, y) == 0
    ensures Settled(c, x, y)
    ensures a > 0 && c != [] ==> c[0] != y
    decreases |c|
  {
    if c != [] {
      LagZeroSettled(c[1..], if c[0] == x then a + 1 else if c[0] == y then a else 0, x, y);
    }
  }

  /** A pass over a settled line changes nothing. */
  lemma {:induction false} SettledPass(c: seq<char>, x: char, y: char)
    requires Settled(c, x, y)
    ensures Pass(c, x, y) == c
    decreases |c|
  {
    if |c| >= 2 {
      assert !(c[0] == x && c[1] == y);
      SettledPass(c[1..], x, y);
      assert c == [c[0]] + c[1..];
    }
  }

  lemma {:induction false} SettledPasses(c: seq<char>, k: nat, x: char, y: char)
    requires Settled(c, x, y)
    ensures Passes(c, k, x, y) == c
  {
    if k > 0 {
      SettledPasses(c, k - 1, x, y);
      SettledPass(c, x, y);
    }
  }

  /** After `k` passes the lag is at most the line length less `k`. */
  lemma {:induction false} LagPasses(c: seq<char>, k: nat, x: char, y: char)
    requires x != y
    ensures Lag(Passes(c, k, x, y), 0, x, y) <= if k >= |c| then 0 else |c| - k
  {
    if k == 0 {
      LagBound(c, 0, x, y);
    } else {
      var prev := Passes(c, k - 1, x, y);
      LagPasses(c, k - 1, x, y);
      LagPass(prev, 0, x, y);
      assert Passes(c, k, x, y) == Pass(prev, x, y);
    }
  }

  /** As many passes as the line is long always suffice: a tilted line is
      settled. */
  lemma TiltSettled(c: seq<char>, x: char, y: char)
    requires x != y
    ensures Settled(Tilt(c, x, y), x, y)
  {
    LagPasses(c, |c|, x, y);
    LagZeroSettled(Tilt(c, x, y), 0, x, y);
  }

  /** Tilting twice is tilting once. */
  lemma TiltIdempotent(c: seq<char>, x: char, y: char)
    requires x != y
    ensures Tilt(Tilt(c, x, y), x, y) == Tilt(c, x, y)
  {
    TiltSettled(c, x, y);
    SettledPasses(Tilt(c, x, y), |c|, x, y);
  }

  /** One comparison of a pass, at cells `j` and `j + 1`. */
  function Step(c: seq<char>, j: nat, x: char, y: char): (r: seq<char>)
    requires j + 1 < |c|
    ensures |r| == |c|
  {
    if c[j] == x && c[j + 1] == y then c[j := y][j + 1 := x] else c
  }

  /** The scan of a pass, seen after its first `j` comparisons: the part
      before `j` is final, the rest is still to be passed over. */
  lemma PassStep(c: seq<char>, j: nat, x: char, y: char)
    requires j + 1 < |c|
    ensures c[..j] + Pass(c[j..], x, y) == Step(c, j, x, y)[..j + 1] + Pass(Step(c, j, x, y)[j + 1..], x, y)
  {
    var s := Step(c, j, x, y);
    var t := c[j..];
    assert |t| >= 2 && t[0] == c[j] && t[1] == c[j + 1];
    if c[j] == x && c[j + 1] == y {
      assert t[2..] == c[j + 2..];
      assert Pass(t, x, y) == [y] + Pass([x] + c[j + 2..], x, y);
      assert s[j + 1..] == [x] + c[j + 2..];
      assert s[..j + 1] == c[..j] + [y];
    } else {
      assert t[1..] == c[j + 1..];
      assert Pass(t, x, y) == [c[j]] + Pass(c[j + 1..], x, y);
      assert s[..j + 1] == c[..j] + [c[j]];
    }
  }

  // ---------------------------------------------------------------------
  // The platform
  // ---------------------------------------------------------------------

  /** A non-empty platform whose rows all have the width of the first. */
  predicate Rectangular(g: Grid)
  {
    |g| > 0 && forall r :: 0 <= r < |g| ==> |g[r]| == |g[0]|
  }

  function Width(g: Grid): nat
    requires |g| > 0
  {
    |g[0]|
  }

  /** A square platform, as every puzzle input is. */
  predicate Square(g: Grid)
  {
    Rectangular(g) && Width(g) == |g|
  }

  /** Column `i`, read from north to south. */
  function Column(g: Grid, i: nat): (col: seq<char>)
    requires Rectangular(g) && i < Width(g)
    ensures |col| == |g| && forall r :: 0 <= r < |g| ==> col[r] == g[r][i]
  {
    seq(|g|, r requires 0 <= r < |g| => g[r][i])
  }

  /** Two platforms of the same shape with the same columns are equal. */
  lemma ColumnsDetermine(g: Grid, h: Grid)
    requires Rectangular(g) && Rectangular(h) && |g| == |h| && Width(g) == Width(h)
    requires forall i :: 0 <= i < Width(g) ==> Column(g, i) == Column(h, i)
    ensures g == h
  {
    forall r | 0 <= r < |g|
      ensures g[r] == h[r]
    {
      forall i | 0 <= i < Width(g)
        ensures g[r][i] == h[r][i]
      {
        assert Column(g, i)[r] == Column(h, i)[r];
      }
    }
  }

  /** Every column tilted, swapping each `x` above a `y`: `x, y` is
      `'.', 'O'` for a tilt to the north and `'O', '.'` for the south. */
  function ColumnsTilted(g: Grid, x: char, y: char): (t: Grid)
    requires Rectangular(g)
    ensures Rectangular(t) && |t| == |g| && Width(t) == Width(g)
  {
    seq(|g|, r requires 0 <= r < |g| =>
      seq(Width(g), i requires 0 <= i < Width(g) => Tilt(Column(g, i), x, y)[r]))
  }

  /** Column `i` of the tilted platform is column `i` tilted. */
  lemma ColumnsTiltedColumns(g: Grid, x: char, y: char)
    requires Rectangular(g)
    ensures forall i :: 0 <= i < Width(g) ==> Column(ColumnsTilted(g, x, y), i) == Tilt(Column(g, i), x, y)
  {
    var t := ColumnsTilted(g, x, y);
    assert forall i :: 0 <= i < Width(g) ==> Column(t, i) == Tilt(Column(g, i), x, y);
  }

  /** Every row tilted, swapping each `x` left of a `y`: `'.', 'O'` for a
      tilt to the west and `'O', '.'` for the east. */
  function RowsTilted(g: Grid, x: char, y: char): (t: Grid)
    requires Rectangular(g)
    ensures Rectangular(t) && |t| == |g| && Width(t) == Width(g)
  {
    seq(|g|, r requires 0 <= r < |g| => Tilt(g[r], x, y))
  }

  /** The cell update of a vertical swap: `y` into row `j`, `x` into row
      `j + 1`, in column `i`. */
  lemma SwapInColumn(g: Grid, j: nat, i: nat, x: char, y: char)
    requires Rectangular(g) && j + 1 < |g| && i < Width(g) && g[j][i] == x && g[j + 1][i] == y
    ensures var h := g[j := g[j][i := y]][j + 1 := g[j + 1][i := x]];
      Rectangular(h) && |h| == |g| && Width(h) == Width(g) &&
      Column(h, i) == Step(Column(g, i), j, x, y) &&
      forall i' :: 0 <= i' < Width(g) && i' != i ==> Column(h, i') == Column(g, i')
  {
    var h := g[j := g[j][i := y]][j + 1 := g[j + 1][i := x]];
    assert Rectangular(h);
    assert Column(h, i) == Column(g, i)[j := y][j + 1 := x];
  }

  /** The innermost loop of a column tilt: compare rows `j` and `j + 1`
      in every column, left to right. */
  method CompareRows(grid: Grid, j: nat, x: char, y: char) returns (g: Grid)
    requires Rectangular(grid) && j + 1 < |grid|
    ensures Rectangular(g) && |g| == |grid| && Width(g) == Width(grid)
    ensures forall i :: 0 <= i < Width(grid) ==> Column(g, i) == Step(Column(grid, i), j, x, y)
  {
    g := grid;
    for i := 0 to Width(grid)
      invariant Rectangular(g) && |g| == |grid| && Width(g) == Width(grid)
      invariant forall i' :: 0 <= i' < i ==> Column(g, i') == Step(Column(grid, i'), j, x, y)
      invariant forall i' :: i <= i' < Width(grid) ==> Column(g, i') == Column(grid, i')
    {
      if g[j + 1][i] == y && g[j][i] == x {
        SwapInColumn(g, j, i, x, y);
        g := g[j := g[j][i := y]];
        g := g[j + 1 := g[j + 1][i := x]];
      }
    }
  }

  /** Every column of `g` is its column in `grid` after the first `j`
      comparisons of a pass. */
  predicate PassedUpTo(grid: Grid, g: Grid, j: nat, x: char, y: char)
    requires Rectangular(grid) && Rectangular(g) && |g| == |grid| && Width(g) == Width(grid) && j <= |grid|
  {
    forall i :: 0 <= i < Width(grid) ==>
      Pass(Column(grid, i), x, y) == Column(g, i)[..j] + Pass(Column(g, i)[j..], x, y)
  }

  lemma PassedUpToStep(grid: Grid, before: Grid, g: Grid, j: nat, x: char, y: char)
    requires Rectangular(grid) && Rectangular(before) && |before| == |grid| && Width(before) == Width(grid)
    requires Rectangular(g) && |g| == |grid| && Width(g) == Width(grid) && j + 1 < |grid|
    requires PassedUpTo(grid, before, j, x, y)
    requires forall i :: 0 <= i < Width(grid) ==> Column(g, i) == Step(Column(before, i), j, x, y)
    ensures PassedUpTo(grid, g, j + 1, x, y)
  {
    forall i | 0 <= i < Width(grid)
      ensures Pass(Column(grid, i), x, y) == Column(g, i)[..j + 1] + Pass(Column(g, i)[j + 1..], x, y)
    {
      PassStep(Column(before, i), j, x, y);
    }
  }

  lemma PassedUpToDone(grid: Grid, g: Grid, x: char, y: char)
    requires Rectangular(grid) && Rectangular(g) && |g| == |grid| && Width(g) == Width(grid)
    requires PassedUpTo(grid, g, |grid| - 1, x, y)
    ensures forall i :: 0 <= i < Width(grid) ==> Column(g, i) == Pass(Column(grid, i), x, y)
  {
    var rows := |grid|;
    forall i | 0 <= i < Width(grid)
      ensures Column(g, i) == Pass(Column(grid, i), x, y)
    {
      var c := Column(g, i);
      assert c[rows - 1..] == [c[rows - 1]];
      assert c == c[..rows - 1] + c[rows - 1..];
    }
  }

  /** One pass over every column: rows `0, 1`, then `1, 2`, and so on. */
  method PassColumns(grid: Grid, x: char, y: char) returns (g: Grid)
    requires Rectangular(grid)
    ensures Rectangular(g) && |g| == |grid| && Width(g) == Width(grid)
    ensures forall i :: 0 <= i < Width(grid) ==> Column(g, i) == Pass(Column(grid, i), x, y)
  {
    g := grid;
    var rows := |grid|;
    for j := 0 to rows - 1
      invariant Rectangular(g) && |g| == rows && Width(g) == Width(grid)
      invariant PassedUpTo(grid, g, j, x, y)
    {
      ghost var before := g;
      g := CompareRows(g, j, x, y);
      PassedUpToStep(grid, before, g, j, x, y);
    }
    PassedUpToDone(grid, g, x, y);
  }

  /** A tilt along the columns: as many passes as there are rows. */
  method TiltColumns(grid: Grid, x: char, y: char) returns (g: Grid)
    requires Rectangular(grid)
    ensures g == ColumnsTilted(grid, x, y)
  {
    g := grid;
    for p := 0 to |grid|
      invariant Rectangular(g) && |g| == |grid| && Width(g) == Width(grid)
      invariant forall i :: 0 <= i < Width(grid) ==> Column(g, i) == Passes(Column(grid, i), p, x, y)
    {
      g := PassColumns(g, x, y);
    }
    ColumnsTiltedColumns(grid, x, y);
    ColumnsDetermine(g, ColumnsTilted(grid, x, y));
  }

  /** The innermost loop of a row tilt: compare cells `j` and `j + 1` of
      every row, top to bottom. */
  method CompareColumns(grid: Grid, j: nat, x: char, y: char) returns (g: Grid)
    requires Rectangular(grid) && j + 1 < Width(grid)
    ensures Rectangular(g) && |g| == |grid| && Width(g) == Width(grid)
    ensures forall r :: 0 <= r < |grid| ==> g[r] == Step(grid[r], j, x, y)
  {
    g := grid;
    for i := 0 to |grid|
      invariant |g| == |grid|
      invariant forall r :: 0 <= r < i ==> g[r] == Step(grid[r], j, x, y)
      invariant forall r :: i <= r < |grid| ==> g[r] == grid[r]
    {
      if g[i][j + 1] == y && g[i][j] == x {
        g := g[i := g[i][j := y]];
        g := g[i := g[i][j + 1 := x]];
      }
    }
  }

  /** One pass over every row: cells `0, 1`, then `1, 2`, and so on. */
  method PassRows(grid: Grid, x: char, y: char) returns (g: Grid)
    requires Rectangular(grid)
    ensures Rectangular(g) && |g| == |grid| && Width(g) == Width(grid)
    ensures forall r :: 0 <= r < |grid| ==> g[r] == Pass(grid[r], x, y)
  {
    g := grid;
    var cols := Width(grid);
    if cols == 0 {
      return;
    }
    for j := 0 to cols - 1
      invariant Rectangular(g) && |g| == |grid| && Width(g) == cols
      invariant forall r :: 0 <= r < |grid| ==> Pass(grid[r], x, y) == g[r][..j] + Pass(g[r][j..], x, y)
    {
      ghost var before := g;
      g := CompareColumns(g, j, x, y);
      forall r | 0 <= r < |grid|
        ensures Pass(grid[r], x, y) == g[r][..j + 1] + Pass(g[r][j + 1..], x, y)
      {
        PassStep(before[r], j, x, y);
      }
    }
    forall r | 0 <= r < |grid|
      ensures g[r] == Pass(grid[r], x, y)
    {
      var c := g[r];
      assert c[cols - 1..] == [c[cols - 1]];
      assert c == c[..cols - 1] + c[cols - 1..];
    }
  }

  /** A tilt along the rows: as many passes as there are columns. */
  method TiltRows(grid: Grid, x: char, y: char) returns (g: Grid)
    requires Rectangular(grid)
    ensures g == RowsTilted(grid, x, y)
  {
    g := grid;
    for p := 0 to Width(grid)
      invariant Rectangular(g) && |g| == |grid| && Width(g) == Width(grid)
      invariant forall r :: 0 <= r < |grid| ==> g[r] == Passes(grid[r], p, x, y)
    {
      g := PassRows(g, x, y);
    }
  }

  /** `tilt_north`: round rocks roll up, each `'.', 'O'` pair of a column
      becoming `'O', '.'`. */
  method TiltNorth(grid: Grid) returns (g: Grid)
    requires Rectangular(grid)
    ensures g == ColumnsTilted(grid, Empty, Round)
  {
    g := TiltColumns(grid, Empty, Round);
  }

  /** `tilt_south`: round rocks roll down. */
  method TiltSouth(grid: Grid) returns (g: Grid)
    requires Rectangular(grid)
    ensures g == ColumnsTilted(grid, Round, Empty)
  {
    g := TiltColumns(grid, Round, Empty);
  }

  /** `tilt_east`: round rocks roll right. */
  method TiltEast(grid: Grid) returns (g: Grid)
    requires Rectangular(grid)
    ensures g == RowsTilted(grid, Round, Empty)
  {
    g := TiltRows(grid, Round, Empty);
  }

  /** `tilt_west`: round rocks roll left. The source bounds its row index
      by the width and its column index by the height, which only stays
      inside the platform when it is square. */
  method TiltWest(grid: Grid) returns (g: Grid)
    requires Square(grid)
    ensures g == RowsTilted(grid, Empty, Round)
  {
    g := TiltRows(grid, Empty, Round);
  }

  // ---------------------------------------------------------------------
  // What a tilt keeps and what it achieves
  // ---------------------------------------------------------------------

  /** A column tilt keeps the characters of every column and leaves every
      cell that is neither `x` nor `y` (the cube rocks) in place. */
  lemma ColumnsTiltedKeep(g: Grid, x: char, y: char)
    requires Rectangular(g)
    ensures forall i :: 0 <= i < Width(g) ==> Keeps(Column(g, i), Column(ColumnsTilted(g, x, y), i), x, y)
  {
    ColumnsTiltedColumns(g, x, y);
    forall i | 0 <= i < Width(g)
      ensures Keeps(Column(g, i), Column(ColumnsTilted(g, x, y), i), x, y)
    {
      PassesKeep(Column(g, i), |g|, x, y);
    }
  }

  /** A row tilt keeps the characters of every row and every other cell. */
  lemma RowsTiltedKeep(g: Grid, x: char, y: char)
    requires Rectangular(g)
    ensures forall r :: 0 <= r < |g| ==> Keeps(g[r], RowsTilted(g, x, y)[r], x, y)
  {
    forall r | 0 <= r < |g|
      ensures Keeps(g[r], RowsTilted(g, x, y)[r], x, y)
    {
      PassesKeep(g[r], Width(g), x, y);
    }
  }

  /** After a tilt to the north no round rock lies directly below an empty
      cell: every column is settled. */
  lemma NorthSettled(g: Grid)
    requires Rectangular(g)
    ensures var t := ColumnsTilted(g, Empty, Round);
      forall i :: 0 <= i < Width(t) ==> Settled(Column(t, i), Empty, Round)
  {
    forall i | 0 <= i < Width(g)
      ensures Settled(Column(ColumnsTilted(g, Empty, Round), i), Empty, Round)
    {
      ColumnsTiltedColumns(g, Empty, Round);
      TiltSettled(Column(g, i), Empty, Round);
    }
  }

  /** Tilting the columns a second time changes nothing. */
  lemma ColumnsTiltedIdempotent(g: Grid, x: char, y: char)
    requires Rectangular(g) && x != y
    ensures ColumnsTilted(ColumnsTilted(g, x, y), x, y) == ColumnsTilted(g, x, y)
  {
    var t := ColumnsTilted(g, x, y);
    ColumnsTiltedColumns(g, x, y);
    ColumnsTiltedColumns(t, x, y);
    forall i | 0 <= i < Width(t)
      ensures Column(ColumnsTilted(t, x, y), i) == Column(t, i)
    {
      TiltIdempotent(Column(g, i), x, y);
    }
    ColumnsDetermine(ColumnsTilted(t, x, y), t);
  }

  /** Tilting the rows a second time changes nothing. */
  lemma RowsTiltedIdempotent(g: Grid, x: char, y: char)
    requires Rectangular(g) && x != y
    ensures RowsTilted(RowsTilted(g, x, y), x, y) == RowsTilted(g, x, y)
  {
    var t := RowsTilted(g, x, y);
    forall r | 0 <= r < |g|
      ensures RowsTilted(t, x, y)[r] == t[r]
    {
      TiltIdempotent(g[r], x, y);
    }
  }

  // ---------------------------------------------------------------------
  // The load on the north support beams
  // ---------------------------------------------------------------------

  /** Round rocks in a row. */
  function CountRound(row: seq<char>): nat
  {
    if row == [] then 0
    else CountRound(row[..|row| - 1]) + (if row[|row| - 1] == Round then 1 else 0)
  }

  /** The filtered count is the multiplicity of 'O' in the row. */
  lemma {:induction false} CountRoundMultiset(row: seq<char>)
    ensures CountRound(row) == multiset(row)[Round]
  {
    if row != [] {
      CountRoundMultiset(row[..|row| - 1]);
      assert row == row[..|row| - 1] + [row[|row| - 1]];
    }
  }

  /** Each round rock weighs as many as the rows from its own to the south
      edge. */
  function NorthLoad(g: Grid): nat
  {
    var s := RowLoads(g);
    SumZero(s);
    Sum(s)
  }

  /** `count` rocks at weight `w` each, added up rock by rock. */
  function Weighted(count: nat, w: nat): nat
  {
    if count == 0 then 0 else Weighted(count - 1, w) + w
  }

  /** The rock-by-rock weight is the product the source computes. */
  lemma {:induction false} WeightedIsProduct(count: nat, w: nat)
    ensures Weighted(count, w) == count * w
  {
    if count > 0 {
      WeightedIsProduct(count - 1, w);
    }
  }

  function RowLoads(g: Grid): (s: seq<int>)
    ensures |s| == |g| && forall r :: 0 <= r < |g| ==> s[r] == Weighted(CountRound(g[r]), |g| - r)
  {
    seq(|g|, r requires 0 <= r < |g| => Weighted(CountRound(g[r]), |g| - r))
  }

  lemma SumUpdate(s: seq<int>, k: nat, v: int)
    requires k < |s|
    ensures Sum(s[k := v]) == Sum(s) - s[k] + v
  {
    assert s == s[..k] + [s[k]] + s[k + 1..];
    assert s[k := v] == s[..k] + [v] + s[k + 1..];
    SumAppend(s[..k] + [s[k]], s[k + 1..]);
    SumAppend(s[..k], [s[k]]);
    SumAppend(s[..k] + [v], s[k + 1..]);
    SumAppend(s[..k], [v]);
  }

  /** Every swap of a tilt to the north raises the load by exactly one. */
  lemma NorthSwapLoad(g: Grid, j: nat, i: nat)
    requires Rectangular(g) && j + 1 < |g| && i < Width(g) && g[j][i] == Empty && g[j + 1][i] == Round
    ensures NorthLoad(g[j := g[j][i := Round]][j + 1 := g[j + 1][i := Empty]]) == NorthLoad(g) + 1
  {
    var n := |g|;
    var h1 := g[j := g[j][i := Round]];
    var up, down := CountRound(g[j]), CountRound(g[j + 1]);
    var c1, c2 := CountRound(g[j][i := Round]), CountRound(g[j + 1][i := Empty]);
    CountRoundSet(g[j], i, Round);
    CountRoundSet(g[j + 1], i, Empty);
    LoadSet(g, j, g[j][i := Round]);
    LoadSet(h1, j + 1, g[j + 1][i := Empty]);
    assert Weighted(c1, n - j) == Weighted(up, n - j) + (n - j);
    assert Weighted(down, n - j - 1) == Weighted(c2, n - j - 1) + (n - j - 1);
  }

  /** Replacing one row changes the load by the difference of its weight. */
  lemma LoadSet(g: Grid, j: nat, row: seq<char>)
    requires j < |g|
    ensures NorthLoad(g[j := row]) + Weighted(CountRound(g[j]), |g| - j)
         == NorthLoad(g) + Weighted(CountRound(row), |g| - j)
  {
    RowLoadsSet(g, j, row);
    SumUpdate(RowLoads(g), j, Weighted(CountRound(row), |g| - j));
  }

  lemma CountRoundSet(row: seq<char>, i: nat, v: char)
    requires i < |row|
    ensures CountRound(row[i := v]) + (if row[i] == Round then 1 else 0)
         == CountRound(row) + (if v == Round then 1 else 0)
  {
    CountRoundMultiset(row);
    CountRoundMultiset(row[i := v]);
    assert multiset(row[i := v]) == multiset(row) - multiset{row[i]} + multiset{v};
  }

  lemma RowLoadsSet(g: Grid, j: nat, row: seq<char>)
    requires j < |g|
    ensures RowLoads(g[j := row]) == RowLoads(g)[j := Weighted(CountRound(row), |g| - j)]
  {
  }


  /** Part 1: tilt north, then weigh. */
  method Part1(grid: Grid) returns (load: nat)
    requires Rectangular(grid)
    ensures load == NorthLoad(ColumnsTilted(grid, Empty, Round))
  {
    var g := TiltNorth(grid);
    load := NorthLoad(g);
  }

  // ---------------------------------------------------------------------
  // Spin cycles
  // ---------------------------------------------------------------------

  /** One spin cycle: north, west, south, east. */
  function Cycled(g: Grid): (c: Grid)
    requires Square(g)
    ensures Square(c) && |c| == |g|
  {
    RowsTilted(ColumnsTilted(RowsTilted(ColumnsTilted(g, Empty, Round), Empty, Round), Round, Empty), Round, Empty)
  }

  /** `cycle`: tilts a copy, so the argument itself is left as it was. */
  method Cycle(grid: Grid) returns (g: Grid)
    requires Square(grid)
    ensures g == Cycled(grid)
  {
    g := grid;
    g := TiltNorth(g);
    g := TiltWest(g);
    g := TiltSouth(g);
    g := TiltEast(g);
  }

  /** Every cell holds a character of `chars`. */
  predicate Over(g: Grid, chars: set<char>)
  {
    forall r, i :: 0 <= r < |g| && 0 <= i < |g[r]| ==> g[r][i] in chars
  }

  lemma ColumnsTiltedOver(g: Grid, x: char, y: char, chars: set<char>)
    requires Rectangular(g) && Over(g, chars)
    ensures Over(ColumnsTilted(g, x, y), chars)
  {
    var t := ColumnsTilted(g, x, y);
    ColumnsTiltedKeep(g, x, y);
    forall r, i | 0 <= r < |t| && 0 <= i < |t[r]|
      ensures t[r][i] in chars
    {
      var col := Column(g, i);
      assert t[r][i] == Column(t, i)[r];
      assert t[r][i] in multiset(col);
      var k :| 0 <= k < |col| && col[k] == t[r][i];
    }
  }

  lemma RowsTiltedOver(g: Grid, x: char, y: char, chars: set<char>)
    requires Rectangular(g) && Over(g, chars)
    ensures Over(RowsTilted(g, x, y), chars)
  {
    var t := RowsTilted(g, x, y);
    RowsTiltedKeep(g, x, y);
    forall r, i | 0 <= r < |t| && 0 <= i < |t[r]|
      ensures t[r][i] in chars
    {
      assert t[r][i] in multiset(g[r]);
      var k :| 0 <= k < |g[r]| && g[r][k] == t[r][i];
    }
  }

  /** A spin cycle only rearranges the characters already there. */
  lemma CycledOver(g: Grid, chars: set<char>)
    requires Square(g) && Over(g, chars)
    ensures Over(Cycled(g), chars)
  {
    var a := ColumnsTilted(g, Empty, Round);
    ColumnsTiltedOver(g, Empty, Round, chars);
    var b := RowsTilted(a, Empty, Round);
    RowsTiltedOver(a, Empty, Round, chars);
    var c := ColumnsTilted(b, Round, Empty);
    ColumnsTiltedOver(b, Round, Empty, chars);
    RowsTiltedOver(c, Round, Empty, chars);
  }

  /** A cube rock is never moved by a spin cycle. */
  lemma CycledKeepsCubes(g: Grid, r: nat, i: nat)
    requires Square(g) && r < |g| && i < |g| && g[r][i] == '#'
    ensures Cycled(g)[r][i] == '#'
  {
    var a := ColumnsTilted(g, Empty, Round);
    ColumnsTiltedKeep(g, Empty, Round);
    assert Column(g, i)[r] == '#';
    assert a[r][i] == Column(a, i)[r] == '#';
    var b := RowsTilted(a, Empty, Round);
    RowsTiltedKeep(a, Empty, Round);
    var c := ColumnsTilted(b, Round, Empty);
    ColumnsTiltedKeep(b, Round, Empty);
    assert Column(b, i)[r] == '#';
    assert c[r][i] == Column(c, i)[r] == '#';
    RowsTiltedKeep(c, Round, Empty);
  }

  /** One spin cycle, extended to every grid (a platform that is not
      square is left alone; no caller passes one). */
  function Spin(g: Grid): Grid
  {
    if Square(g) then Cycled(g) else g
  }

  /** `g` after `k` applications of `f`. */
  function Orbit(f: Grid -> Grid, g: Grid, k: nat): Grid
  {
    if k == 0 then g else f(Orbit(f, g, k - 1))
  }

  /** The platform after `k` spin cycles. */
  function Iterate(g: Grid, k: nat): Grid
  {
    Orbit(Spin, g, k)
  }

  lemma {:induction false} OrbitAdd(f: Grid -> Grid, g: Grid, m: nat, n: nat)
    ensures Orbit(f, g, m + n) == Orbit(f, Orbit(f, g, m), n)
  {
    if n > 0 {
      OrbitAdd(f, g, m, n - 1);
    }
  }

  /** Once the orbit is back where it was `p` steps earlier, it repeats
      with period `p`. */
  lemma {:induction false} OrbitPeriod(f: Grid -> Grid, g: Grid, start: nat, p: nat, k: nat)
    requires p > 0 && Orbit(f, g, start + p) == Orbit(f, g, start)
    ensures Orbit(f, g, start + k) == Orbit(f, g, start + k % p)
    decreases k
  {
    if k >= p {
      var rest := k - p;
      ShiftBack(f, g, start, p, rest);
      OrbitPeriod(f, g, start, p, rest);
      ModMinus(k, p);
    } else {
      ModUnique(k, p, 0, k);
    }
  }

  lemma ShiftBack(f: Grid -> Grid, g: Grid, start: nat, p: nat, rest: nat)
    requires Orbit(f, g, start + p) == Orbit(f, g, start)
    ensures Orbit(f, g, start + p + rest) == Orbit(f, g, start + rest)
  {
    OrbitAdd(f, g, start + p, rest);
    OrbitAdd(f, g, start, rest);
  }

  lemma ModMinus(k: nat, p: nat)
    requires 0 < p <= k
    ensures (k - p) % p == k % p
  {
    var q, r := k / p, k % p;
    assert k == q * p + r;
    assert q >= 1;
    assert k - p == (q - 1) * p + r;
    ModUnique(k - p, p, q - 1, r);
  }
  lemma ModUnique(a: int, p: int, q: int, r: int)
    requires 0 <= r < p && a == q * p + r
    ensures a % p == r
  {
    var q2, r2 := a / p, a % p;
    assert a == q2 * p + r2 && 0 <= r2 < p;
    assert (q - q2) * p == r2 - r;
    if q != q2 {
      var d := if q > q2 then q - q2 else q2 - q;
      AtLeastOnce(d, p);
    }
  }
  lemma AtLeastOnce(d: int, p: int)
    requires d >= 1 && p > 0
    ensures d * p >= p
  {
    assert d * p == (d - 1) * p + p;
    assert (d - 1) * p >= 0;
  }

  /** Spinning keeps a square platform square, over the same characters. */
  lemma {:induction false} IterateOver(g: Grid, k: nat, chars: set<char>)
    requires Square(g) && Over(g, chars)
    ensures Square(Iterate(g, k)) && |Iterate(g, k)| == |g| && Over(Iterate(g, k), chars)
  {
    if k > 0 {
      IterateOver(g, k - 1, chars);
      CycledOver(Iterate(g, k - 1), chars);
    }
  }

  // ---------------------------------------------------------------------
  // Finitely many platforms
  // ---------------------------------------------------------------------

  /** Every line of length `m` over `chars`. */
  function AllLines(m: nat, chars: set<char>): set<seq<char>>
  {
    if m == 0 then {[]}
    else set l, c | l in AllLines(m - 1, chars) && c in chars :: l + [c]
  }

  lemma {:induction false} InAllLines(l: seq<char>, chars: set<char>)
    requires forall k :: 0 <= k < |l| ==> l[k] in chars
    ensures l in AllLines(|l|, chars)
  {
    if l != [] {
      var init := l[..|l| - 1];
      InAllLines(init, chars);
      assert l == init + [l[|l| - 1]];
    }
  }

  /** Every platform of `n` rows of length `m` over `chars`. */
  function AllGrids(n: nat, m: nat, chars: set<char>): set<Grid>
  {
    if n == 0 then {[]}
    else set g, l | g in AllGrids(n - 1, m, chars) && l in AllLines(m, chars) :: g + [l]
  }

  lemma {:induction false} InAllGrids(g: Grid, m: nat, chars: set<char>)
    requires Over(g, chars) && forall r :: 0 <= r < |g| ==> |g[r]| == m
    ensures g in AllGrids(|g|, m, chars)
  {
    if g != [] {
      var init := g[..|g| - 1];
      var last := g[|g| - 1];
      InAllGrids(init, m, chars);
      assert forall k :: 0 <= k < |last| ==> last[k] in chars;
      InAllLines(last, chars);
      assert g == init + [last];
    }
  }

  /** The characters on a platform. */
  function Chars(g: Grid): (chars: set<char>)
    ensures Over(g, chars)
  {
    set r, i | 0 <= r < |g| && 0 <= i < |g[r]| :: g[r][i]
  }

  // ---------------------------------------------------------------------
  // Part 2: a billion cycles
  // ---------------------------------------------------------------------

  const Runs: nat := 1000000000

  /** `enumerate().filter_map(...)`: the indices at which `v` occurs, in
      increasing order. */
  function IndicesOf(h: seq<Grid>, v: Grid): (ix: seq<nat>)
    ensures forall t :: 0 <= t < |ix| ==> ix[t] < |h| && h[ix[t]] == v
    ensures forall k :: 0 <= k < |h| && h[k] == v ==> k in ix
  {
    if h == [] then []
    else IndicesOf(h[..|h| - 1], v) + (if h[|h| - 1] == v then [|h| - 1] else [])
  }

  /** A platform that occurs once is found at exactly that index. */
  lemma {:induction false} IndicesOfOnce(h: seq<Grid>, v: Grid, s: nat)
    requires s < |h| && h[s] == v && forall k :: 0 <= k < |h| && k != s ==> h[k] != v
    ensures IndicesOf(h, v) == [s]
  {
    var init := h[..|h| - 1];
    if s < |h| - 1 {
      IndicesOfOnce(init, v, s);
    } else {
      IndicesOfNone(init, v);
    }
  }

  lemma {:induction false} IndicesOfNone(h: seq<Grid>, v: Grid)
    requires forall k :: 0 <= k < |h| ==> h[k] != v
    ensures IndicesOf(h, v) == []
  {
    if h != [] {
      IndicesOfNone(h[..|h| - 1], v);
    }
  }

  /** The first `n` points of the orbit of `g` under `f`. */
  function Trajectory(f: Grid -> Grid, g: Grid, n: nat): (t: seq<Grid>)
    ensures |t| == n
  {
    if n == 0 then [] else Trajectory(f, g, n - 1) + [Orbit(f, g, n - 1)]
  }

  lemma {:induction false} TrajectoryAt(f: Grid -> Grid, g: Grid, n: nat, k: nat)
    requires k < n
    ensures Trajectory(f, g, n)[k] == Orbit(f, g, k)
  {
    if k < n - 1 {
      TrajectoryAt(f, g, n - 1, k);
    }
  }

  predicate Distinct(h: seq<Grid>)
  {
    forall a, b :: 0 <= a < b < |h| ==> h[a] != h[b]
  }

  /** No point repeats among the first `n`. */
  lemma NoRepeat(f: Grid -> Grid, g: Grid, n: nat)
    requires Distinct(Trajectory(f, g, n))
    ensures forall a, b :: 0 <= a < b < n ==> Orbit(f, g, a) != Orbit(f, g, b)
  {
    forall a, b | 0 <= a < b < n
      ensures Orbit(f, g, a) != Orbit(f, g, b)
    {
      TrajectoryAt(f, g, n, a);
      TrajectoryAt(f, g, n, b);
    }
  }

  /** The loop of part 2, one round: the history grows by the current
      platform, which is new. */
  lemma HistoryGrows(f: Grid -> Grid, g: Grid, h: seq<Grid>, current: Grid)
    requires h == Trajectory(f, g, |h|) && current == Orbit(f, g, |h|)
    requires Distinct(h) && current !in h
    ensures h + [current] == Trajectory(f, g, |h| + 1) && Distinct(h + [current])
    ensures f(current) == Orbit(f, g, |h| + 1)
  {
  }

  /** When the loop stops, the repeated platform occurs exactly twice. */
  lemma RepeatFound(h: seq<Grid>, current: Grid, s: nat)
    requires Distinct(h) && s < |h| && h[s] == current
    ensures IndicesOf(h + [current], current) == [s, |h|]
  {
    IndicesOfOnce(h, current, s);
    assert (h + [current])[..|h|] == h;
  }

  /** The loop of part 2: spin until a platform repeats, keeping every
      platform seen. It stops, since a square platform over fixed
      characters has finitely many arrangements. */
  method SpinUntilRepeat(grid: Grid) returns (history: seq<Grid>, current: Grid)
    requires Square(grid)
    ensures |history| > 0 && history == Trajectory(Spin, grid, |history|) && Distinct(history)
    ensures current == Iterate(grid, |history|) && current in history
  {
    ghost var chars := Chars(grid);
    ghost var universe := AllGrids(|grid|, |grid|, chars);
    InAllGrids(grid, |grid|, chars);
    history := [grid];
    ghost var seen := {grid};
    current := Cycle(grid);
    HistoryGrows(Spin, grid, [], grid);
    IterateOver(grid, 1, chars);
    InAllGrids(current, |grid|, chars);
    while current !in history
      invariant Spinning(grid, chars, universe, history, seen, current)
      decreases |universe - seen|
    {
      SpinStep(grid, chars, universe, history, seen, current);
      history := history + [current];
      seen := seen + {current};
      current := Cycle(current);
    }
  }
  /** The state of the spin loop: the distinct grids met so far, the next
      one, and the finite set of grids they are all drawn from. */
  ghost predicate Spinning(grid: Grid, chars: set<char>, universe: set<Grid>,
                           history: seq<Grid>, seen: set<Grid>, current: Grid)
  {
    Square(grid) && chars == Chars(grid) && universe == AllGrids(|grid|, |grid|, chars) &&
    history == Trajectory(Spin, grid, |history|) && |history| > 0 &&
    current == Iterate(grid, |history|) && Square(current) &&
    Distinct(history) &&
    (forall v :: v in seen <==> v in history) &&
    seen <= universe && current in universe
  }

  /** One more cycle keeps the loop's state and leaves fewer unseen grids. */
  lemma SpinStep(grid: Grid, chars: set<char>, universe: set<Grid>,
                 history: seq<Grid>, seen: set<Grid>, current: Grid)
    requires Spinning(grid, chars, universe, history, seen, current) && current !in history
    ensures Spinning(grid, chars, universe, history + [current], seen + {current}, Spin(current))
    ensures |universe - (seen + {current})| < |universe - seen|
  {
    HistoryGrows(Spin, grid, history, current);
    SpinBounded(grid, chars, |history| + 1);
    UnseenShrinks(universe, seen, current);
  }

  /** Every grid the spin cycles reach is drawn from the same finite set. */
  lemma SpinBounded(grid: Grid, chars: set<char>, k: nat)
    requires Square(grid) && Over(grid, chars)
    ensures Square(Iterate(grid, k)) && Iterate(grid, k) in AllGrids(|grid|, |grid|, chars)
  {
    IterateOver(grid, k, chars);
    InAllGrids(Iterate(grid, k), |grid|, chars);
  }

  /** Seeing one more grid of the set leaves fewer unseen. */
  lemma UnseenShrinks(universe: set<Grid>, seen: set<Grid>, current: Grid)
    requires current in universe && current !in seen
    ensures |universe - (seen + {current})| < |universe - seen|
  {
    assert universe - seen == (universe - (seen + {current})) + {current};
  }



  /** Part 2: find the first repeat, then read off the platform a billion
      cycles would reach. The result is `None` where the source would
      underflow, when the repeat comes only after more than a billion
      cycles. */
  method Part2(grid: Grid) returns (load: Option<nat>)
    requires Square(grid)
    ensures load.Some? ==> load.value == NorthLoad(Iterate(grid, Runs))
    ensures load.None? ==> forall a, b :: 0 <= a < b <= Runs ==> Iterate(grid, a) != Iterate(grid, b)
  {
    var history, current := SpinUntilRepeat(grid);
    var cycleStart, cycleEnd := FindCycle(history, current);
    if cycleEnd > Runs {
      NoRepeat(Spin, grid, cycleEnd);
      return None;
    }
    var finalIndex := CycleIndex(cycleStart, cycleEnd, Runs);
    FinalIndex(Spin, grid, cycleStart, cycleEnd, Runs, history);
    load := Some(NorthLoad(history[finalIndex]));
  }

  /** Pushes the repeated platform and finds both of its indices: the
      first is where the cycle starts, the second where it closes. */
  method FindCycle(history: seq<Grid>, current: Grid) returns (cycleStart: nat, cycleEnd: nat)
    requires Distinct(history) && current in history
    ensures cycleStart < cycleEnd == |history| && history[cycleStart] == current
  {
    var s :| 0 <= s < |history| && history[s] == current;
    RepeatFound(history, current, s);
    var full := history + [current];
    var last := full[|full| - 1];
    var dupes := IndicesOf(full, last);
    cycleStart, cycleEnd := dupes[0], dupes[1];
  }

  /** The index of the platform `runs` cycles reach, when the platforms at
      `start` and `end` are equal. */
  function CycleIndex(start: nat, end: nat, runs: nat): nat
    requires start < end <= runs
  {
    start + (runs - end) % (end - start)
  }

  lemma FinalIndex(f: Grid -> Grid, g: Grid, s: nat, n: nat, runs: nat, h: seq<Grid>)
    requires s < n <= runs && h == Trajectory(f, g, n) && h[s] == Orbit(f, g, n)
    ensures CycleIndex(s, n, runs) < n && h[CycleIndex(s, n, runs)] == Orbit(f, g, runs)
  {
    var i := CycleIndex(s, n, runs);
    TrajectoryAt(f, g, n, s);
    TrajectoryAt(f, g, n, i);
    PeriodReached(f, g, s, n, runs);
  }

  /** The index the source computes holds the point reached after `runs`
      (a billion) steps. */
  lemma PeriodReached(f: Grid -> Grid, g: Grid, s: nat, n: nat, runs: nat)
    requires s < n <= runs && Orbit(f, g, n) == Orbit(f, g, s)
    ensures Orbit(f, g, runs) == Orbit(f, g, s + (runs - n) % (n - s))
  {
    var p, k := n - s, runs - s;
    assert s + p == n && s + k == runs && k - p == runs - n;
    OrbitPeriod(f, g, s, p, k);
    ModMinus(k, p);
  }
}
