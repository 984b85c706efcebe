/** Day 21: the step counter. From the start plots, a gardener takes one
    step at a time onto neighbouring garden plots; a plot reached at an even
    step is marked even, at an odd step odd. Part 1 spreads over one grid
    and counts the even plots; part 2 spreads over one grid from the centre,
    the edges and the corners and combines the counts with the number of
    copies of the grid that a very long walk covers. */
module Day21 {
  import opened Common

  datatype Tile = Wall | Odd | Even | Neither

  type Grid = seq<seq<Tile>>

  /** A position: row, then column. */
  type Cell = (nat, nat)

  predicate Rectangular(g: Grid)
  {
    |g| > 0 && forall y :: 0 <= y < |g| ==> |g[y]| == |g[0]|
  }

  predicate SameShape(a: Grid, b: Grid)
  {
    |a| == |b| && forall y :: 0 <= y < |a| ==> |a[y]| == |b[y]|
  }

  predicate Inside(g: Grid, c: Cell)
  {
    c.0 < |g| && c.1 < |g[c.0]|
  }

  function At(g: Grid, c: Cell): Tile
    requires Inside(g, c)
  {
    g[c.0][c.1]
  }

  /** One step apart: the same row and neighbouring columns, or the
      reverse. */
  predicate Adjacent(a: Cell, b: Cell)
  {
    (a.0 == b.0 && (a.1 + 1 == b.1 || b.1 + 1 == a.1)) ||
    (a.1 == b.1 && (a.0 + 1 == b.0 || b.0 + 1 == a.0))
  }

  /** The tile a plot gets when it is reached at step `s`. */
  function Par(s: nat): Tile
  {
    if s % 2 == 0 then Even else Odd
  }

  // ---------------------------------------------------------------------
  // The spreading, step by step
  // ---------------------------------------------------------------------

  /** The fringe after `s` steps from the start cells `start` on the grid
      `g0`: the start cells themselves, then the plots that were still
      unmarked and are next to the previous fringe. */
  predicate InFringe(g0: Grid, start: set<Cell>, s: nat, c: Cell)
    decreases s, 0
  {
    if s == 0 then c in start
    else Inside(g0, c) && TileAt(g0, start, s - 1, c) == Neither && Touches(g0, start, s - 1, c)
  }

  /** One of the (at most four) cells next to `c` is in the fringe after
      `s` steps. */
  predicate Touches(g0: Grid, start: set<Cell>, s: nat, c: Cell)
    decreases s, 1
  {
    (c.0 > 0 && InFringe(g0, start, s, (c.0 - 1, c.1))) ||
    (c.1 > 0 && InFringe(g0, start, s, (c.0, c.1 - 1))) ||
    InFringe(g0, start, s, (c.0 + 1, c.1)) ||
    InFringe(g0, start, s, (c.0, c.1 + 1))
  }

  /** The tile of a cell after `s` steps: the fringe of step `s` is marked
      with the parity of `s`; everything else stays. */
  function TileAt(g0: Grid, start: set<Cell>, s: nat, c: Cell): Tile
    requires Inside(g0, c)
    decreases s, 2
  {
    if s == 0 then At(g0, c)
    else if InFringe(g0, start, s, c) then Par(s)
    else TileAt(g0, start, s - 1, c)
  }

  function Spread(g0: Grid, start: set<Cell>, s: nat): (g: Grid)
    ensures SameShape(g, g0)
  {
    seq(|g0|, y requires 0 <= y < |g0| =>
      seq(|g0[y]|, x requires 0 <= x < |g0[y]| => TileAt(g0, start, s, (y, x))))
  }

  function Cells(cells: seq<Cell>): set<Cell>
  {
    set c | c in cells
  }

  // ---------------------------------------------------------------------
  // Taking the steps (the loop of part 1 and `do_steps` of part 2)
  // ---------------------------------------------------------------------

  /** Some cell of `cells` is next to `c`. */
  predicate NextTo(c: Cell, cells: seq<Cell>)
  {
    exists i :: 0 <= i < |cells| && Adjacent(c, cells[i])
  }

  lemma NextToFront(c: Cell, d: Cell, cells: seq<Cell>)
    ensures NextTo(c, [d] + cells) <==> Adjacent(c, d) || NextTo(c, cells)
  {
    if Adjacent(c, d) {
      assert ([d] + cells)[0] == d;
    }
    if NextTo(c, cells) {
      var i :| 0 <= i < |cells| && Adjacent(c, cells[i]);
      assert ([d] + cells)[i + 1] == cells[i];
    }
    if NextTo(c, [d] + cells) && !Adjacent(c, d) {
      var i :| 0 <= i < |[d] + cells| && Adjacent(c, ([d] + cells)[i]);
      assert i != 0;
      assert cells[i - 1] == ([d] + cells)[i];
      assert 0 <= i - 1 < |cells| && Adjacent(c, cells[i - 1]);
    }
  }

  /** Marks one neighbouring plot if it is still unmarked, and puts it on
      the next fringe. */
  method Mark(grid: Grid, next: seq<Cell>, n: Cell, value: Tile) returns (grid': Grid, next': seq<Cell>)
    requires Inside(grid, n)
    ensures SameShape(grid', grid)
    ensures forall c :: Inside(grid, c) ==>
      At(grid', c) == if c == n && At(grid, n) == Neither then value else At(grid, c)
    ensures next' == if At(grid, n) == Neither then next + [n] else next
  {
    grid', next' := grid, next;
    if grid[n.0][n.1] == Neither {
      grid' := grid[n.0 := grid[n.0][n.1 := value]];
      next' := next + [n];
    }
  }

  /** The cells next to `d` inside the grid, in the order the source
      looks at them: up, left, down, right. */
  function Neighbours(g: Grid, d: Cell): seq<Cell>
    requires |g| > 0
  {
    (if d.0 > 0 then [(d.0 - 1, d.1)] else []) +
    (if d.1 > 0 then [(d.0, d.1 - 1)] else []) +
    (if d.0 < |g| - 1 then [(d.0 + 1, d.1)] else []) +
    (if d.1 < |g[0]| - 1 then [(d.0, d.1 + 1)] else [])
  }

  /** Every move stays inside the grid, and reaches every neighbour. */
  lemma NeighboursInside(g: Grid, d: Cell)
    requires Rectangular(g) && Inside(g, d)
    ensures forall c :: c in Neighbours(g, d) <==> Inside(g, c) && Adjacent(c, d)
  {
  }

  /** The grid and the next fringe once the unmarked cells among `ns`
      have been marked with `value`. */
  ghost predicate MarkedAmong(grid: Grid, next: seq<Cell>, ns: seq<Cell>, value: Tile, grid': Grid, next': seq<Cell>)
  {
    SameShape(grid', grid) &&
    (forall c :: Inside(grid, c) ==>
      At(grid', c) == if At(grid, c) == Neither && c in ns then value else At(grid, c)) &&
    (forall c :: c in next' <==> c in next || (Inside(grid, c) && At(grid, c) == Neither && c in ns))
  }

  lemma MarkedMore(grid: Grid, next: seq<Cell>, ns: seq<Cell>, value: Tile,
                   g: Grid, nx: seq<Cell>, n: Cell, g': Grid, nx': seq<Cell>)
    requires value != Neither && Inside(grid, n)
    requires MarkedAmong(grid, next, ns, value, g, nx)
    requires SameShape(g', g)
    requires forall c :: Inside(g, c) ==> At(g', c) == if c == n && At(g, n) == Neither then value else At(g, c)
    requires nx' == if At(g, n) == Neither then nx + [n] else nx
    ensures MarkedAmong(grid, next, ns + [n], value, g', nx')
  {
  }

  /** Visits one fringe cell: each of its neighbours, in turn, that is
      still unmarked gets `value`. */
  method Visit(grid: Grid, next: seq<Cell>, d: Cell, value: Tile) returns (grid': Grid, next': seq<Cell>)
    requires Rectangular(grid) && Inside(grid, d) && value != Neither
    ensures SameShape(grid', grid)
    ensures forall c :: Inside(grid, c) ==>
      At(grid', c) == if At(grid, c) == Neither && Adjacent(c, d) then value else At(grid, c)
    ensures forall c :: c in next' <==> c in next || (Inside(grid, c) && At(grid, c) == Neither && Adjacent(c, d))
  {
    grid', next' := grid, next;
    var ns := Neighbours(grid, d);
    NeighboursInside(grid, d);
    for i := 0 to |ns|
      invariant MarkedAmong(grid, next, ns[..i], value, grid', next')
    {
      var g, nx := Mark(grid', next', ns[i], value);
      MarkedMore(grid, next, ns[..i], value, grid', next', ns[i], g, nx);
      assert ns[..i + 1] == ns[..i] + [ns[i]];
      grid', next' := g, nx;
    }
    assert ns[..|ns|] == ns;
  }

  /** One step: the fringe is popped cell by cell and every unmarked plot
      next to one of its cells is marked with `value` and becomes part of
      the next fringe, which holds exactly the plots newly marked. */
  method Step(grid: Grid, fringe: seq<Cell>, value: Tile) returns (grid': Grid, next: seq<Cell>)
    requires Rectangular(grid) && value != Neither
    requires forall c :: c in fringe ==> Inside(grid, c)
    ensures SameShape(grid', grid)
    ensures forall c :: Inside(grid, c) ==>
      At(grid', c) == if At(grid, c) == Neither && NextTo(c, fringe) then value else At(grid, c)
    ensures forall c :: c in next <==> Inside(grid, c) && At(grid, c) == Neither && NextTo(c, fringe)
  {
    grid', next := grid, [];
    var rest := fringe;
    while rest != []
      invariant |rest| <= |fringe| && rest == fringe[..|rest|]
      invariant SameShape(grid', grid)
      invariant forall c :: Inside(grid, c) ==>
        At(grid', c) == if At(grid, c) == Neither && NextTo(c, fringe[|rest|..]) then value else At(grid, c)
      invariant forall c :: c in next <==> Inside(grid, c) && At(grid, c) == Neither && NextTo(c, fringe[|rest|..])
    {
      var d := rest[|rest| - 1];
      assert d == fringe[|rest| - 1] && Inside(grid, d);
      assert fringe[|rest| - 1..] == [d] + fringe[|rest|..];
      forall c
        ensures NextTo(c, fringe[|rest| - 1..]) <==> Adjacent(c, d) || NextTo(c, fringe[|rest|..])
      {
        NextToFront(c, d, fringe[|rest|..]);
      }
      rest := rest[..|rest| - 1];
      grid', next := Visit(grid', next, d, value);
    }
  }

  /** A cell is next to the fringe of step `s` exactly when one of its
      four neighbours is in it. */
  lemma NextToFringe(g0: Grid, start: set<Cell>, s: nat, fringe: seq<Cell>, c: Cell)
    requires forall c :: c in start ==> Inside(g0, c)
    requires forall c :: c in fringe <==> InFringe(g0, start, s, c)
    ensures NextTo(c, fringe) <==> Touches(g0, start, s, c)
  {
    if NextTo(c, fringe) {
      var i :| 0 <= i < |fringe| && Adjacent(c, fringe[i]);
      var n := fringe[i];
      assert InFringe(g0, start, s, n);
      if n.0 + 1 == c.0 {
        assert n == (c.0 - 1, c.1);
      } else if c.0 + 1 == n.0 {
        assert n == (c.0 + 1, c.1);
      } else if n.1 + 1 == c.1 {
        assert n == (c.0, c.1 - 1);
      } else {
        assert n == (c.0, c.1 + 1);
      }
    }
    if Touches(g0, start, s, c) {
      var n: Cell;
      if c.0 > 0 && InFringe(g0, start, s, (c.0 - 1, c.1)) {
        n := (c.0 - 1, c.1);
      } else if c.1 > 0 && InFringe(g0, start, s, (c.0, c.1 - 1)) {
        n := (c.0, c.1 - 1);
      } else if InFringe(g0, start, s, (c.0 + 1, c.1)) {
        n := (c.0 + 1, c.1);
      } else {
        n := (c.0, c.1 + 1);
      }
      assert n in fringe;
      var i :| 0 <= i < |fringe| && fringe[i] == n;
      assert Adjacent(c, fringe[i]);
    }
  }

  lemma SameGrid(a: Grid, b: Grid)
    requires SameShape(a, b)
    requires forall c :: Inside(a, c) ==> At(a, c) == At(b, c)
    ensures a == b
  {
    forall y | 0 <= y < |a|
      ensures a[y] == b[y]
    {
      forall x | 0 <= x < |a[y]|
        ensures a[y][x] == b[y][x]
      {
        assert Inside(a, (y, x));
      }
    }
  }

  /** Takes `steps` steps from the start cells: the loop of part 1 and of
      `do_steps` in part 2. The grid ends as the step-by-step spreading
      leaves it. */
  method TakeSteps(g0: Grid, start: seq<Cell>, steps: nat) returns (grid: Grid)
    requires Rectangular(g0)
    requires forall c :: c in start ==> Inside(g0, c)
    ensures grid == Spread(g0, Cells(start), steps)
  {
    ghost var from := Cells(start);
    grid := g0;
    var fringe := start;
    for step := 1 to steps + 1
      invariant SameShape(grid, g0)
      invariant forall c :: Inside(g0, c) ==> At(grid, c) == TileAt(g0, from, step - 1, c)
      invariant forall c :: c in fringe <==> InFringe(g0, from, step - 1, c)
      invariant forall c :: c in fringe ==> Inside(g0, c)
    {
      forall c | Inside(g0, c)
        ensures NextTo(c, fringe) <==> Touches(g0, from, step - 1, c)
      {
        NextToFringe(g0, from, step - 1, fringe, c);
      }
      grid, fringe := Step(grid, fringe, Par(step));
    }
    SameGrid(grid, Spread(g0, from, steps));
  }

  // ---------------------------------------------------------------------
  // What the spreading computes: shortest walks
  // ---------------------------------------------------------------------

  /** `c` is a start cell, or is reached from one in at most `k` steps,
      each onto a neighbouring plot that was unmarked at the outset. */
  predicate Reach(g0: Grid, start: set<Cell>, k: nat, c: Cell)
    decreases k, 1
  {
    c in start || MarkedBy(g0, start, k, c)
  }

  /** `c` is a plot unmarked at the outset that a walk of at most `k`
      steps from a start cell ends on. */
  predicate MarkedBy(g0: Grid, start: set<Cell>, k: nat, c: Cell)
    decreases k, 0
  {
    k > 0 && Inside(g0, c) && At(g0, c) == Neither && Near(g0, start, k - 1, c)
  }

  /** One of the neighbours of `c` is reached in at most `k` steps. */
  predicate Near(g0: Grid, start: set<Cell>, k: nat, c: Cell)
    decreases k, 2
  {
    (c.0 > 0 && Reach(g0, start, k, (c.0 - 1, c.1))) ||
    (c.1 > 0 && Reach(g0, start, k, (c.0, c.1 - 1))) ||
    Reach(g0, start, k, (c.0 + 1, c.1)) ||
    Reach(g0, start, k, (c.0, c.1 + 1))
  }

  /** A plot reached within `k` steps is reached within `k + 1`. */
  lemma {:induction false} MarkedByGrows(g0: Grid, start: set<Cell>, k: nat, c: Cell)
    requires MarkedBy(g0, start, k, c)
    ensures MarkedBy(g0, start, k + 1, c)
    decreases k
  {
    var n: Cell;
    if c.0 > 0 && Reach(g0, start, k - 1, (c.0 - 1, c.1)) {
      n := (c.0 - 1, c.1);
    } else if c.1 > 0 && Reach(g0, start, k - 1, (c.0, c.1 - 1)) {
      n := (c.0, c.1 - 1);
    } else if Reach(g0, start, k - 1, (c.0 + 1, c.1)) {
      n := (c.0 + 1, c.1);
    } else {
      n := (c.0, c.1 + 1);
    }
    assert Reach(g0, start, k - 1, n);
    if n !in start {
      assert MarkedBy(g0, start, k - 1, n);
      MarkedByGrows(g0, start, k - 1, n);
    }
    assert Reach(g0, start, k, n);
  }

  lemma {:induction false} MarkedByMonotone(g0: Grid, start: set<Cell>, j: nat, k: nat, c: Cell)
    requires j <= k && MarkedBy(g0, start, j, c)
    ensures MarkedBy(g0, start, k, c)
    decreases k - j
  {
    if j < k {
      MarkedByGrows(g0, start, j, c);
      MarkedByMonotone(g0, start, j + 1, k, c);
    }
  }

  /** The layers of the spreading: after `s` steps a plot is still
      unmarked exactly when no walk of at most `s` steps reaches it, and
      the fringe of step `s` holds exactly the plots whose shortest walk
      takes `s` steps. */
  lemma {:induction false} Layers(g0: Grid, start: set<Cell>, s: nat, c: Cell)
    ensures Inside(g0, c) ==>
      (TileAt(g0, start, s, c) == Neither <==> At(g0, c) == Neither && !MarkedBy(g0, start, s, c))
    ensures s > 0 ==>
      (InFringe(g0, start, s, c) <==> MarkedBy(g0, start, s, c) && !MarkedBy(g0, start, s - 1, c))
    decreases s, 0
  {
    if s > 0 {
      Layers(g0, start, s - 1, c);
      if !Inside(g0, c) {
      } else if MarkedBy(g0, start, s - 1, c) {
        MarkedByGrows(g0, start, s - 1, c);
        assert !InFringe(g0, start, s, c);
      } else if At(g0, c) != Neither {
        assert !InFringe(g0, start, s, c);
      } else {
        FringeNeighbour(g0, start, s - 1, c, (c.0 + 1, c.1));
        FringeNeighbour(g0, start, s - 1, c, (c.0, c.1 + 1));
        if c.0 > 0 {
          FringeNeighbour(g0, start, s - 1, c, (c.0 - 1, c.1));
        }
        if c.1 > 0 {
          FringeNeighbour(g0, start, s - 1, c, (c.0, c.1 - 1));
        }
        assert Touches(g0, start, s - 1, c) <==> Near(g0, start, s - 1, c);
        assert InFringe(g0, start, s, c) <==> MarkedBy(g0, start, s, c);
      }
    }
  }

  /** For a plot not reached within `k` steps, a neighbour is in the
      fringe of step `k` exactly when it is reached within `k` steps. */
  lemma {:induction false} FringeNeighbour(g0: Grid, start: set<Cell>, k: nat, c: Cell, n: Cell)
    requires Inside(g0, c) && At(g0, c) == Neither && !MarkedBy(g0, start, k, c)
    requires Adjacent(c, n)
    ensures InFringe(g0, start, k, n) <==> Reach(g0, start, k, n)
    decreases k, 1
  {
    if k > 0 {
      Layers(g0, start, k, n);
      assert !Near(g0, start, k - 1, c);
      if n.0 + 1 == c.0 {
        assert n == (c.0 - 1, c.1);
      } else if c.0 + 1 == n.0 {
        assert n == (c.0 + 1, c.1);
      } else if n.1 + 1 == c.1 {
        assert n == (c.0, c.1 - 1);
      } else {
        assert n == (c.0, c.1 + 1);
      }
      assert !Reach(g0, start, k - 1, n);
    }
  }

  /** The step at which `c` was first reached, looking back from step `s`. */
  function FirstMark(g0: Grid, start: set<Cell>, s: nat, c: Cell): (f: nat)
    requires MarkedBy(g0, start, s, c)
    ensures 0 < f <= s
    ensures MarkedBy(g0, start, f, c) && !MarkedBy(g0, start, f - 1, c)
    decreases s
  {
    if MarkedBy(g0, start, s - 1, c) then FirstMark(g0, start, s - 1, c) else s
  }

  /** No walk shorter than the first mark reaches the plot. */
  lemma FirstMarkIsShortest(g0: Grid, start: set<Cell>, s: nat, c: Cell, j: nat)
    requires MarkedBy(g0, start, s, c) && j < FirstMark(g0, start, s, c)
    ensures !MarkedBy(g0, start, j, c)
  {
    var f := FirstMark(g0, start, s, c);
    if MarkedBy(g0, start, j, c) {
      MarkedByMonotone(g0, start, j, f - 1, c);
    }
  }

  /** The grid after `s` steps: walls and cells that were not open plots
      keep their tile; an open plot carries the parity of the length of its
      shortest walk from a start cell if that is at most `s`, and stays
      open otherwise. */
  lemma {:induction false} SpreadTiles(g0: Grid, start: set<Cell>, s: nat, c: Cell)
    requires Inside(g0, c)
    ensures At(g0, c) != Neither ==> TileAt(g0, start, s, c) == At(g0, c)
    ensures At(g0, c) == Neither ==>
      TileAt(g0, start, s, c) == (if MarkedBy(g0, start, s, c) then Par(FirstMark(g0, start, s, c)) else Neither)
    decreases s
  {
    if s > 0 {
      Layers(g0, start, s, c);
      SpreadTiles(g0, start, s - 1, c);
      if MarkedBy(g0, start, s - 1, c) {
        MarkedByGrows(g0, start, s - 1, c);
      }
    }
  }

  /** The tile of every cell of the spread grid, in terms of shortest
      walks. */
  lemma SpreadAt(g0: Grid, start: set<Cell>, s: nat, c: Cell)
    requires Inside(g0, c)
    ensures Inside(Spread(g0, start, s), c)
    ensures At(g0, c) != Neither ==> At(Spread(g0, start, s), c) == At(g0, c)
    ensures At(g0, c) == Neither ==>
      At(Spread(g0, start, s), c) == (if MarkedBy(g0, start, s, c) then Par(FirstMark(g0, start, s, c)) else Neither)
  {
    SpreadTiles(g0, start, s, c);
  }

  /** Part 1's count: a cell is even after `s` steps exactly when it was
      even at the outset (a start plot) or is an open plot whose shortest
      walk from a start has an even length of at most `s`. */
  lemma EvenAfter(g0: Grid, start: set<Cell>, s: nat, c: Cell)
    requires Inside(g0, c)
    ensures Inside(Spread(g0, start, s), c)
    ensures At(Spread(g0, start, s), c) == Even <==>
      At(g0, c) == Even ||
      (At(g0, c) == Neither && MarkedBy(g0, start, s, c) && FirstMark(g0, start, s, c) % 2 == 0)
  {
    SpreadAt(g0, start, s, c);
  }

  /** `do_steps`: `steps` steps from a single start cell. */
  method DoSteps(g0: Grid, start: Cell, steps: nat) returns (grid: Grid)
    requires Rectangular(g0) && Inside(g0, start)
    ensures grid == Spread(g0, {start}, steps)
  {
    grid := TakeSteps(g0, [start], steps);
    assert Cells([start]) == {start};
  }

  // ---------------------------------------------------------------------
  // Parsing
  // ---------------------------------------------------------------------

  /** The tile a character stands for; the start plot is even in part 1
      and an open plot in part 2. */
  function TileOf(ch: char, startTile: Tile): Option<Tile>
  {
    match ch
    case '.' => Some(Neither)
    case '#' => Some(Wall)
    case 'S' => Some(startTile)
    case _ => None
  }

  /** One line of the map; `None` where the source panics on an unexpected
      character. */
  function ParseRow(line: string, startTile: Tile): (row: Option<seq<Tile>>)
    ensures row.Some? <==> forall x :: 0 <= x < |line| ==> TileOf(line[x], startTile).Some?
    ensures row.Some? ==> |row.value| == |line|
    ensures row.Some? ==> forall x :: 0 <= x < |line| ==> TileOf(line[x], startTile) == Some(row.value[x])
  {
    if line == [] then Some([])
    else
      var init := ParseRow(line[..|line| - 1], startTile);
      var last := TileOf(line[|line| - 1], startTile);
      if init.None? || last.None? then None else Some(init.value + [last.value])
  }

  function ParseGrid(lines: seq<string>, startTile: Tile): (g: Option<Grid>)
    ensures g.Some? <==> forall y :: 0 <= y < |lines| ==> ParseRow(lines[y], startTile).Some?
    ensures g.Some? ==> |g.value| == |lines|
    ensures g.Some? ==> forall y :: 0 <= y < |lines| ==> ParseRow(lines[y], startTile) == Some(g.value[y])
  {
    if lines == [] then Some([])
    else
      var init := ParseGrid(lines[..|lines| - 1], startTile);
      var last := ParseRow(lines[|lines| - 1], startTile);
      if init.None? || last.None? then None else Some(init.value + [last.value])
  }

  /** The start positions on line `y`, left to right. */
  function RowStarts(line: string, y: nat): (cs: seq<Cell>)
    ensures forall c: Cell :: c in cs <==> c.0 == y && c.1 < |line| && line[c.1] == 'S'
  {
    if line == [] then []
    else RowStarts(line[..|line| - 1], y) + (if line[|line| - 1] == 'S' then [(y, |line| - 1)] else [])
  }

  /** The start positions in reading order, as part 1 pushes them on its
      fringe. */
  function Starts(lines: seq<string>): (cs: seq<Cell>)
    ensures forall c: Cell :: c in cs <==> c.0 < |lines| && c.1 < |lines[c.0]| && lines[c.0][c.1] == 'S'
  {
    if lines == [] then []
    else Starts(lines[..|lines| - 1]) + RowStarts(lines[|lines| - 1], |lines| - 1)
  }

  /** A parsed map of equally long lines is a rectangle of the same size. */
  lemma ParsedShape(lines: seq<string>, startTile: Tile)
    requires |lines| > 0 && forall y :: 0 <= y < |lines| ==> |lines[y]| == |lines[0]|
    requires ParseGrid(lines, startTile).Some?
    ensures Rectangular(ParseGrid(lines, startTile).value)
    ensures |ParseGrid(lines, startTile).value[0]| == |lines[0]|
    ensures forall c: Cell :: c.0 < |lines| && c.1 < |lines[c.0]| ==> Inside(ParseGrid(lines, startTile).value, c)
  {
    var g := ParseGrid(lines, startTile).value;
    forall y | 0 <= y < |g|
      ensures |g[y]| == |lines[y]|
    {
      assert ParseRow(lines[y], startTile) == Some(g[y]);
    }
  }

  // ---------------------------------------------------------------------
  // Counting and flipping
  // ---------------------------------------------------------------------

  /** The number of `t` tiles in a row. */
  function CountRow(row: seq<Tile>, t: Tile): (n: nat)
    ensures n == multiset(row)[t]
  {
    if row == [] then 0
    else
      assert row == row[..|row| - 1] + [row[|row| - 1]];
      CountRow(row[..|row| - 1], t) + (if row[|row| - 1] == t then 1 else 0)
  }

  /** `count_tiles`: the number of `t` tiles in the grid. */
  function CountTile(g: Grid, t: Tile): nat
  {
    if g == [] then 0 else CountTile(g[..|g| - 1], t) + CountRow(g[|g| - 1], t)
  }

  function FlipTile(t: Tile): Tile
  {
    match t
    case Odd => Even
    case Even => Odd
    case other => other
  }

  function FlipRow(row: seq<Tile>): (r: seq<Tile>)
  {
    seq(|row|, x requires 0 <= x < |row| => FlipTile(row[x]))
  }

  /** `flip_grid`: odd and even swapped, everything else kept. */
  function Flip(g: Grid): (f: Grid)
    ensures SameShape(f, g)
  {
    seq(|g|, y requires 0 <= y < |g| => FlipRow(g[y]))
  }

  lemma FlipTwice(g: Grid)
    ensures Flip(Flip(g)) == g
  {
    forall y | 0 <= y < |g|
      ensures Flip(Flip(g))[y] == g[y]
    {
      assert FlipRow(FlipRow(g[y])) == g[y];
    }
  }

  lemma {:induction false} FlipRowCounts(row: seq<Tile>)
    ensures CountRow(FlipRow(row), Odd) == CountRow(row, Even)
    ensures CountRow(FlipRow(row), Even) == CountRow(row, Odd)
  {
    if row != [] {
      FlipRowCounts(row[..|row| - 1]);
      assert FlipRow(row)[..|row| - 1] == FlipRow(row[..|row| - 1]);
    }
  }

  /** Flipping a grid swaps its odd and even counts. */
  lemma {:induction false} FlipCounts(g: Grid)
    ensures CountTile(Flip(g), Odd) == CountTile(g, Even)
    ensures CountTile(Flip(g), Even) == CountTile(g, Odd)
  {
    if g != [] {
      FlipCounts(g[..|g| - 1]);
      assert Flip(g)[..|g| - 1] == Flip(g[..|g| - 1]);
      FlipRowCounts(g[|g| - 1]);
    }
  }

  // ---------------------------------------------------------------------
  // Part 1
  // ---------------------------------------------------------------------

  /** Spreads 327 steps from the start plots, which count as even, and
      counts the even plots. `None` where the source panics: an unexpected
      character or an empty map. */
  method Part1(lines: seq<string>) returns (r: Option<nat>)
    requires forall y :: 0 <= y < |lines| ==> |lines[y]| == |lines[0]|
    ensures r.Some? <==> |lines| > 0 && ParseGrid(lines, Even).Some?
    ensures r.Some? ==>
      r.value == CountTile(Spread(ParseGrid(lines, Even).value, Cells(Starts(lines)), 327), Even)
  {
    var parsed := ParseGrid(lines, Even);
    if parsed.None? || |lines| == 0 {
      return None;
    }
    ParsedShape(lines, Even);
    var grid := TakeSteps(parsed.value, Starts(lines), 65 + 131 + 131);
    return Some(CountTile(grid, Even));
  }

  // ---------------------------------------------------------------------
  // Part 2: copies of the map covered by a long walk
  // ---------------------------------------------------------------------

  /** `nth_tri`, the closed form of 1 + 2 + ... + x. */
  function Tri(x: nat): nat
  {
    x * (x + 1) / 2
  }

  function TriSum(x: nat): nat
  {
    if x == 0 then 0 else TriSum(x - 1) + x
  }

  lemma {:induction false} TriIsSum(x: nat)
    ensures Tri(x) == TriSum(x)
  {
    TriSumClosed(x);
  }

  lemma {:induction false} TriSumClosed(x: nat)
    ensures 2 * TriSum(x) == x * (x + 1)
  {
    if x > 0 {
      TriSumClosed(x - 1);
      assert (x - 1) * x + 2 * x == x * (x + 1);
    }
  }

  /** The number of copies of the map at taxicab distance `d` from the
      centre copy: one at distance 0, otherwise `4 * d`. */
  function Ring(d: nat): nat
  {
    if d == 0 then 1 else 4 * d
  }

  /** The copies within distance `r`. */
  function Rings(r: nat): nat
  {
    if r == 0 then Ring(0) else Rings(r - 1) + Ring(r)
  }

  /** The copies within distance `r` at an even distance: these have the
      parity of the centre copy. */
  function SameRings(r: nat): nat
  {
    if r == 0 then Ring(0) else SameRings(r - 1) + (if r % 2 == 0 then Ring(r) else 0)
  }

  /** The copies within distance `r` at an odd distance: these have the
      parity flipped. */
  function DiffRings(r: nat): nat
  {
    if r == 0 then 0 else DiffRings(r - 1) + (if r % 2 == 1 then Ring(r) else 0)
  }

  /** `all_fully_covered`: `4 * nth_tri(r) + 1` counts the copies within
      distance `r`. */
  lemma {:induction false} RingsClosed(r: nat)
    ensures Rings(r) == 4 * TriSum(r) + 1
  {
    if r > 0 {
      RingsClosed(r - 1);
    }
  }

  /** `num_same`: `4 * (2 * nth_tri(r / 2)) + 1` counts the copies at an
      even distance, whether `r` is even or odd. */
  lemma {:induction false} SameRingsClosed(r: nat)
    ensures SameRings(r) == 8 * TriSum(r / 2) + 1
  {
    if r > 0 {
      SameRingsClosed(r - 1);
      if r % 2 == 0 {
        assert (r - 1) / 2 == r / 2 - 1;
      } else {
        assert (r - 1) / 2 == r / 2;
      }
    }
  }

  /** Every copy is at an even or an odd distance, so `num_diff` (all
      minus same) never underflows and counts the odd-distance copies. */
  lemma {:induction false} RingsSplit(r: nat)
    ensures Rings(r) == SameRings(r) + DiffRings(r)
  {
    if r > 0 {
      RingsSplit(r - 1);
    }
  }

  /** The step count of part 2 and the map's side. */
  const MaxSteps: nat := 26501365
  const GridSize: nat := 131
  /** The middle row or column of the map, where the start is, and the
      last one. */
  const Mid: nat := 65
  const Last: nat := 130

  /** `max_repeats`: the number of whole map widths crossed beyond the
      centre copy. It is odd, although the source remarks that it is even;
      the copy counts below hold for either parity. */
  lemma RepeatsOdd()
    ensures MaxSteps / GridSize - 1 == 202299
    ensures (MaxSteps / GridSize - 1) % 2 == 1
    ensures MaxSteps == GridSize * (MaxSteps / GridSize) + Mid
  {
  }

  /** The number of `t` plots after `steps` steps from `from`. */
  function Reached(g: Grid, from: Cell, steps: nat, t: Tile): nat
  {
    CountTile(Spread(g, {from}, steps), t)
  }

  /** The plot counts of the pieces part 2 combines. */
  datatype Pieces = Pieces(same: nat, diff: nat, tips: nat, small: nat, big: nat)

  /** The centre copy counts the odd plots of a full spread from the
      centre, a copy of the other parity its even plots; the four tips of
      the diamond and the small diagonal edge copies count the even plots,
      the big diagonal edge copies the odd plots, of spreads from the
      middle of the opposite edge or from the opposite corner. */
  function PiecesOf(g: Grid): Pieces
  {
    Pieces(
      Reached(g, (Mid, Mid), Mid + Mid, Odd),
      Reached(g, (Mid, Mid), Mid + Mid, Even),
      Reached(g, (Last, Mid), Mid + Mid, Even) + Reached(g, (0, Mid), Mid + Mid, Even)
        + Reached(g, (Mid, Last), Mid + Mid, Even) + Reached(g, (Mid, 0), Mid + Mid, Even),
      Reached(g, (Last, Last), Mid - 1, Even) + Reached(g, (Last, 0), Mid - 1, Even)
        + Reached(g, (0, Last), Mid - 1, Even) + Reached(g, (0, 0), Mid - 1, Even),
      Reached(g, (Last, Last), Last + Mid, Odd) + Reached(g, (Last, 0), Last + Mid, Odd)
        + Reached(g, (0, Last), Last + Mid, Odd) + Reached(g, (0, 0), Last + Mid, Odd))
  }

  /** The answer of part 2 for `r` repeats: every piece's count times the
      number of its copies in the diamond of copies the walk covers. The
      four tips occur once, the small diagonal edge pieces `r + 1` times
      along each side and the big ones `r` times. */
  function Total(r: nat, p: Pieces): nat
  {
    Copies(SameRings(r), p.same) + Copies(DiffRings(r), p.diff) + p.tips
    + Copies(r + 1, p.small) + Copies(r, p.big)
  }

  /** The plots of `n` copies that each hold `plots` of them. */
  function Copies(n: nat, plots: nat): nat
  {
    n * plots
  }

  /** `count_odd` of a spread from `start`, flipped first when `flipped`:
      the number of plots of the parity the piece contributes. */
  method Piece(g: Grid, start: Cell, steps: nat, flipped: bool) returns (n: nat)
    requires Rectangular(g) && Inside(g, start)
    ensures n == Reached(g, start, steps, if flipped then Even else Odd)
  {
    var grid := DoSteps(g, start, steps);
    if flipped {
      FlipCounts(grid);
      grid := Flip(grid);
    }
    n := CountTile(grid, Odd);
  }

  /** The four diamond tips (flipped) and the four small (flipped) and
      big diagonal edge pieces. */
  method EdgeCounts(g: Grid) returns (tips: nat, small: nat, big: nat)
    requires Rectangular(g) && |g| >= GridSize && |g[0]| >= GridSize
    ensures tips == Reached(g, (Last, Mid), Mid + Mid, Even) + Reached(g, (0, Mid), Mid + Mid, Even)
      + Reached(g, (Mid, Last), Mid + Mid, Even) + Reached(g, (Mid, 0), Mid + Mid, Even)
    ensures small == Reached(g, (Last, Last), Mid - 1, Even) + Reached(g, (Last, 0), Mid - 1, Even)
      + Reached(g, (0, Last), Mid - 1, Even) + Reached(g, (0, 0), Mid - 1, Even)
    ensures big == Reached(g, (Last, Last), Last + Mid, Odd) + Reached(g, (Last, 0), Last + Mid, Odd)
      + Reached(g, (0, Last), Last + Mid, Odd) + Reached(g, (0, 0), Last + Mid, Odd)
  {
    var u := Piece(g, (Last, Mid), Mid + Mid, true);
    var d := Piece(g, (0, Mid), Mid + Mid, true);
    var l := Piece(g, (Mid, Last), Mid + Mid, true);
    var r := Piece(g, (Mid, 0), Mid + Mid, true);
    tips := u + d + l + r;

    var ulSmall := Piece(g, (Last, Last), Mid - 1, true);
    var urSmall := Piece(g, (Last, 0), Mid - 1, true);
    var dlSmall := Piece(g, (0, Last), Mid - 1, true);
    var drSmall := Piece(g, (0, 0), Mid - 1, true);
    small := ulSmall + urSmall + dlSmall + drSmall;

    var ulBig := Piece(g, (Last, Last), Last + Mid, false);
    var urBig := Piece(g, (Last, 0), Last + Mid, false);
    var dlBig := Piece(g, (0, Last), Last + Mid, false);
    var drBig := Piece(g, (0, 0), Last + Mid, false);
    big := ulBig + urBig + dlBig + drBig;
  }

  /** Part 2 on a map of at least 131 by 131 plots whose start is an open
      plot: the copy counts for 202299 repeats times the plot counts of the
      pieces. `None` where the source panics on an unexpected character. */
  method Part2(lines: seq<string>) returns (r: Option<nat>)
    requires |lines| >= GridSize && |lines[0]| >= GridSize
    requires forall y :: 0 <= y < |lines| ==> |lines[y]| == |lines[0]|
    ensures r.Some? <==> ParseGrid(lines, Neither).Some?
    ensures r.Some? ==> r.value == Total(MaxSteps / GridSize - 1, PiecesOf(ParseGrid(lines, Neither).value))
  {
    var parsed := ParseGrid(lines, Neither);
    if parsed.None? {
      return None;
    }
    var grid := parsed.value;
    ParsedShape(lines, Neither);

    var maxRepeats: nat := MaxSteps / GridSize - 1;
    var pieces := CountPieces(grid);
    var total := Combine(maxRepeats, pieces);
    r := Some(total);
  }

  method CountPieces(g: Grid) returns (p: Pieces)
    requires Rectangular(g) && |g| >= GridSize && |g[0]| >= GridSize
    ensures p == PiecesOf(g)
  {
    var same, diff := CentreCounts(g);
    var tips, small, big := EdgeCounts(g);
    p := Pieces(same, diff, tips, small, big);
  }

  /** The same-parity copy (`same_grid`) and the flipped one (`diff_grid`)
      of a full spread from the centre: their `count_odd`. */
  method CentreCounts(g: Grid) returns (same: nat, diff: nat)
    requires Rectangular(g) && |g| >= GridSize && |g[0]| >= GridSize
    ensures same == Reached(g, (Mid, Mid), Mid + Mid, Odd)
    ensures diff == Reached(g, (Mid, Mid), Mid + Mid, Even)
  {
    var sameGrid := DoSteps(g, (Mid, Mid), Last);
    var diffGrid := Flip(sameGrid);
    FlipCounts(sameGrid);
    same := CountTile(sameGrid, Odd);
    diff := CountTile(diffGrid, Odd);
  }

  /** The source's sum for `maxRepeats` repeats: each piece's count times
      its number of copies. */
  method Combine(maxRepeats: nat, p: Pieces) returns (total: nat)
    ensures total == Total(maxRepeats, p)
  {
    var allFullyCovered := 4 * Tri(maxRepeats) + 1;
    var numSame := 4 * (2 * Tri(maxRepeats / 2)) + 1;
    CopyCounts(maxRepeats);
    var numDiff := allFullyCovered - numSame;
    var numSmallEdges := maxRepeats + 1;
    var numBigEdges := numSmallEdges - 1;
    var numCorners := 1;
    total := Copies(numSame, p.same) + Copies(numDiff, p.diff)
      + numCorners * p.tips + Copies(numSmallEdges, p.small) + Copies(numBigEdges, p.big);
  }

  /** The source's copy counts for `r` repeats are the ring counts. */
  lemma CopyCounts(r: nat)
    ensures 4 * Tri(r) + 1 == Rings(r)
    ensures 4 * (2 * Tri(r / 2)) + 1 == SameRings(r)
    ensures 4 * Tri(r) + 1 - (4 * (2 * Tri(r / 2)) + 1) == DiffRings(r)
  {
    TriIsSum(r);
    TriIsSum(r / 2);
    RingsClosed(r);
    SameRingsClosed(r);
    RingsSplit(r);
  }
}
