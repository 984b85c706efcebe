/** Day 23: a long walk. The hiking map is reduced to a graph: its
    vertices are the entry in the top row, the exit in the bottom row and
    every junction (an open tile with at least three open neighbours); its
    edges are the corridors between them, found by walking each corridor
    from its vertex until the next junction, the top or bottom row, or a
    dead end. In part 1 a slope may only be walked downhill; part 2 treats
    slopes as plain ground. */
module Day23 {
  import opened Common

  datatype Tile = Wall | Ground | USlope | DSlope | LSlope | RSlope

  /** Rows of tiles, top row first. */
  type Grid = seq<seq<Tile>>

  /** A tile position: row `y`, column `x`. */
  datatype Vertex = Vertex(y: nat, x: nat)

  datatype Edge = Edge(start: Vertex, end: Vertex, length: nat)

  datatype Dir = U | D | L | R

  // ---------------------------------------------------------------------
  // Reading the map
  // ---------------------------------------------------------------------

  /** The character of one tile; any other character is an error. */
  function TileOf(c: char): Option<Tile>
  {
    match c
    case '#' => Some(Wall)
    case '.' => Some(Ground)
    case '^' => Some(USlope)
    case 'v' => Some(DSlope)
    case '<' => Some(LSlope)
    case '>' => Some(RSlope)
    case _ => None
  }

  /** The character a tile is drawn with. */
  function Glyph(t: Tile): char
  {
    match t
    case Wall => '#'
    case Ground => '.'
    case USlope => '^'
    case DSlope => 'v'
    case LSlope => '<'
    case RSlope => '>'
  }

  /** The two character tables are inverse to each other. */
  lemma GlyphRoundTrip(c: char, t: Tile)
    ensures TileOf(Glyph(t)) == Some(t)
    ensures TileOf(c) == Some(t) <==> Glyph(t) == c
  {
  }

  /** Decodes the lines of the map, failing on an unknown character. */
  function ParseGrid(lines: seq<seq<char>>): (g: Option<Grid>)
    ensures g.Some? <==> forall y, x :: 0 <= y < |lines| && 0 <= x < |lines[y]| ==> TileOf(lines[y][x]).Some?
    ensures g.Some? ==> |g.value| == |lines|
    ensures g.Some? ==> forall y :: 0 <= y < |lines| ==> |g.value[y]| == |lines[y]|
    ensures g.Some? ==> forall y, x :: 0 <= y < |lines| && 0 <= x < |lines[y]| ==> Some(g.value[y][x]) == TileOf(lines[y][x])
  {
    if lines == [] then Some([])
    else
      var n := |lines| - 1;
      match (ParseGrid(lines[..n]), ParseRow(lines[n]))
      case (Some(rows), Some(row)) => Some(rows + [row])
      case _ => None
  }

  function ParseRow(line: seq<char>): (r: Option<seq<Tile>>)
    ensures r.Some? <==> forall x :: 0 <= x < |line| ==> TileOf(line[x]).Some?
    ensures r.Some? ==> |r.value| == |line| && forall x :: 0 <= x < |line| ==> Some(r.value[x]) == TileOf(line[x])
  {
    if line == [] then Some([])
    else
      var n := |line| - 1;
      match (ParseRow(line[..n]), TileOf(line[n]))
      case (Some(row), Some(t)) => Some(row + [t])
      case _ => None
  }

  // ---------------------------------------------------------------------
  // Vertices
  // ---------------------------------------------------------------------

  /** Every row as long as the first, and at least one column: the
      junction scan reads `grid[0]` and counts columns from 1 to
      `n_cols - 1`. */
  predicate Rectangular(grid: Grid)
  {
    |grid| >= 1 && |grid[0]| >= 1 && forall y :: 0 <= y < |grid| ==> |grid[y]| == |grid[0]|
  }

  /** Neither on the border rows nor on the border columns. */
  predicate Interior(grid: Grid, p: Vertex)
    requires Rectangular(grid)
  {
    1 <= p.y < |grid| - 1 && 1 <= p.x < |grid[0]| - 1
  }

  function Count(open: bool): nat
  {
    if open then 1 else 0
  }

  /** The number of the four neighbours of an interior tile that are not
      walls. */
  function Around(grid: Grid, p: Vertex): (n: nat)
    requires Rectangular(grid) && Interior(grid, p)
    ensures n <= 4
  {
    Count(grid[p.y - 1][p.x] != Wall) + Count(grid[p.y + 1][p.x] != Wall) +
    Count(grid[p.y][p.x - 1] != Wall) + Count(grid[p.y][p.x + 1] != Wall)
  }

  /** A junction: an interior open tile with more than two open
      neighbours. */
  predicate IsJunction(grid: Grid, p: Vertex)
    requires Rectangular(grid)
  {
    Interior(grid, p) && grid[p.y][p.x] != Wall && Around(grid, p) > 2
  }

  /** Row-major order, the order of `cartesian_product`. */
  predicate Before(a: Vertex, b: Vertex)
  {
    a.y < b.y || (a.y == b.y && a.x < b.x)
  }

  predicate Increasing(s: seq<Vertex>)
  {
    forall i, j :: 0 <= i < j < |s| ==> Before(s[i], s[j])
  }

  /** The junctions of row `y` in columns 1 to `n - 1`. */
  function RowJunctions(grid: Grid, y: nat, n: nat): (r: seq<Vertex>)
    requires Rectangular(grid) && 1 <= y < |grid| - 1 && n < |grid[0]|
    ensures forall p :: p in r <==> p.y == y && 1 <= p.x < n && IsJunction(grid, p)
    ensures Increasing(r)
  {
    if n <= 1 then []
    else
      var p := Vertex(y, n - 1);
      RowJunctions(grid, y, n - 1) + (if IsJunction(grid, p) then [p] else [])
  }

  /** The junctions of rows 1 to `m - 1`, row by row. */
  function JunctionsUpTo(grid: Grid, m: nat): (r: seq<Vertex>)
    requires Rectangular(grid) && m < |grid|
    ensures forall p :: p in r <==> p.y < m && IsJunction(grid, p)
    ensures Increasing(r)
  {
    if m <= 1 then []
    else
      var before := JunctionsUpTo(grid, m - 1);
      var row := RowJunctions(grid, m - 1, |grid[0]| - 1);
      assert forall i, j :: 0 <= i < |before| && 0 <= j < |row| ==> before[i] in before && row[j] in row;
      before + row
  }

  /** The scan over rows 1 to `n_rows - 2` and columns 1 to `n_cols - 2`:
      every junction of the map, once each, in row-major order. */
  function Junctions(grid: Grid): (r: seq<Vertex>)
    requires Rectangular(grid)
    ensures forall p :: p in r <==> IsJunction(grid, p)
    ensures Increasing(r)
  {
    JunctionsUpTo(grid, |grid| - 1)
  }

  /** `(lo..n).find(|i| row[i] == Ground)`; `None` also where the search
      runs past the end of the row, which the source does not survive. */
  function FindGround(row: seq<Tile>, lo: nat, n: nat): (r: Option<nat>)
    ensures r.Some? ==> lo <= r.value < n && r.value < |row| && row[r.value] == Ground
    ensures r.Some? ==> forall j :: lo <= j < r.value ==> row[j] != Ground
    ensures r.None? <==> forall j :: lo <= j < n && j < |row| ==> row[j] != Ground
    decreases n - lo
  {
    if lo >= n || lo >= |row| then None
    else if row[lo] == Ground then Some(lo)
    else FindGround(row, lo + 1, n)
  }

  /** The entry and the exit: the first ground tile from column 1 on in the
      top and in the bottom row, searched among the first `n_rows`
      columns. */
  function Terminals(grid: Grid): (r: Option<(Vertex, Vertex)>)
    requires |grid| >= 1
    ensures var bottom := grid[|grid| - 1];
      r.None? <==>
        (forall j :: 1 <= j < |grid| && j < |grid[0]| ==> grid[0][j] != Ground) ||
        (forall j :: 1 <= j < |grid| && j < |bottom| ==> bottom[j] != Ground)
    ensures r.Some? ==>
      var (s, e) := r.value;
      s.y == 0 && 1 <= s.x < |grid| && s.x < |grid[0]| && grid[0][s.x] == Ground &&
      e.y == |grid| - 1 && 1 <= e.x < |grid| && e.x < |grid[e.y]| && grid[e.y][e.x] == Ground &&
      (forall j :: 1 <= j < s.x ==> grid[0][j] != Ground) &&
      (forall j :: 1 <= j < e.x ==> grid[e.y][j] != Ground)
  {
    match (FindGround(grid[0], 1, |grid|), FindGround(grid[|grid| - 1], 1, |grid|))
    case (Some(s), Some(e)) => Some((Vertex(0, s), Vertex(|grid| - 1, e)))
    case _ => None
  }

  /** On a map no wider than it is tall the search covers the whole row, so
      the entry is the first ground tile after column 0. */
  lemma SquareSearch(grid: Grid)
    requires Rectangular(grid) && |grid[0]| <= |grid|
    ensures FindGround(grid[0], 1, |grid|).Some? <==> exists x :: 1 <= x < |grid[0]| && grid[0][x] == Ground
  {
  }

  /** On a wider map the search stops short: a 3-by-5 map whose only top
      ground tile is in column 3 has no entry. */
  lemma WideMapMissesEntry()
    ensures var row := [Wall, Wall, Wall, Ground, Wall];
      FindGround(row, 1, 3).None? && row[3] == Ground
  {
  }

  /** The vertex list: the junctions, then the entry, then the exit. */
  function Vertices(grid: Grid, s: Vertex, e: Vertex): (r: seq<Vertex>)
    requires Rectangular(grid)
    ensures forall p :: p in r <==> IsJunction(grid, p) || p == s || p == e
  {
    Junctions(grid) + [s, e]
  }

  // ---------------------------------------------------------------------
  // Directions and probing
  // ---------------------------------------------------------------------

  /** The four directions, in the order the source tries them. */
  const Compass: seq<Dir> := [U, D, L, R]

  function Opposite(d: Dir): Dir
  {
    match d
    case U => D
    case D => U
    case L => R
    case R => L
  }

  /** One step from `p` in direction `d`; `None` where a coordinate would
      drop below zero, an unsigned underflow that panics. */
  function Neighbour(p: Vertex, d: Dir): Option<Vertex>
  {
    match d
    case U => if p.y == 0 then None else Some(Vertex(p.y - 1, p.x))
    case D => Some(Vertex(p.y + 1, p.x))
    case L => if p.x == 0 then None else Some(Vertex(p.y, p.x - 1))
    case R => Some(Vertex(p.y, p.x + 1))
  }

  /** Stepping back the opposite way returns to where the step began. */
  lemma NeighbourBack(p: Vertex, d: Dir)
    ensures Neighbour(p, d).Some? ==> Neighbour(Neighbour(p, d).value, Opposite(d)) == Some(p)
    ensures Opposite(Opposite(d)) == d && Opposite(d) != d
  {
  }

  /** The tile at `p`; `None` outside the map, an index panic. */
  function At(grid: Grid, p: Vertex): Option<Tile>
  {
    if p.y < |grid| && p.x < |grid[p.y]| then Some(grid[p.y][p.x]) else None
  }

  /** The position one step from `p` in direction `d` and its tile. */
  function Probe(grid: Grid, p: Vertex, d: Dir): Option<(Vertex, Tile)>
  {
    match Neighbour(p, d)
    case None => None
    case Some(q) =>
      match At(grid, q)
      case None => None
      case Some(t) => Some((q, t))
  }

  /** A slope pointing against a move in direction `d`. */
  predicate Against(d: Dir, t: Tile)
  {
    (d == U && t == DSlope) || (d == D && t == USlope) || (d == L && t == RSlope) || (d == R && t == LSlope)
  }

  /** The step in direction `d` leads onto a tile that is not a wall. */
  predicate NotWall(grid: Grid, p: Vertex, d: Dir)
  {
    Probe(grid, p, d).Some? && Probe(grid, p, d).value.1 != Wall
  }

  /** The step in direction `d` may be taken: no wall, and in part 1
      (`slopes`) no slope pointing back at the walker. */
  predicate Enterable(grid: Grid, slopes: bool, p: Vertex, d: Dir)
  {
    NotWall(grid, p, d) && !(slopes && Against(d, Probe(grid, p, d).value.1))
  }

  /** The look around one position of a corridor walk. */
  datatype Scan = Out | Seen(count: nat, open: seq<(Vertex, Dir)>)

  /** The look in the directions `dirs` except back the way the walker
      came (`last`): `count` is the number of tiles that are not walls
      (`non_wall_tiles`, slopes included), `open` the steps that may be
      taken (`open_squares`), in order; `Out` where a probe leaves the
      map. */
  function Survey(grid: Grid, slopes: bool, p: Vertex, last: Dir, dirs: seq<Dir>): Scan
  {
    if dirs == [] then Seen(0, [])
    else
      var n := |dirs| - 1;
      var d := dirs[n];
      var prev := Survey(grid, slopes, p, last, dirs[..n]);
      if prev.Out? || d == Opposite(last) then prev
      else
        match Probe(grid, p, d)
        case None => Out
        case Some((q, t)) =>
          if t == Wall then prev
          else if slopes && Against(d, t) then Seen(prev.count + 1, prev.open)
          else Seen(prev.count + 1, prev.open + [(q, d)])
  }

  /** The look panics exactly when a probe leaves the map; otherwise it
      counts at least as many tiles as it offers steps, and it offers
      exactly the steps other than back that may be taken. */
  lemma {:induction false} SurveyChar(grid: Grid, slopes: bool, p: Vertex, last: Dir, dirs: seq<Dir>)
    ensures Survey(grid, slopes, p, last, dirs).Out? <==> exists d :: d in dirs && d != Opposite(last) && Probe(grid, p, d).None?
    ensures Survey(grid, slopes, p, last, dirs).Seen? ==>
      |Survey(grid, slopes, p, last, dirs).open| <= Survey(grid, slopes, p, last, dirs).count
    ensures Survey(grid, slopes, p, last, dirs).Seen? ==> forall q, d :: (q, d) in Survey(grid, slopes, p, last, dirs).open <==>
      (d in dirs && d != Opposite(last) && Enterable(grid, slopes, p, d) && Probe(grid, p, d).value.0 == q)
  {
    if dirs != [] {
      var n := |dirs| - 1;
      SurveyChar(grid, slopes, p, last, dirs[..n]);
      assert forall d :: d in dirs <==> d in dirs[..n] || d == dirs[n] by {
        assert dirs == dirs[..n] + [dirs[n]];
      }
    }
  }

  /** The two parts look around the same way: the same tiles count, and
      part 1 only drops the steps that would climb a slope. */
  lemma {:induction false} SlopesOnlyClose(grid: Grid, p: Vertex, last: Dir, dirs: seq<Dir>)
    ensures Survey(grid, true, p, last, dirs).Out? == Survey(grid, false, p, last, dirs).Out?
    ensures Survey(grid, false, p, last, dirs).Seen? ==>
      Survey(grid, true, p, last, dirs).count == Survey(grid, false, p, last, dirs).count &&
      Survey(grid, true, p, last, dirs).open == Downhill(grid, Survey(grid, false, p, last, dirs).open)
    ensures Survey(grid, false, p, last, dirs).Seen? ==>
      Survey(grid, false, p, last, dirs).count == |Survey(grid, false, p, last, dirs).open|
  {
    if dirs != [] {
      var n := |dirs| - 1;
      SlopesOnlyClose(grid, p, last, dirs[..n]);
      var prev := Survey(grid, false, p, last, dirs[..n]);
      if prev.Seen? && dirs[n] != Opposite(last) && Probe(grid, p, dirs[n]).Some? {
        var q := Probe(grid, p, dirs[n]).value.0;
        assert Downhill(grid, prev.open + [(q, dirs[n])]) == Downhill(grid, prev.open) + Downhill(grid, [(q, dirs[n])]) by {
          DownhillAppend(grid, prev.open, [(q, dirs[n])]);
        }
      }
    }
  }

  /** The steps that do not climb a slope. */
  function Downhill(grid: Grid, open: seq<(Vertex, Dir)>): seq<(Vertex, Dir)>
  {
    if open == [] then []
    else
      var n := |open| - 1;
      var (q, d) := open[n];
      Downhill(grid, open[..n]) + (if At(grid, q).Some? && Against(d, At(grid, q).value) then [] else [open[n]])
  }

  lemma {:induction false} DownhillAppend(grid: Grid, a: seq<(Vertex, Dir)>, b: seq<(Vertex, Dir)>)
    ensures Downhill(grid, a + b) == Downhill(grid, a) + Downhill(grid, b)
    decreases |b|
  {
    if b == [] {
      assert a + b == a;
    } else {
      var n := |b| - 1;
      assert (a + b)[..|a + b| - 1] == a + b[..n];
      assert (a + b)[|a + b| - 1] == b[n];
      DownhillAppend(grid, a, b[..n]);
    }
  }

  // ---------------------------------------------------------------------
  // The corridor walk
  // ---------------------------------------------------------------------

  /** The state of the walk loop: the position (`y`, `x`), the direction of
      the last step (`last_dir`) and the iterations so far (`num_steps`). */
  datatype Walker = Walker(at: Vertex, last: Dir, steps: nat)

  /** How a walk ends: a panic, no edge, or an edge to `end` of `length`
      steps. */
  datatype Outcome = Crashed | DeadEnd | Reached(end: Vertex, length: nat)

  datatype Next = Done(outcome: Outcome) | Moved(walker: Walker)

  /** One iteration of the walk loop. It stops with no edge where no step
      may be taken; with an edge where more than one tile ahead is not a
      wall; and with an edge one step longer where the only step leads onto
      the top or bottom row. Otherwise it takes that step. */
  function Advance(grid: Grid, slopes: bool, w: Walker): (n: Next)
    ensures n.Moved? ==> n.walker.steps == w.steps + 1 && n.walker.last != Opposite(w.last)
    ensures n.Moved? ==> Enterable(grid, slopes, w.at, n.walker.last)
    ensures n.Moved? ==> Probe(grid, w.at, n.walker.last).value.0 == n.walker.at
    ensures n.Moved? ==> 0 < n.walker.at.y < |grid| - 1
    ensures n.Done? && n.outcome.Reached? ==> n.outcome.length >= 1
  {
    var scan := Survey(grid, slopes, w.at, w.last, Compass);
    SurveyChar(grid, slopes, w.at, w.last, Compass);
    if scan.Out? then Done(Crashed)
    else if scan.count == 0 || scan.open == [] then Done(DeadEnd)
    else if scan.count > 1 then Done(Reached(w.at, w.steps + 1))
    else
      var (q, d) := scan.open[0];
      assert (q, d) in scan.open;
      if q.y == 0 || q.y == |grid| - 1 then Done(Reached(q, w.steps + 2))
      else Moved(Walker(q, d, w.steps + 1))
  }

  /** The walk run for at most `fuel` iterations; `None` if it has not
      stopped by then. */
  function Run(grid: Grid, slopes: bool, w: Walker, fuel: nat): Option<Outcome>
    decreases fuel
  {
    if fuel == 0 then None
    else
      match Advance(grid, slopes, w)
      case Done(o) => Some(o)
      case Moved(w') => Run(grid, slopes, w', fuel - 1)
  }

  /** Once the walk has stopped, more iterations do not change how. */
  lemma {:induction false} RunAgree(grid: Grid, slopes: bool, w: Walker, k: nat, k': nat)
    requires Run(grid, slopes, w, k).Some? && Run(grid, slopes, w, k').Some?
    ensures Run(grid, slopes, w, k) == Run(grid, slopes, w, k')
    decreases k
  {
    if Advance(grid, slopes, w).Moved? {
      RunAgree(grid, slopes, Advance(grid, slopes, w).walker, k - 1, k' - 1);
    }
  }

  /** The walk stops: the source's `loop` would run forever otherwise. */
  ghost predicate Halts(grid: Grid, slopes: bool, w: Walker)
  {
    exists k: nat :: Run(grid, slopes, w, k).Some?
  }

  /** How the walk from `w` ends. */
  ghost function Walked(grid: Grid, slopes: bool, w: Walker): Outcome
    requires Halts(grid, slopes, w)
  {
    var k: nat :| Run(grid, slopes, w, k).Some?;
    Run(grid, slopes, w, k).value
  }

  lemma WalkedRun(grid: Grid, slopes: bool, w: Walker, k: nat)
    requires Run(grid, slopes, w, k).Some?
    ensures Halts(grid, slopes, w) && Walked(grid, slopes, w) == Run(grid, slopes, w, k).value
  {
    var j: nat :| Run(grid, slopes, w, j).Some? && Walked(grid, slopes, w) == Run(grid, slopes, w, j).value;
    RunAgree(grid, slopes, w, j, k);
  }

  /** The look around one position: the three directions other than back
      are probed in turn, counting the tiles that are not walls and
      collecting the steps that may be taken. */
  method Look(grid: Grid, slopes: bool, p: Vertex, last: Dir) returns (scan: Scan)
    ensures scan == Survey(grid, slopes, p, last, Compass)
  {
    var nonWallTiles := 0;
    var openSquares := [];
    for i := 0 to |Compass|
      invariant Survey(grid, slopes, p, last, Compass[..i]) == Seen(nonWallTiles, openSquares)
    {
      var d := Compass[i];
      assert Compass[..i + 1][..i] == Compass[..i];
      if d != Opposite(last) {
        var q := Neighbour(p, d);
        if q.None? || !(q.value.y < |grid| && q.value.x < |grid[q.value.y]|) {
          assert d in Compass;
          SurveyChar(grid, slopes, p, last, Compass);
          return Out;
        }
        var t := grid[q.value.y][q.value.x];
        if t == Wall {
        } else if slopes && Against(d, t) {
          nonWallTiles := nonWallTiles + 1;
        } else {
          nonWallTiles := nonWallTiles + 1;
          openSquares := openSquares + [(q.value, d)];
        }
      }
    }
    assert Compass[..|Compass|] == Compass;
    return Seen(nonWallTiles, openSquares);
  }

  /** The body of the walk loop: count the iteration, look around, and
      either stop or take the only open step. */
  method Step(grid: Grid, slopes: bool, w: Walker) returns (n: Next)
    ensures n == Advance(grid, slopes, w)
  {
    var numSteps := w.steps + 1;
    var scan := Look(grid, slopes, w.at, w.last);
    if scan.Out? {
      return Done(Crashed);
    }
    if scan.count == 0 || scan.open == [] {
      return Done(DeadEnd);
    } else if scan.count > 1 {
      return Done(Reached(w.at, numSteps));
    }
    var (at, lastDir) := scan.open[0];
    if at.y == 0 || at.y == |grid| - 1 {
      return Done(Reached(at, numSteps + 1));
    }
    return Moved(Walker(at, lastDir, numSteps));
  }

  /** The walk loop: it steps along the corridor until one of the three
      stopping conditions holds, or panics where a probe leaves the map. */
  method Walk(grid: Grid, slopes: bool, start: Walker) returns (o: Outcome)
    requires Halts(grid, slopes, start)
    ensures o == Walked(grid, slopes, start)
  {
    ghost var k: nat :| Run(grid, slopes, start, k).Some?;
    ghost var fuel := k;
    ghost var result := Run(grid, slopes, start, k).value;
    var w := start;
    while true
      invariant Run(grid, slopes, w, fuel) == Some(result)
      decreases fuel
    {
      var next := Step(grid, slopes, w);
      RunOnce(grid, slopes, w, fuel, next);
      if next.Done? {
        o := next.outcome;
        break;
      }
      w := next.walker;
      fuel := fuel - 1;
    }
    WalkedRun(grid, slopes, start, k);
  }

  lemma RunOnce(grid: Grid, slopes: bool, w: Walker, fuel: nat, next: Next)
    requires Run(grid, slopes, w, fuel).Some? && next == Advance(grid, slopes, w)
    ensures fuel >= 1
    ensures next.Done? ==> Run(grid, slopes, w, fuel) == Some(next.outcome)
    ensures next.Moved? ==> Run(grid, slopes, w, fuel) == Run(grid, slopes, next.walker, fuel - 1)
  {
  }

  // ---------------------------------------------------------------------
  // Walks from a vertex
  // ---------------------------------------------------------------------

  /** The first step of a walk from `v` in direction `d`. In part 1 a
      slope pointing back at the vertex ends the walk with no edge. */
  function Begin(grid: Grid, slopes: bool, v: Vertex, d: Dir): (n: Next)
    ensures n.Moved? ==> n.walker.last == d && n.walker.steps == 0
    ensures n.Moved? ==> Probe(grid, v, d).Some? && Probe(grid, v, d).value.0 == n.walker.at
    ensures n.Moved? ==> !(slopes && Against(d, Probe(grid, v, d).value.1))
    ensures !slopes ==> n != Done(DeadEnd)
    ensures n.Done? ==> !n.outcome.Reached?
  {
    match Probe(grid, v, d)
    case None => Done(Crashed)
    case Some((q, t)) => if slopes && Against(d, t) then Done(DeadEnd) else Moved(Walker(q, d, 0))
  }

  /** The walk from `v` in direction `d` stops. */
  ghost predicate Ends(grid: Grid, slopes: bool, v: Vertex, d: Dir)
  {
    Begin(grid, slopes, v, d).Moved? ==> Halts(grid, slopes, Begin(grid, slopes, v, d).walker)
  }

  /** How the walk from `v` in direction `d` ends. */
  ghost function Trip(grid: Grid, slopes: bool, v: Vertex, d: Dir): Outcome
    requires Ends(grid, slopes, v, d)
  {
    match Begin(grid, slopes, v, d)
    case Done(o) => o
    case Moved(w) => Walked(grid, slopes, w)
  }

  /** The body of the `filter_map` over the start directions: the first
      step, the slope check on its tile, then the walk loop. */
  method Hike(grid: Grid, slopes: bool, v: Vertex, d: Dir) returns (o: Outcome)
    requires Ends(grid, slopes, v, d)
    ensures o == Trip(grid, slopes, v, d)
  {
    var q := Neighbour(v, d);
    if q.None? || !(q.value.y < |grid| && q.value.x < |grid[q.value.y]|) {
      return Crashed;
    }
    var t := grid[q.value.y][q.value.x];
    if slopes && Against(d, t) {
      return DeadEnd;
    }
    o := Walk(grid, slopes, Walker(q.value, d, 0));
  }

  /** The directions of `dirs` leading onto a tile that is not a wall. */
  function OpenDirs(grid: Grid, v: Vertex, dirs: seq<Dir>): (r: seq<Dir>)
    ensures forall d :: d in r <==> d in dirs && NotWall(grid, v, d)
    ensures |r| <= |dirs|
  {
    if dirs == [] then []
    else
      var n := |dirs| - 1;
      OpenDirs(grid, v, dirs[..n]) + (if NotWall(grid, v, dirs[n]) then [dirs[n]] else [])
  }

  /** Where walks from `v` start: down from the entry, up from the exit,
      and from a junction every direction that is not a wall. */
  function StartDirs(grid: Grid, v: Vertex, s: Vertex, e: Vertex): (r: seq<Dir>)
    ensures v == s ==> r == [D]
    ensures v != s && v == e ==> r == [U]
    ensures v != s && v != e ==> forall d :: d in r <==> NotWall(grid, v, d)
  {
    if v == s then [D]
    else if v == e then [U]
    else
      CompassAll();
      OpenDirs(grid, v, Compass)
  }

  lemma CompassAll()
    ensures forall d: Dir :: d in Compass
  {
    forall d: Dir
      ensures d in Compass
    {
      match d
      case U => assert Compass[0] == d;
      case D => assert Compass[1] == d;
      case L => assert Compass[2] == d;
      case R => assert Compass[3] == d;
    }
  }

  ghost predicate EndsAll(grid: Grid, slopes: bool, v: Vertex, dirs: seq<Dir>)
  {
    forall d :: d in dirs ==> Ends(grid, slopes, v, d)
  }

  /** Some walk from `v` in one of the directions `dirs` panics. */
  ghost predicate Crashes(grid: Grid, slopes: bool, v: Vertex, dirs: seq<Dir>)
    requires EndsAll(grid, slopes, v, dirs)
  {
    exists d :: d in dirs && Trip(grid, slopes, v, d) == Crashed
  }

  /** `edge` is the end of the walk from `v` in one of the directions
      `dirs`. */
  ghost predicate Found(grid: Grid, slopes: bool, v: Vertex, dirs: seq<Dir>, edge: Edge)
    requires EndsAll(grid, slopes, v, dirs)
  {
    edge.start == v && exists d :: d in dirs && Trip(grid, slopes, v, d) == Reached(edge.end, edge.length)
  }

  /** The edges found from `v` in the directions `dirs`, in order; `None`
      if one of the walks panics. */
  ghost function EdgesFrom(grid: Grid, slopes: bool, v: Vertex, dirs: seq<Dir>): Option<seq<Edge>>
    requires EndsAll(grid, slopes, v, dirs)
  {
    if dirs == [] then Some([])
    else
      var n := |dirs| - 1;
      assert EndsAll(grid, slopes, v, dirs[..n]);
      Extend(EdgesFrom(grid, slopes, v, dirs[..n]), v, Trip(grid, slopes, v, dirs[n]))
  }

  /** One more walk from `v`: a panic loses the list, a dead end adds
      nothing, reaching a vertex adds that edge. */
  function Extend(acc: Option<seq<Edge>>, v: Vertex, o: Outcome): Option<seq<Edge>>
  {
    match (acc, o)
    case (None, _) => None
    case (_, Crashed) => None
    case (Some(es), DeadEnd) => Some(es)
    case (Some(es), Reached(q, len)) => Some(es + [Edge(v, q, len)])
  }

  /** The edges from `v` are missing exactly when one of the walks panics;
      otherwise each is the end of one of the walks. */
  lemma {:induction false} EdgesFromFound(grid: Grid, slopes: bool, v: Vertex, dirs: seq<Dir>)
    requires EndsAll(grid, slopes, v, dirs)
    ensures EdgesFrom(grid, slopes, v, dirs).None? <==> Crashes(grid, slopes, v, dirs)
    ensures EdgesFrom(grid, slopes, v, dirs).Some? ==>
      forall edge :: edge in EdgesFrom(grid, slopes, v, dirs).value ==> Found(grid, slopes, v, dirs, edge)
  {
    if dirs != [] {
      var n := |dirs| - 1;
      assert EndsAll(grid, slopes, v, dirs[..n]);
      EdgesFromFound(grid, slopes, v, dirs[..n]);
      assert forall d :: d in dirs <==> d in dirs[..n] || d == dirs[n] by {
        assert dirs == dirs[..n] + [dirs[n]];
      }
    }
  }

  /** Every vertex of `vs` is the entry, the exit or an interior tile, and
      every walk from it stops. */
  ghost predicate Walkable(grid: Grid, slopes: bool, vs: seq<Vertex>, s: Vertex, e: Vertex)
  {
    forall v :: v in vs ==> EndsAll(grid, slopes, v, StartDirs(grid, v, s, e))
  }

  /** The `flat_map` over the vertices: all edges, vertex by vertex. */
  ghost function AllEdges(grid: Grid, slopes: bool, vs: seq<Vertex>, s: Vertex, e: Vertex): Option<seq<Edge>>
    requires Walkable(grid, slopes, vs, s, e)
  {
    if vs == [] then Some([])
    else
      var n := |vs| - 1;
      assert vs[n] in vs;
      match (AllEdges(grid, slopes, vs[..n], s, e), EdgesFrom(grid, slopes, vs[n], StartDirs(grid, vs[n], s, e)))
      case (Some(a), Some(b)) => Some(a + b)
      case _ => None
  }

  /** Some walk from one of the vertices `vs` panics. */
  ghost predicate AnyCrash(grid: Grid, slopes: bool, vs: seq<Vertex>, s: Vertex, e: Vertex)
    requires Walkable(grid, slopes, vs, s, e)
  {
    exists v :: v in vs && Crashes(grid, slopes, v, StartDirs(grid, v, s, e))
  }

  /** Every edge of `es` is the end of a walk from one of the vertices `vs`. */
  ghost predicate AllFound(grid: Grid, slopes: bool, vs: seq<Vertex>, s: Vertex, e: Vertex, es: seq<Edge>)
    requires Walkable(grid, slopes, vs, s, e)
  {
    forall edge :: edge in es ==> edge.start in vs && Found(grid, slopes, edge.start, StartDirs(grid, edge.start, s, e), edge)
  }

  /** The edge list is missing exactly when some walk panics; otherwise
      every edge is the end of a walk from one of the vertices. */
  lemma {:induction false} AllEdgesFound(grid: Grid, slopes: bool, vs: seq<Vertex>, s: Vertex, e: Vertex)
    requires Walkable(grid, slopes, vs, s, e)
    ensures AllEdges(grid, slopes, vs, s, e).None? <==> AnyCrash(grid, slopes, vs, s, e)
    ensures AllEdges(grid, slopes, vs, s, e).Some? ==> AllFound(grid, slopes, vs, s, e, AllEdges(grid, slopes, vs, s, e).value)
  {
    if vs != [] {
      var n := |vs| - 1;
      var v := vs[n];
      assert vs == vs[..n] + [v];
      assert Walkable(grid, slopes, vs[..n], s, e);
      AllEdgesFound(grid, slopes, vs[..n], s, e);
      assert v in vs;
      EdgesFromFound(grid, slopes, v, StartDirs(grid, v, s, e));
      CrashJoin(grid, slopes, vs, s, e);
      var a := AllEdges(grid, slopes, vs[..n], s, e);
      var b := EdgesFrom(grid, slopes, v, StartDirs(grid, v, s, e));
      if a.Some? && b.Some? {
        FoundJoin(grid, slopes, vs, s, e, a.value, b.value);
      }
    }
  }

  /** A walk from `vs` panics when one from its prefix or its last vertex does. */
  lemma CrashJoin(grid: Grid, slopes: bool, vs: seq<Vertex>, s: Vertex, e: Vertex)
    requires vs != [] && Walkable(grid, slopes, vs, s, e)
    requires Walkable(grid, slopes, vs[..|vs| - 1], s, e)
    ensures AnyCrash(grid, slopes, vs, s, e) <==>
      AnyCrash(grid, slopes, vs[..|vs| - 1], s, e) || Crashes(grid, slopes, vs[|vs| - 1], StartDirs(grid, vs[|vs| - 1], s, e))
  {
    var n := |vs| - 1;
    assert vs == vs[..n] + [vs[n]];
    assert vs[n] in vs;
  }

  /** The edges of the prefix and those of the last vertex, joined, are
      all found from `vs`. */
  lemma FoundJoin(grid: Grid, slopes: bool, vs: seq<Vertex>, s: Vertex, e: Vertex, a: seq<Edge>, b: seq<Edge>)
    requires vs != [] && Walkable(grid, slopes, vs, s, e)
    requires Walkable(grid, slopes, vs[..|vs| - 1], s, e)
    requires AllFound(grid, slopes, vs[..|vs| - 1], s, e, a)
    requires forall edge :: edge in b ==> Found(grid, slopes, vs[|vs| - 1], StartDirs(grid, vs[|vs| - 1], s, e), edge)
    ensures AllFound(grid, slopes, vs, s, e, a + b)
  {
    var n := |vs| - 1;
    assert vs == vs[..n] + [vs[n]];
    forall edge | edge in a + b
      ensures edge.start in vs && Found(grid, slopes, edge.start, StartDirs(grid, edge.start, s, e), edge)
    {
      if edge in a {
        assert edge.start in vs[..n];
      } else {
        assert edge in b;
      }
    }
  }

  /** The edges found from one vertex. */
  method EdgesAt(grid: Grid, slopes: bool, v: Vertex, s: Vertex, e: Vertex) returns (r: Option<seq<Edge>>)
    requires EndsAll(grid, slopes, v, StartDirs(grid, v, s, e))
    ensures r == EdgesFrom(grid, slopes, v, StartDirs(grid, v, s, e))
  {
    var dirs := StartDirs(grid, v, s, e);
    var edges := [];
    for i := 0 to |dirs|
      invariant EdgesFrom(grid, slopes, v, dirs[..i]) == Some(edges)
    {
      assert dirs[i] in dirs;
      var o := Hike(grid, slopes, v, dirs[i]);
      EdgesFromNext(grid, slopes, v, dirs, i);
      match o
      case Crashed =>
        NoneStays(grid, slopes, v, dirs, i + 1);
        return None;
      case DeadEnd =>
      case Reached(q, len) =>
        edges := edges + [Edge(v, q, len)];
    }
    assert dirs[..|dirs|] == dirs;
    return Some(edges);
  }

  lemma EdgesFromNext(grid: Grid, slopes: bool, v: Vertex, dirs: seq<Dir>, i: nat)
    requires i < |dirs| && EndsAll(grid, slopes, v, dirs)
    ensures EndsAll(grid, slopes, v, dirs[..i]) && EndsAll(grid, slopes, v, dirs[..i + 1])
    ensures EdgesFrom(grid, slopes, v, dirs[..i + 1]) == Extend(EdgesFrom(grid, slopes, v, dirs[..i]), v, Trip(grid, slopes, v, dirs[i]))
  {
    assert dirs[..i + 1][..i] == dirs[..i];
  }

  lemma NoneStays(grid: Grid, slopes: bool, v: Vertex, dirs: seq<Dir>, i: nat)
    requires i <= |dirs| && EndsAll(grid, slopes, v, dirs)
    requires EndsAll(grid, slopes, v, dirs[..i]) && EdgesFrom(grid, slopes, v, dirs[..i]).None?
    ensures EdgesFrom(grid, slopes, v, dirs).None?
  {
    EdgesFromFound(grid, slopes, v, dirs[..i]);
    EdgesFromFound(grid, slopes, v, dirs);
    var d :| d in dirs[..i] && Trip(grid, slopes, v, d) == Crashed;
    assert d in dirs;
  }

  /** The edges found from every vertex, in order. */
  method CollectEdges(grid: Grid, slopes: bool, vs: seq<Vertex>, s: Vertex, e: Vertex) returns (r: Option<seq<Edge>>)
    requires Walkable(grid, slopes, vs, s, e)
    ensures r == AllEdges(grid, slopes, vs, s, e)
  {
    var edges := [];
    for i := 0 to |vs|
      invariant Walkable(grid, slopes, vs[..i], s, e)
      invariant AllEdges(grid, slopes, vs[..i], s, e) == Some(edges)
    {
      assert vs[..i + 1][..i] == vs[..i];
      assert vs[i] in vs;
      assert Walkable(grid, slopes, vs[..i + 1], s, e);
      var more := EdgesAt(grid, slopes, vs[i], s, e);
      if more.None? {
        AllEdgesFound(grid, slopes, vs[..i + 1], s, e);
        AllEdgesFound(grid, slopes, vs, s, e);
        PrefixCrash(grid, slopes, vs, s, e, i + 1);
        return None;
      }
      edges := edges + more.value;
    }
    assert vs[..|vs|] == vs;
    return Some(edges);
  }

  lemma PrefixCrash(grid: Grid, slopes: bool, vs: seq<Vertex>, s: Vertex, e: Vertex, i: nat)
    requires i <= |vs| && Walkable(grid, slopes, vs, s, e)
    requires exists v :: v in vs[..i] && Crashes(grid, slopes, v, StartDirs(grid, v, s, e))
    ensures exists v :: v in vs && Crashes(grid, slopes, v, StartDirs(grid, v, s, e))
  {
    var v :| v in vs[..i] && Crashes(grid, slopes, v, StartDirs(grid, v, s, e));
    assert v in vs;
  }

  // ---------------------------------------------------------------------
  // The graph
  // ---------------------------------------------------------------------

  /** The graph handed to the longest-path search. */
  datatype Network = Network(entry: Vertex, exit: Vertex, vertices: seq<Vertex>, edges: seq<Edge>)

  /** The map is rectangular, and every walk from a vertex stops. */
  ghost predicate Halting(grid: Grid, slopes: bool)
  {
    Rectangular(grid) &&
    (Terminals(grid).Some? ==>
      var (s, e) := Terminals(grid).value;
      Walkable(grid, slopes, Vertices(grid, s, e), s, e))
  }

  /** The graph of the map; `None` where the source panics: no entry or
      exit is found, or a walk leaves the map. */
  ghost function NetworkOf(grid: Grid, slopes: bool): Option<Network>
    requires Halting(grid, slopes)
  {
    match Terminals(grid)
    case None => None
    case Some((s, e)) =>
      var vs := Vertices(grid, s, e);
      match AllEdges(grid, slopes, vs, s, e)
      case None => None
      case Some(es) => Some(Network(s, e, vs, es))
  }

  /** The graph construction of part 1 (`slopes`) and part 2 (`!slopes`):
      entry and exit, the junction scan, and the corridor walks. */
  method Build(grid: Grid, slopes: bool) returns (r: Option<Network>)
    requires Halting(grid, slopes)
    ensures r == NetworkOf(grid, slopes)
  {
    var entry := FindGround(grid[0], 1, |grid|);
    var exit := FindGround(grid[|grid| - 1], 1, |grid|);
    if entry.None? || exit.None? {
      return None;
    }
    var s, e := Vertex(0, entry.value), Vertex(|grid| - 1, exit.value);
    var vs := Junctions(grid) + [s, e];
    var edges := CollectEdges(grid, slopes, vs, s, e);
    if edges.None? {
      return None;
    }
    return Some(Network(s, e, vs, edges.value));
  }

  // ---------------------------------------------------------------------
  // Every edge joins a vertex to a junction or to the top or bottom row
  // ---------------------------------------------------------------------

  /** The walker stands on a tile that is not a wall, and so does the tile
      it came from. */
  predicate Trail(grid: Grid, w: Walker)
  {
    At(grid, w.at).Some? && At(grid, w.at).value != Wall && NotWall(grid, w.at, Opposite(w.last))
  }

  /** Where an edge may end: a junction, or an open tile of the top or
      bottom row. */
  predicate Landing(grid: Grid, q: Vertex)
    requires Rectangular(grid)
  {
    IsJunction(grid, q) || ((q.y == 0 || q.y == |grid| - 1) && At(grid, q).Some? && At(grid, q).value != Wall)
  }

  /** The number of directions other than back whose tile is not a wall. */
  function Tally(grid: Grid, p: Vertex, last: Dir, dirs: seq<Dir>): nat
  {
    if dirs == [] then 0
    else
      var n := |dirs| - 1;
      Tally(grid, p, last, dirs[..n]) + Count(dirs[n] != Opposite(last) && NotWall(grid, p, dirs[n]))
  }

  lemma {:induction false} SurveyTally(grid: Grid, slopes: bool, p: Vertex, last: Dir, dirs: seq<Dir>)
    requires Survey(grid, slopes, p, last, dirs).Seen?
    ensures Survey(grid, slopes, p, last, dirs).count == Tally(grid, p, last, dirs)
  {
    if dirs != [] {
      SurveyTally(grid, slopes, p, last, dirs[..|dirs| - 1]);
    }
  }

  /** Counting the tile behind as well gives all four neighbours. */
  lemma CompassTally(grid: Grid, p: Vertex, last: Dir)
    ensures Tally(grid, p, last, Compass) + Count(NotWall(grid, p, Opposite(last))) ==
      Count(NotWall(grid, p, U)) + Count(NotWall(grid, p, D)) + Count(NotWall(grid, p, L)) + Count(NotWall(grid, p, R))
  {
    var b := Opposite(last);
    assert Compass[..3] == [U, D, L];
    assert [U, D, L][..2] == [U, D];
    assert [U, D][..1] == [U];
    assert [U][..0] == [];
    assert Tally(grid, p, last, [U]) == Count(U != b && NotWall(grid, p, U));
    assert Tally(grid, p, last, [U, D]) == Tally(grid, p, last, [U]) + Count(D != b && NotWall(grid, p, D));
    assert Tally(grid, p, last, [U, D, L]) == Tally(grid, p, last, [U, D]) + Count(L != b && NotWall(grid, p, L));
    assert Tally(grid, p, last, Compass) == Tally(grid, p, last, [U, D, L]) + Count(R != b && NotWall(grid, p, R));
  }

  /** One iteration keeps the trail, and an edge it ends with lands on a
      junction or on the top or bottom row. */
  lemma AdvanceTrail(grid: Grid, slopes: bool, w: Walker)
    requires Rectangular(grid) && Trail(grid, w)
    ensures Advance(grid, slopes, w).Moved? ==> Trail(grid, Advance(grid, slopes, w).walker)
    ensures Advance(grid, slopes, w).Done? && Advance(grid, slopes, w).outcome.Reached? ==>
      Landing(grid, Advance(grid, slopes, w).outcome.end)
  {
    var scan := Survey(grid, slopes, w.at, w.last, Compass);
    var n := Advance(grid, slopes, w);
    if n.Moved? {
      NeighbourBack(w.at, n.walker.last);
      ProbeAt(grid, n.walker.at, Opposite(n.walker.last));
    } else if scan.Seen? && scan.count > 1 {
      JunctionStop(grid, slopes, w);
    } else if scan.Seen? && scan.open != [] {
      var (q, d) := scan.open[0];
      SurveyChar(grid, slopes, w.at, w.last, Compass);
      assert (q, d) in scan.open;
      ProbeAt(grid, w.at, d);
    }
  }

  lemma ProbeAt(grid: Grid, p: Vertex, d: Dir)
    ensures Probe(grid, p, d).Some? ==> At(grid, Probe(grid, p, d).value.0) == Some(Probe(grid, p, d).value.1)
  {
  }

  /** A walker with more than one open tile ahead stands on a junction:
      every probe stayed inside the map, so the tile is interior, and with
      the open tile behind it has at least three open neighbours. */
  lemma JunctionStop(grid: Grid, slopes: bool, w: Walker)
    requires Rectangular(grid) && Trail(grid, w)
    requires Survey(grid, slopes, w.at, w.last, Compass).Seen? && Survey(grid, slopes, w.at, w.last, Compass).count > 1
    ensures IsJunction(grid, w.at)
  {
    SurveyChar(grid, slopes, w.at, w.last, Compass);
    CompassAll();
    forall d | d != Opposite(w.last)
      ensures Probe(grid, w.at, d).Some?
    {
      assert d in Compass;
    }
    assert Probe(grid, w.at, U).Some? && Probe(grid, w.at, D).Some?;
    assert Probe(grid, w.at, L).Some? && Probe(grid, w.at, R).Some?;
    assert Interior(grid, w.at);
    SurveyTally(grid, slopes, w.at, w.last, Compass);
    CompassTally(grid, w.at, w.last);
  }

  lemma {:induction false} RunLanding(grid: Grid, slopes: bool, w: Walker, k: nat)
    requires Rectangular(grid) && Trail(grid, w)
    requires Run(grid, slopes, w, k).Some? && Run(grid, slopes, w, k).value.Reached?
    ensures Landing(grid, Run(grid, slopes, w, k).value.end) && Run(grid, slopes, w, k).value.length >= 1
    decreases k
  {
    AdvanceTrail(grid, slopes, w);
    if Advance(grid, slopes, w).Moved? {
      RunLanding(grid, slopes, Advance(grid, slopes, w).walker, k - 1);
    }
  }

  /** A walk that starts from an open tile onto an open tile, and ends
      with an edge, ends on a junction or on the top or bottom row. */
  lemma TripLanding(grid: Grid, slopes: bool, v: Vertex, d: Dir)
    requires Rectangular(grid) && Ends(grid, slopes, v, d)
    requires At(grid, v).Some? && At(grid, v).value != Wall && NotWall(grid, v, d)
    ensures Trip(grid, slopes, v, d).Reached? ==>
      Landing(grid, Trip(grid, slopes, v, d).end) && Trip(grid, slopes, v, d).length >= 1
  {
    if Begin(grid, slopes, v, d).Moved? {
      var w := Begin(grid, slopes, v, d).walker;
      NeighbourBack(v, d);
      assert Trail(grid, w);
      var k: nat :| Run(grid, slopes, w, k).Some?;
      WalkedRun(grid, slopes, w, k);
      if Run(grid, slopes, w, k).value.Reached? {
        RunLanding(grid, slopes, w, k);
      }
    }
  }

  /** Every edge of the graph starts at one of its vertices, has at least
      one step, and ends on a junction (itself a vertex) or on an open tile
      of the top or bottom row, provided the entry and the exit lead onto
      open tiles. */
  lemma EdgesJoinVertices(grid: Grid, slopes: bool)
    requires Halting(grid, slopes) && NetworkOf(grid, slopes).Some? && |grid| >= 3
    requires grid[1][NetworkOf(grid, slopes).value.entry.x] != Wall
    requires grid[|grid| - 2][NetworkOf(grid, slopes).value.exit.x] != Wall
    ensures forall edge :: edge in NetworkOf(grid, slopes).value.edges ==>
      edge.start in NetworkOf(grid, slopes).value.vertices && edge.length >= 1 && Landing(grid, edge.end)
  {
    var net := NetworkOf(grid, slopes).value;
    var s, e := net.entry, net.exit;
    AllEdgesFound(grid, slopes, net.vertices, s, e);
    forall edge | edge in net.edges
      ensures edge.length >= 1 && Landing(grid, edge.end)
    {
      var v := edge.start;
      var d :| d in StartDirs(grid, v, s, e) && Trip(grid, slopes, v, d) == Reached(edge.end, edge.length);
      StartsOpen(grid, s, e, v, d);
      assert EndsAll(grid, slopes, v, StartDirs(grid, v, s, e));
      TripLanding(grid, slopes, v, d);
    }
  }

  /** Every walk of the graph construction starts on an open tile and
      steps onto an open tile, provided the entry and the exit lead onto
      open tiles. */
  lemma StartsOpen(grid: Grid, s: Vertex, e: Vertex, v: Vertex, d: Dir)
    requires Rectangular(grid) && |grid| >= 3 && Terminals(grid) == Some((s, e))
    requires grid[1][s.x] != Wall && grid[|grid| - 2][e.x] != Wall
    requires v in Vertices(grid, s, e) && d in StartDirs(grid, v, s, e)
    ensures At(grid, v).Some? && At(grid, v).value != Wall && NotWall(grid, v, d)
  {
  }
}
