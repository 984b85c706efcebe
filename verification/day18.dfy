/** Day 18: the lava lagoon. A dig plan of (direction, length) steps traces
    the closed edge of a lagoon; its size counts the trench and the cells it
    encloses. Part 1 digs the plan into a grid of cells and flood-fills the
    outside from the top-left corner; part 2 decodes much longer steps from
    the plan's colour codes and counts with the shoelace formula and Pick's
    theorem. */
module Day18 {
  import opened Common

  datatype Dir = Up | Down | Left | Right

  /** One step of the dig plan: a direction and a number of cells. */
  type Instr = (Dir, nat)

  /** A position, `x` growing to the right and `y` downwards. */
  datatype Point = Point(x: int, y: int)

  // ---------------------------------------------------------------------
  // Reading the plan
  // ---------------------------------------------------------------------

  function Letter(d: Dir): string
  {
    match d
    case Up => "U"
    case Down => "D"
    case Left => "L"
    case Right => "R"
  }

  /** Part 1's direction column; any other text panics. */
  function DirOfLetter(s: string): (r: Option<Dir>)
    ensures r.Some? <==> s in {"U", "D", "L", "R"}
    ensures r.Some? ==> Letter(r.value) == s
  {
    if s == "U" then Some(Up)
    else if s == "D" then Some(Down)
    else if s == "L" then Some(Left)
    else if s == "R" then Some(Right)
    else None
  }

  lemma LetterRoundTrip(d: Dir)
    ensures DirOfLetter(Letter(d)) == Some(d)
  {
  }

  predicate IsHexDigit(c: char)
  {
    '0' <= c <= '9' || 'a' <= c <= 'f' || 'A' <= c <= 'F'
  }

  function DigitValue(c: char): (v: nat)
    requires IsHexDigit(c)
    ensures v < 16
  {
    if c <= '9' then c as int - '0' as int
    else if c >= 'a' then c as int - 'a' as int + 10
    else c as int - 'A' as int + 10
  }

  predicate AllHex(s: string)
  {
    forall i :: 0 <= i < |s| ==> IsHexDigit(s[i])
  }

  /** The value of a string of hexadecimal digits, most significant first. */
  function HexValue(s: string): nat
    requires AllHex(s)
  {
    if s == [] then 0 else HexValue(s[..|s| - 1]) * 16 + DigitValue(s[|s| - 1])
  }

  function Pow16(k: nat): (p: nat)
    ensures p >= 1
  {
    if k == 0 then 1 else 16 * Pow16(k - 1)
  }

  lemma {:induction false} HexValueBound(s: string)
    requires AllHex(s)
    ensures HexValue(s) < Pow16(|s|)
  {
    if s != [] {
      HexValueBound(s[..|s| - 1]);
    }
  }

  /** `usize::from_str_radix(s, 16)`: an optional `+` and then at least one
      hexadecimal digit of either case; anything else is an error. */
  function FromHex(s: string): (r: Option<nat>)
    ensures r.Some? ==> r.value < Pow16(|s|)
  {
    var digits := if |s| > 0 && s[0] == '+' then s[1..] else s;
    if digits != [] && AllHex(digits) then
      HexValueBound(digits);
      assert Pow16(|digits|) <= Pow16(|s|) by { Pow16Mono(|digits|, |s|); }
      Some(HexValue(digits))
    else None
  }

  lemma {:induction false} Pow16Mono(a: nat, b: nat)
    requires a <= b
    ensures Pow16(a) <= Pow16(b)
  {
    if a < b {
      Pow16Mono(a, b - 1);
    }
  }

  function HexChar(v: nat): (c: char)
    requires v < 16
    ensures IsHexDigit(c) && DigitValue(c) == v
  {
    if v < 10 then ('0' as int + v) as char else ('a' as int + v - 10) as char
  }

  /** `v` written with exactly `k` lower-case hexadecimal digits. */
  function HexString(v: nat, k: nat): (s: string)
    ensures |s| == k && AllHex(s)
  {
    if k == 0 then [] else HexString(v / 16, k - 1) + [HexChar(v % 16)]
  }

  lemma {:induction false} HexRoundTrip(v: nat, k: nat)
    requires v < Pow16(k)
    ensures HexValue(HexString(v, k)) == v
  {
    if k > 0 {
      var s := HexString(v, k);
      assert s[..|s| - 1] == HexString(v / 16, k - 1);
      HexRoundTrip(v / 16, k - 1);
    }
  }

  /** The last digit of a colour code: 0, 1, 2, 3 mean right, down, left, up. */
  function DirOfDigit(c: char): (r: Option<Dir>)
    ensures r.Some? <==> c in "0123"
  {
    if c == '3' then Some(Up)
    else if c == '1' then Some(Down)
    else if c == '2' then Some(Left)
    else if c == '0' then Some(Right)
    else None
  }

  function DigitOfDir(d: Dir): char
  {
    match d
    case Up => '3'
    case Down => '1'
    case Left => '2'
    case Right => '0'
  }

  /** Part 2's reading of a colour code `(#rrrrrd)`: the characters 2 to 6
      are the length in hexadecimal and character 7 the direction; a short
      code, a bad direction digit or a bad length panics. */
  function DecodeHex(code: string): (r: Option<Instr>)
    ensures r.Some? ==> |code| >= 8 && DigitOfDir(r.value.0) == code[7]
    ensures r.Some? ==> r.value.1 < Pow16(5)
  {
    if |code| < 8 then None
    else
      match DirOfDigit(code[7])
      case None => None
      case Some(d) =>
        match FromHex(code[2..7])
        case None => None
        case Some(m) => Some((d, m))
  }

  function EncodeHex(i: Instr): string
    requires i.1 < Pow16(5)
  {
    "(#" + HexString(i.1, 5) + [DigitOfDir(i.0)] + ")"
  }

  /** Every step with a length below 16^5 has a colour code that reads back
      as that step. */
  lemma DecodeEncode(i: Instr)
    requires i.1 < Pow16(5)
    ensures DecodeHex(EncodeHex(i)) == Some(i)
  {
    var code := EncodeHex(i);
    var h := HexString(i.1, 5);
    assert code[2..7] == h;
    assert code[7] == DigitOfDir(i.0);
    HexRoundTrip(i.1, 5);
    assert h[0] != '+';
  }

  /** The plan's colour codes, read in order; one bad code panics. */
  function DecodeAll(codes: seq<string>): Option<seq<Instr>>
  {
    if forall k :: 0 <= k < |codes| ==> DecodeHex(codes[k]).Some? then
      Some(seq(|codes|, k requires 0 <= k < |codes| => DecodeHex(codes[k]).value))
    else None
  }

  // ---------------------------------------------------------------------
  // Where the digging starts
  // ---------------------------------------------------------------------

  /** The `filter_map`: the vertical (or horizontal) steps, each as its
      length plus one, negative when going up (or left). */
  function Deltas(plan: seq<Instr>, vertical: bool): seq<int>
  {
    if plan == [] then [] else Deltas(plan[..|plan| - 1], vertical) + Delta(plan[|plan| - 1], vertical)
  }

  function Delta(i: Instr, vertical: bool): seq<int>
  {
    if vertical then
      (match i.0 case Down => [i.1 + 1] case Up => [-(i.1 + 1)] case _ => [])
    else
      (match i.0 case Right => [i.1 + 1] case Left => [-(i.1 + 1)] case _ => [])
  }

  /** The `scan`: the running totals of `ds`. */
  function RunningSums(ds: seq<int>): (r: seq<int>)
    ensures |r| == |ds|
  {
    if ds == [] then [] else RunningSums(ds[..|ds| - 1]) + [Sum(ds)]
  }

  lemma {:induction false} RunningSumsAre(ds: seq<int>)
    ensures forall i :: 0 <= i < |ds| ==> RunningSums(ds)[i] == Sum(ds[..i + 1])
  {
    if ds != [] {
      RunningSumsAre(ds[..|ds| - 1]);
      forall i | 0 <= i < |ds| - 1
        ensures RunningSums(ds)[i] == Sum(ds[..i + 1])
      {
        assert ds[..|ds| - 1][..i + 1] == ds[..i + 1];
      }
      assert ds[..|ds|] == ds;
    }
  }

  /** `iter().min()`: `None` for no elements. */
  function MinOf(s: seq<int>): (r: Option<int>)
    ensures r.Some? <==> s != []
    ensures r.Some? ==> r.value in s && forall k :: 0 <= k < |s| ==> r.value <= s[k]
  {
    if s == [] then None
    else
      match MinOf(s[..|s| - 1])
      case None => Some(s[|s| - 1])
      case Some(m) => Some(if s[|s| - 1] < m then s[|s| - 1] else m)
  }

  /** `iter().max()`: `None` for no elements. */
  function MaxOf(s: seq<int>): (r: Option<int>)
    ensures r.Some? <==> s != []
    ensures r.Some? ==> r.value in s && forall k :: 0 <= k < |s| ==> s[k] <= r.value
  {
    if s == [] then None
    else
      match MaxOf(s[..|s| - 1])
      case None => Some(s[|s| - 1])
      case Some(m) => Some(if s[|s| - 1] > m then s[|s| - 1] else m)
  }

  function Ranges(plan: seq<Instr>): (seq<int>, seq<int>)
  {
    (RunningSums(Deltas(plan, true)), RunningSums(Deltas(plan, false)))
  }

  // ---------------------------------------------------------------------
  // Part 1: digging the trench into a grid
  // ---------------------------------------------------------------------

  /** Part 1's plan, one line's direction letter and length each; a bad
      letter panics. */
  function DecodeLetters(lines: seq<(string, nat)>): Option<seq<Instr>>
  {
    if forall k :: 0 <= k < |lines| ==> DirOfLetter(lines[k].0).Some? then
      Some(seq(|lines|, k requires 0 <= k < |lines| => (DirOfLetter(lines[k].0).value, lines[k].1)))
    else None
  }

  /** The grid's height and width and the first cell. */
  datatype Layout = Layout(rows: nat, cols: nat, start: Point)

  /** Part 1's grid: one more row (column) than the spread of the running
      totals, the start as far down (right) as the least total is below
      zero. Unwrapping the least or greatest total panics when the plan
      never moves on that axis. */
  function Layout1(plan: seq<Instr>): (r: Option<Layout>)
    ensures r.Some? <==> Ranges(plan).0 != [] && Ranges(plan).1 != []
    ensures r.Some? ==> r.value.rows >= 1 && r.value.cols >= 1
  {
    var (ud, lr) := Ranges(plan);
    match (MinOf(ud), MaxOf(ud), MinOf(lr), MaxOf(lr))
    case (Some(minY), Some(maxY), Some(minX), Some(maxX)) =>
      assert minY in ud && minX in lr;
      Some(Layout(1 + maxY - minY, 1 + maxX - minX, Point(-minX, -minY)))
    case _ => None
  }

  predicate InBox(rows: nat, cols: nat, p: Point)
  {
    0 <= p.y < rows && 0 <= p.x < cols
  }

  /** Where the plan's steps, taken in order, end. */
  function EndOf(start: Point, plan: seq<Instr>): Point
  {
    if plan == [] then start else Move(EndOf(start, plan[..|plan| - 1]), plan[|plan| - 1])
  }

  /** The cells a step of `m` cells from `p` enters. */
  ghost function Line(p: Point, d: Dir, m: nat): set<Point>
  {
    set k: nat | 1 <= k <= m :: Move(p, (d, k))
  }

  /** The trench: the first cell and every cell a step enters. */
  ghost function Dug(start: Point, plan: seq<Instr>): set<Point>
  {
    if plan == [] then {start}
    else
      var init := plan[..|plan| - 1];
      Dug(start, init) + Line(EndOf(start, init), plan[|plan| - 1].0, plan[|plan| - 1].1)
  }

  lemma LineStep(p: Point, d: Dir, j: nat)
    ensures Line(p, d, j + 1) == Line(p, d, j) + {Move(p, (d, j + 1))}
  {
    assert Move(p, (d, j + 1)) in Line(p, d, j + 1);
  }

  /** The trench of a shorter plan lies in the trench of a longer one, and
      a plan's trench holds its start, every cell each step enters and
      the end of each step. */
  lemma {:induction false} DugGrows(start: Point, plan: seq<Instr>, k: nat)
    requires k <= |plan|
    ensures Dug(start, plan[..k]) <= Dug(start, plan)
    ensures start in Dug(start, plan) && EndOf(start, plan) in Dug(start, plan)
  {
    if plan == [] {
    } else {
      var init := plan[..|plan| - 1];
      var (d, m) := plan[|plan| - 1];
      if k < |plan| {
        assert init[..k] == plan[..k];
        DugGrows(start, init, k);
      } else {
        assert plan[..k] == plan;
      }
      DugGrows(start, init, |init|);
      if m > 0 {
        assert EndOf(start, plan) in Line(EndOf(start, init), d, m);
      } else {
        assert EndOf(start, plan) == EndOf(start, init);
      }
    }
  }

  predicate Shaped<T>(g: seq<seq<T>>, rows: nat, cols: nat)
  {
    |g| == rows && forall r :: 0 <= r < rows ==> |g[r]| == cols
  }

  /** The grid marks exactly the cells of `cells` that it holds. */
  ghost predicate Marks(g: seq<seq<bool>>, rows: nat, cols: nat, cells: set<Point>)
    requires Shaped(g, rows, cols)
  {
    forall r, c :: 0 <= r < rows && 0 <= c < cols ==> (g[r][c] <==> Point(c, r) in cells)
  }

  /** `grid[y][x] = true`. */
  function Marked(g: seq<seq<bool>>, rows: nat, cols: nat, p: Point): (g': seq<seq<bool>>)
    requires Shaped(g, rows, cols) && InBox(rows, cols, p)
    ensures Shaped(g', rows, cols)
    ensures forall r, c :: 0 <= r < rows && 0 <= c < cols ==> g'[r][c] == (g[r][c] || Point(c, r) == p)
  {
    g[p.y := g[p.y][p.x := true]]
  }

  /** One step of the plan, one cell at a time: move, then mark the cell
      entered; leaving the grid panics. */
  method DigLine(rows: nat, cols: nat, g: seq<seq<bool>>, p0: Point, d: Dir, m: nat, ghost dug: set<Point>)
    returns (g': Option<seq<seq<bool>>>)
    requires Shaped(g, rows, cols) && Marks(g, rows, cols, dug)
    ensures g'.Some? <==> forall p :: p in Line(p0, d, m) ==> InBox(rows, cols, p)
    ensures g'.Some? ==> Shaped(g'.value, rows, cols) && Marks(g'.value, rows, cols, dug + Line(p0, d, m))
  {
    var grid := g;
    var pos := p0;
    for j := 0 to m
      invariant pos == Move(p0, (d, j))
      invariant Shaped(grid, rows, cols) && Marks(grid, rows, cols, dug + Line(p0, d, j))
      invariant forall p :: p in Line(p0, d, j) ==> InBox(rows, cols, p)
    {
      pos := Move(pos, (d, 1));
      assert pos == Move(p0, (d, j + 1)) && pos in Line(p0, d, m);
      if !InBox(rows, cols, pos) {
        return None;
      }
      LineStep(p0, d, j);
      grid := Marked(grid, rows, cols, pos);
    }
    return Some(grid);
  }

  /** The digging loop: mark the first cell, then dig every step. `None`
      where the source panics on a cell off the grid. */
  method Dig(rows: nat, cols: nat, start: Point, plan: seq<Instr>) returns (g: Option<seq<seq<bool>>>)
    ensures g.Some? <==> forall p :: p in Dug(start, plan) ==> InBox(rows, cols, p)
    ensures g.Some? ==> Shaped(g.value, rows, cols) && Marks(g.value, rows, cols, Dug(start, plan))
  {
    DugGrows(start, plan, 0);
    if !InBox(rows, cols, start) {
      return None;
    }
    var grid := seq(rows, _ => seq(cols, _ => false));
    grid := Marked(grid, rows, cols, start);
    var pos := start;
    for k := 0 to |plan|
      invariant pos == EndOf(start, plan[..k])
      invariant Shaped(grid, rows, cols) && Marks(grid, rows, cols, Dug(start, plan[..k]))
      invariant forall p :: p in Dug(start, plan[..k]) ==> InBox(rows, cols, p)
    {
      var (d, m) := plan[k];
      assert plan[..k + 1][..k] == plan[..k];
      var next := DigLine(rows, cols, grid, pos, d, m, Dug(start, plan[..k]));
      DugGrows(start, plan, k + 1);
      if next.None? {
        return None;
      }
      grid := next.value;
      pos := Move(pos, plan[k]);
    }
    assert plan[..|plan|] == plan;
    return Some(grid);
  }

  // ---------------------------------------------------------------------
  // Part 1: flood-filling the outside
  // ---------------------------------------------------------------------

  /** A cell as (row, column). */
  type Cell = (nat, nat)

  predicate InGrid(rows: nat, cols: nat, c: Cell)
  {
    c.0 < rows && c.1 < cols
  }

  predicate Adjacent(a: Cell, b: Cell)
  {
    (a.0 == b.0 && (a.1 + 1 == b.1 || b.1 + 1 == a.1)) ||
    (a.1 == b.1 && (a.0 + 1 == b.0 || b.0 + 1 == a.0))
  }

  /** A walk from the top-left cell through neighbouring cells, each after
      the first outside the trench. */
  ghost predicate IsRoute(grid: seq<seq<bool>>, rows: nat, cols: nat, p: seq<Cell>)
    requires Shaped(grid, rows, cols)
  {
    if |p| <= 1 then p == [(0, 0)]
    else
      var c := p[|p| - 1];
      IsRoute(grid, rows, cols, p[..|p| - 1]) && Adjacent(p[|p| - 2], c) &&
      InGrid(rows, cols, c) && !grid[c.0][c.1]
  }

  /** The cells the flood fill is meant to reach. */
  ghost predicate Outside(grid: seq<seq<bool>>, rows: nat, cols: nat, c: Cell)
    requires Shaped(grid, rows, cols)
  {
    exists p :: IsRoute(grid, rows, cols, p) && p[|p| - 1] == c
  }

  lemma OutsideCorner(grid: seq<seq<bool>>, rows: nat, cols: nat)
    requires Shaped(grid, rows, cols)
    ensures Outside(grid, rows, cols, (0, 0))
  {
    assert IsRoute(grid, rows, cols, [(0, 0)]);
  }

  lemma OutsideStep(grid: seq<seq<bool>>, rows: nat, cols: nat, a: Cell, b: Cell)
    requires Shaped(grid, rows, cols) && Outside(grid, rows, cols, a)
    requires Adjacent(a, b) && InGrid(rows, cols, b) && !grid[b.0][b.1]
    ensures Outside(grid, rows, cols, b)
  {
    var p :| IsRoute(grid, rows, cols, p) && p[|p| - 1] == a;
    var q := p + [b];
    assert q[..|q| - 1] == p;
    assert IsRoute(grid, rows, cols, q);
  }

  ghost predicate Seen(visited: seq<seq<bool>>, rows: nat, cols: nat, c: Cell)
    requires Shaped(visited, rows, cols)
  {
    InGrid(rows, cols, c) && visited[c.0][c.1]
  }

  /** Every open neighbour of a visited cell is visited or waiting. */
  ghost predicate Closed(grid: seq<seq<bool>>, visited: seq<seq<bool>>, rows: nat, cols: nat, fringe: seq<Cell>)
    requires Shaped(grid, rows, cols) && Shaped(visited, rows, cols)
  {
    forall a: Cell, b: Cell {:trigger Adjacent(a, b)} :: Seen(visited, rows, cols, a) && Adjacent(a, b) && InGrid(rows, cols, b) && !grid[b.0][b.1] ==>
      visited[b.0][b.1] || b in fringe
  }

  /** Only outside cells are visited or waiting, and the corner is one of
      them. */
  ghost predicate FillSound(grid: seq<seq<bool>>, visited: seq<seq<bool>>, rows: nat, cols: nat, fringe: seq<Cell>)
    requires Shaped(grid, rows, cols) && Shaped(visited, rows, cols)
  {
    (forall c :: c in fringe ==> InGrid(rows, cols, c) && Outside(grid, rows, cols, c)) &&
    (forall r, c :: 0 <= r < rows && 0 <= c < cols && visited[r][c] ==> Outside(grid, rows, cols, (r, c))) &&
    (rows >= 1 && cols >= 1 && (visited[0][0] || (0, 0) in fringe))
  }

  ghost function Unvisited(visited: seq<seq<bool>>, rows: nat, cols: nat): set<Cell>
    requires Shaped(visited, rows, cols)
  {
    set r: nat, c: nat | r < rows && c < cols && !visited[r][c] :: (r, c)
  }

  /** The waiting entries whose cell is already visited. */
  ghost function Stale(visited: seq<seq<bool>>, rows: nat, cols: nat, fringe: seq<Cell>): nat
    requires Shaped(visited, rows, cols)
    requires forall c :: c in fringe ==> InGrid(rows, cols, c)
  {
    if fringe == [] then 0
    else
      var c := fringe[|fringe| - 1];
      assert c in fringe && InGrid(rows, cols, c);
      Stale(visited, rows, cols, fringe[..|fringe| - 1]) + if visited[c.0][c.1] then 1 else 0
  }

  /** Push the neighbour `c` unless it is visited or in the trench. */
  method Offer(grid: seq<seq<bool>>, visited: seq<seq<bool>>, rows: nat, cols: nat, fringe: seq<Cell>, c: Cell)
    returns (fringe': seq<Cell>)
    requires Shaped(grid, rows, cols) && Shaped(visited, rows, cols) && InGrid(rows, cols, c)
    ensures fringe' == if !visited[c.0][c.1] && !grid[c.0][c.1] then fringe + [c] else fringe
  {
    fringe' := fringe;
    if !visited[c.0][c.1] && !grid[c.0][c.1] {
      fringe' := fringe' + [c];
    }
  }

  /** The flood fill from the top-left cell, a stack of cells to visit:
      pop a cell, mark it visited and push each of its four neighbours on
      the grid that is neither visited nor trench. The visited cells are
      exactly those reachable from the corner without crossing the
      trench. */
  method FloodFill(grid: seq<seq<bool>>, rows: nat, cols: nat) returns (visited: seq<seq<bool>>)
    requires rows >= 1 && cols >= 1 && Shaped(grid, rows, cols)
    ensures Shaped(visited, rows, cols)
    ensures forall r, c :: 0 <= r < rows && 0 <= c < cols ==> (visited[r][c] <==> Outside(grid, rows, cols, (r, c)))
  {
    visited := seq(rows, _ => seq(cols, _ => false));
    var fringe: seq<Cell> := [(0, 0)];
    OutsideCorner(grid, rows, cols);
    while fringe != []
      invariant Shaped(visited, rows, cols)
      invariant FillSound(grid, visited, rows, cols, fringe)
      invariant Closed(grid, visited, rows, cols, fringe)
      decreases |Unvisited(visited, rows, cols)|, Stale(visited, rows, cols, fringe)
    {
      ghost var before, waiting := visited, fringe;
      var u := fringe[|fringe| - 1];
      assert u in fringe;
      fringe := fringe[..|fringe| - 1];
      visited := visited[u.0 := visited[u.0][u.1 := true]];
      ghost var popped := fringe;
      fringe := PushNeighbours(grid, visited, rows, cols, fringe, u);
      FillStep(grid, before, visited, rows, cols, waiting, fringe, u);
    }
    forall r, c | 0 <= r < rows && 0 <= c < cols && Outside(grid, rows, cols, (r, c))
      ensures visited[r][c]
    {
      var p :| IsRoute(grid, rows, cols, p) && p[|p| - 1] == (r, c);
      RouteSeen(grid, visited, rows, cols, p);
    }
  }

  /** `f` is `f0` followed by open, unvisited neighbours of `u`. */
  ghost predicate Extends(grid: seq<seq<bool>>, visited: seq<seq<bool>>, rows: nat, cols: nat, u: Cell,
                          f0: seq<Cell>, f: seq<Cell>)
    requires Shaped(grid, rows, cols) && Shaped(visited, rows, cols)
  {
    |f0| <= |f| && f[..|f0|] == f0 &&
    forall c :: c in f[|f0|..] ==> Adjacent(u, c) && InGrid(rows, cols, c) && !grid[c.0][c.1] && !visited[c.0][c.1]
  }

  /** `c` is on the grid, and waiting in `f` unless visited or trench. */
  ghost predicate Offered(grid: seq<seq<bool>>, visited: seq<seq<bool>>, rows: nat, cols: nat, f: seq<Cell>, c: Cell)
    requires Shaped(grid, rows, cols) && Shaped(visited, rows, cols)
  {
    InGrid(rows, cols, c) && (!grid[c.0][c.1] && !visited[c.0][c.1] ==> c in f)
  }

  /** The four guarded pushes of the source, in its order: left, right,
      up, down. */
  method PushNeighbours(grid: seq<seq<bool>>, visited: seq<seq<bool>>, rows: nat, cols: nat, fringe: seq<Cell>, u: Cell)
    returns (fringe': seq<Cell>)
    requires Shaped(grid, rows, cols) && Shaped(visited, rows, cols) && InGrid(rows, cols, u)
    ensures Extends(grid, visited, rows, cols, u, fringe, fringe')
    ensures forall c: Cell :: Adjacent(u, c) && InGrid(rows, cols, c) && !grid[c.0][c.1] && !visited[c.0][c.1] ==> c in fringe'
  {
    var (sy, sx) := u;
    fringe' := fringe;
    assert fringe'[..|fringe|] == fringe;
    if sx > 0 {
      OfferExtends(grid, visited, rows, cols, u, fringe, fringe', (sy, sx - 1));
      fringe' := Offer(grid, visited, rows, cols, fringe', (sy, sx - 1));
    }
    ghost var left := fringe';
    if sx < cols - 1 {
      OfferExtends(grid, visited, rows, cols, u, fringe, fringe', (sy, sx + 1));
      fringe' := Offer(grid, visited, rows, cols, fringe', (sy, sx + 1));
    }
    ghost var right := fringe';
    if sy > 0 {
      OfferExtends(grid, visited, rows, cols, u, fringe, fringe', (sy - 1, sx));
      fringe' := Offer(grid, visited, rows, cols, fringe', (sy - 1, sx));
    }
    ghost var up := fringe';
    if sy < rows - 1 {
      OfferExtends(grid, visited, rows, cols, u, fringe, fringe', (sy + 1, sx));
      fringe' := Offer(grid, visited, rows, cols, fringe', (sy + 1, sx));
    }
    Covered(grid, visited, rows, cols, u, left, right, up, fringe');
  }

  lemma OfferExtends(grid: seq<seq<bool>>, visited: seq<seq<bool>>, rows: nat, cols: nat, u: Cell,
                     f0: seq<Cell>, f: seq<Cell>, c: Cell)
    requires Shaped(grid, rows, cols) && Shaped(visited, rows, cols)
    requires Extends(grid, visited, rows, cols, u, f0, f) && Adjacent(u, c) && InGrid(rows, cols, c)
    ensures Extends(grid, visited, rows, cols, u, f0, if !visited[c.0][c.1] && !grid[c.0][c.1] then f + [c] else f)
  {
    if !visited[c.0][c.1] && !grid[c.0][c.1] {
      var g := f + [c];
      assert g[..|f0|] == f[..|f0|];
      assert g[|f0|..] == f[|f0|..] + [c];
    }
  }

  /** Each of the four neighbours on the grid was offered, and nothing
      offered was dropped afterwards. */
  lemma Covered(grid: seq<seq<bool>>, visited: seq<seq<bool>>, rows: nat, cols: nat, u: Cell,
                left: seq<Cell>, right: seq<Cell>, up: seq<Cell>, f: seq<Cell>)
    requires Shaped(grid, rows, cols) && Shaped(visited, rows, cols) && InGrid(rows, cols, u)
    requires u.1 > 0 ==> Offered(grid, visited, rows, cols, left, (u.0, u.1 - 1))
    requires u.1 + 1 < cols ==> Offered(grid, visited, rows, cols, right, (u.0, u.1 + 1))
    requires u.0 > 0 ==> Offered(grid, visited, rows, cols, up, (u.0 - 1, u.1))
    requires u.0 + 1 < rows ==> Offered(grid, visited, rows, cols, f, (u.0 + 1, u.1))
    requires forall d :: d in left ==> d in right
    requires forall d :: d in right ==> d in up
    requires forall d :: d in up ==> d in f
    ensures forall c: Cell :: Adjacent(u, c) && InGrid(rows, cols, c) && !grid[c.0][c.1] && !visited[c.0][c.1] ==> c in f
  {
  }

  /** What one round of the flood fill does: `u`, the top of `waiting`,
      is marked visited and its open unvisited neighbours pushed. */
  ghost predicate Round(grid: seq<seq<bool>>, before: seq<seq<bool>>, visited: seq<seq<bool>>, rows: nat, cols: nat,
                        waiting: seq<Cell>, fringe: seq<Cell>, u: Cell)
    requires Shaped(grid, rows, cols) && Shaped(before, rows, cols) && Shaped(visited, rows, cols)
  {
    waiting != [] && u == waiting[|waiting| - 1] && InGrid(rows, cols, u) &&
    visited == before[u.0 := before[u.0][u.1 := true]] &&
    Extends(grid, visited, rows, cols, u, waiting[..|waiting| - 1], fringe) &&
    (forall c: Cell :: Adjacent(u, c) && InGrid(rows, cols, c) && !grid[c.0][c.1] && !visited[c.0][c.1] ==> c in fringe)
  }

  /** One round keeps the flood fill sound and closed, and makes progress:
      one more cell is visited, or one stale entry is gone. */
  lemma FillStep(grid: seq<seq<bool>>, before: seq<seq<bool>>, visited: seq<seq<bool>>, rows: nat, cols: nat,
                 waiting: seq<Cell>, fringe: seq<Cell>, u: Cell)
    requires Shaped(grid, rows, cols) && Shaped(before, rows, cols) && Shaped(visited, rows, cols)
    requires FillSound(grid, before, rows, cols, waiting) && Closed(grid, before, rows, cols, waiting)
    requires Round(grid, before, visited, rows, cols, waiting, fringe, u)
    ensures FillSound(grid, visited, rows, cols, fringe) && Closed(grid, visited, rows, cols, fringe)
    ensures |Unvisited(visited, rows, cols)| < |Unvisited(before, rows, cols)| ||
      (Unvisited(visited, rows, cols) == Unvisited(before, rows, cols) &&
       Stale(visited, rows, cols, fringe) < Stale(before, rows, cols, waiting))
  {
    FillStepSound(grid, before, visited, rows, cols, waiting, fringe, u);
    FillStepClosed(grid, before, visited, rows, cols, waiting, fringe, u);
    FillStepProgress(grid, before, visited, rows, cols, waiting, fringe, u);
  }

  lemma FillStepSound(grid: seq<seq<bool>>, before: seq<seq<bool>>, visited: seq<seq<bool>>, rows: nat, cols: nat,
                      waiting: seq<Cell>, fringe: seq<Cell>, u: Cell)
    requires Shaped(grid, rows, cols) && Shaped(before, rows, cols) && Shaped(visited, rows, cols)
    requires FillSound(grid, before, rows, cols, waiting)
    requires Round(grid, before, visited, rows, cols, waiting, fringe, u)
    ensures FillSound(grid, visited, rows, cols, fringe)
  {
    var n := |waiting| - 1;
    assert u in waiting;
    forall c | c in fringe
      ensures InGrid(rows, cols, c) && Outside(grid, rows, cols, c)
    {
      var i :| 0 <= i < |fringe| && fringe[i] == c;
      if i < n {
        assert c == waiting[..n][i];
      } else {
        assert c == fringe[n..][i - n];
        OutsideStep(grid, rows, cols, u, c);
      }
    }
    if (0, 0) in waiting && !visited[0][0] {
      var i :| 0 <= i < |waiting| && waiting[i] == (0, 0);
      assert i < n;
      assert fringe[i] == waiting[..n][i];
    }
  }

  lemma FillStepClosed(grid: seq<seq<bool>>, before: seq<seq<bool>>, visited: seq<seq<bool>>, rows: nat, cols: nat,
                       waiting: seq<Cell>, fringe: seq<Cell>, u: Cell)
    requires Shaped(grid, rows, cols) && Shaped(before, rows, cols) && Shaped(visited, rows, cols)
    requires Closed(grid, before, rows, cols, waiting)
    requires Round(grid, before, visited, rows, cols, waiting, fringe, u)
    ensures Closed(grid, visited, rows, cols, fringe)
  {
    var n := |waiting| - 1;
    forall a: Cell, b: Cell | Seen(visited, rows, cols, a) && Adjacent(a, b) && InGrid(rows, cols, b) && !grid[b.0][b.1]
      ensures visited[b.0][b.1] || b in fringe
    {
      if a != u && !visited[b.0][b.1] {
        assert Seen(before, rows, cols, a);
        assert b in waiting;
        var i :| 0 <= i < |waiting| && waiting[i] == b;
        assert i < n;
        assert fringe[i] == waiting[..n][i];
      }
    }
  }

  lemma FillStepProgress(grid: seq<seq<bool>>, before: seq<seq<bool>>, visited: seq<seq<bool>>, rows: nat, cols: nat,
                         waiting: seq<Cell>, fringe: seq<Cell>, u: Cell)
    requires Shaped(grid, rows, cols) && Shaped(before, rows, cols) && Shaped(visited, rows, cols)
    requires forall c :: c in waiting ==> InGrid(rows, cols, c)
    requires Round(grid, before, visited, rows, cols, waiting, fringe, u)
    ensures forall c :: c in fringe ==> InGrid(rows, cols, c)
    ensures |Unvisited(visited, rows, cols)| < |Unvisited(before, rows, cols)| ||
      (Unvisited(visited, rows, cols) == Unvisited(before, rows, cols) &&
       Stale(visited, rows, cols, fringe) < Stale(before, rows, cols, waiting))
  {
    var n := |waiting| - 1;
    var popped := waiting[..n];
    assert fringe == popped + fringe[n..];
    forall c | c in fringe
      ensures InGrid(rows, cols, c)
    {
      if c !in fringe[n..] {
        assert c in popped;
      }
    }
    if before[u.0][u.1] {
      assert before[u.0][u.1 := true] == before[u.0];
      assert visited == before;
      assert waiting == popped + [u];
      assert Stale(before, rows, cols, waiting) == Stale(before, rows, cols, popped) + 1;
      StaleFresh(visited, rows, cols, popped, fringe[n..]);
    } else {
      assert u in Unvisited(before, rows, cols);
      assert Unvisited(visited, rows, cols) == Unvisited(before, rows, cols) - {u};
    }
  }

  /** Pushing unvisited cells adds no stale entries. */
  lemma {:induction false} StaleFresh(visited: seq<seq<bool>>, rows: nat, cols: nat, a: seq<Cell>, b: seq<Cell>)
    requires Shaped(visited, rows, cols)
    requires forall c :: c in a ==> InGrid(rows, cols, c)
    requires forall c :: c in b ==> InGrid(rows, cols, c) && !visited[c.0][c.1]
    ensures Stale(visited, rows, cols, a + b) == Stale(visited, rows, cols, a)
  {
    if b != [] {
      var ab := a + b;
      assert ab[..|ab| - 1] == a + b[..|b| - 1];
      assert b[|b| - 1] in b;
      StaleFresh(visited, rows, cols, a, b[..|b| - 1]);
    } else {
      assert a + b == a;
    }
  }

  /** Once nothing waits, every cell on a route has been visited. */
  lemma {:induction false} RouteSeen(grid: seq<seq<bool>>, visited: seq<seq<bool>>, rows: nat, cols: nat, p: seq<Cell>)
    requires Shaped(grid, rows, cols) && Shaped(visited, rows, cols)
    requires FillSound(grid, visited, rows, cols, []) && Closed(grid, visited, rows, cols, [])
    requires IsRoute(grid, rows, cols, p)
    ensures Seen(visited, rows, cols, p[|p| - 1])
  {
    if |p| > 1 {
      var q := p[..|p| - 1];
      RouteSeen(grid, visited, rows, cols, q);
      assert q[|q| - 1] == p[|p| - 2];
      assert Adjacent(p[|p| - 2], p[|p| - 1]);
    }
  }

  // ---------------------------------------------------------------------
  // Part 1: counting
  // ---------------------------------------------------------------------

  /** `filter(|x| **x).count()` on one row. */
  function CountTrue(row: seq<bool>): (n: nat)
    ensures n <= |row|
  {
    if row == [] then 0 else CountTrue(row[..|row| - 1]) + if row[|row| - 1] then 1 else 0
  }

  /** The row counts, summed. */
  function CountAll(g: seq<seq<bool>>): nat
  {
    if g == [] then 0 else CountAll(g[..|g| - 1]) + CountTrue(g[|g| - 1])
  }

  function Flipped(row: seq<bool>): (r: seq<bool>)
    ensures |r| == |row| && forall c :: 0 <= c < |row| ==> r[c] == !row[c]
  {
    seq(|row|, c requires 0 <= c < |row| => !row[c])
  }

  /** A row's cells are counted either in it or in its opposite. */
  lemma {:induction false} CountFlipped(row: seq<bool>)
    ensures CountTrue(row) + CountTrue(Flipped(row)) == |row|
  {
    if row != [] {
      var init := row[..|row| - 1];
      CountFlipped(init);
      assert Flipped(row)[..|row| - 1] == Flipped(init);
    }
  }

  /** Every cell of a grid is counted either in it or in its opposite. */
  lemma {:induction false} CountAllFlipped(g: seq<seq<bool>>, h: seq<seq<bool>>, rows: nat, cols: nat)
    requires Shaped(g, rows, cols) && Shaped(h, rows, cols)
    requires forall r, c :: 0 <= r < rows && 0 <= c < cols ==> h[r][c] == !g[r][c]
    ensures CountAll(g) + CountAll(h) == rows * cols
  {
    if rows > 0 {
      var n := rows - 1;
      CountAllFlipped(g[..n], h[..n], n, cols);
      assert h[n] == Flipped(g[n]);
      CountFlipped(g[n]);
      MulSucc(n, cols);
    }
  }

  /** The cells of the box left unreached by the flood fill: the trench and
      what it encloses. */
  ghost function Enclosed(grid: seq<seq<bool>>, rows: nat, cols: nat): (e: seq<seq<bool>>)
    requires Shaped(grid, rows, cols)
    ensures Shaped(e, rows, cols)
  {
    seq(rows, r requires 0 <= r < rows => seq(cols, c requires 0 <= c < cols => !Outside(grid, rows, cols, (r, c))))
  }

  /** Every trench cell except the top-left one is counted: a route
      only ever steps onto open cells. */
  lemma TrenchEnclosed(grid: seq<seq<bool>>, rows: nat, cols: nat, c: Cell)
    requires Shaped(grid, rows, cols) && InGrid(rows, cols, c) && grid[c.0][c.1] && c != (0, 0)
    ensures Enclosed(grid, rows, cols)[c.0][c.1]
  {
    forall p | IsRoute(grid, rows, cols, p)
      ensures p[|p| - 1] != c
    {
    }
  }

  /** The trench dug into a fresh grid. */
  ghost function DugGrid(l: Layout, plan: seq<Instr>): (g: seq<seq<bool>>)
    ensures Shaped(g, l.rows, l.cols)
  {
    seq(l.rows, r requires 0 <= r < l.rows => seq(l.cols, c requires 0 <= c < l.cols => Point(c, r) in Dug(l.start, plan)))
  }

  lemma MarksDugGrid(g: seq<seq<bool>>, l: Layout, plan: seq<Instr>)
    requires Shaped(g, l.rows, l.cols) && Marks(g, l.rows, l.cols, Dug(l.start, plan))
    ensures g == DugGrid(l, plan)
  {
    var d := DugGrid(l, plan);
    forall r | 0 <= r < l.rows
      ensures g[r] == d[r]
    {
    }
  }

  /** The grid cells minus the flood-filled outside. */
  method CountEnclosed(grid: seq<seq<bool>>, rows: nat, cols: nat) returns (n: nat)
    requires rows >= 1 && cols >= 1 && Shaped(grid, rows, cols)
    ensures n == CountAll(Enclosed(grid, rows, cols))
  {
    var visited := FloodFill(grid, rows, cols);
    var unfilled := CountAll(visited);
    CountAllFlipped(visited, Enclosed(grid, rows, cols), rows, cols);
    n := rows * cols - unfilled;
  }

  /** Part 1: read the plan, lay out the grid, dig and count. `None` where
      the source panics: a bad letter, no vertical or no horizontal step,
      or a trench cell off the grid. */
  method Part1(lines: seq<(string, nat)>) returns (r: Option<nat>)
    ensures r.Some? <==>
      DecodeLetters(lines).Some? && Layout1(DecodeLetters(lines).value).Some? &&
      var l := Layout1(DecodeLetters(lines).value).value;
      forall p :: p in Dug(l.start, DecodeLetters(lines).value) ==> InBox(l.rows, l.cols, p)
    ensures r.Some? ==>
      var plan := DecodeLetters(lines).value;
      var l := Layout1(plan).value;
      r.value == CountAll(Enclosed(DugGrid(l, plan), l.rows, l.cols))
  {
    var plan := DecodeLetters(lines);
    if plan.None? {
      return None;
    }
    var layout := Layout1(plan.value);
    if layout.None? {
      return None;
    }
    var l := layout.value;
    var grid := Dig(l.rows, l.cols, l.start, plan.value);
    if grid.None? {
      return None;
    }
    MarksDugGrid(grid.value, l, plan.value);
    var n := CountEnclosed(grid.value, l.rows, l.cols);
    r := Some(n);
  }

  // ---------------------------------------------------------------------
  // Part 2: vertices, shoelace and Pick's theorem
  // ---------------------------------------------------------------------

  /** Where a step of `i` from `p` ends. */
  function Move(p: Point, i: Instr): Point
  {
    match i.0
    case Up => Point(p.x, p.y - i.1)
    case Down => Point(p.x, p.y + i.1)
    case Left => Point(p.x - i.1, p.y)
    case Right => Point(p.x + i.1, p.y)
  }

  /** Part 2's first corner: two cells beyond the least running total on
      each axis (unwrapping the least total panics when the plan never
      moves on that axis). */
  function Start2(plan: seq<Instr>): (r: Option<Point>)
    ensures r.Some? <==> Ranges(plan).0 != [] && Ranges(plan).1 != []
  {
    var (ud, lr) := Ranges(plan);
    match (MinOf(ud), MinOf(lr))
    case (Some(minY), Some(minX)) => Some(Point(-(minX - 1) + 1, -(minY - 1) + 1))
    case _ => None
  }

  /** The `scan` from `pos`, `begun` recording whether the start has been
      left once: each step emits where it ends, until a step would leave
      the start a second time. */
  function Trace(start: Point, pos: Point, begun: bool, plan: seq<Instr>): seq<Point>
    decreases |plan|
  {
    if plan == [] then []
    else if pos == start && begun then []
    else [Move(pos, plan[0])] + Trace(start, Move(pos, plan[0]), begun || pos == start, plan[1..])
  }

  /** The corners of the lagoon's edge: the start, then the end of every
      step until the edge is back at the start. */
  function Vertices(start: Point, plan: seq<Instr>): seq<Point>
  {
    [start] + Trace(start, start, false, plan)
  }

  /** The scan with its `visited_start` flag, as a loop. */
  method ScanVertices(start: Point, plan: seq<Instr>) returns (vs: seq<Point>)
    ensures vs == Vertices(start, plan)
  {
    vs := [start];
    var pos := start;
    var visitedStart := false;
    var k := 0;
    while k < |plan|
      invariant k <= |plan|
      invariant vs + Trace(start, pos, visitedStart, plan[k..]) == Vertices(start, plan)
      invariant k == 0 ==> pos == start
      invariant k > 0 ==> visitedStart
    {
      if pos == start {
        if visitedStart {
          assert Trace(start, pos, visitedStart, plan[k..]) == [];
          assert vs + [] == vs;
          return;
        }
        visitedStart := true;
      }
      assert plan[k..][1..] == plan[k + 1..];
      pos := Move(pos, plan[k]);
      vs := vs + [pos];
      k := k + 1;
    }
    assert vs + [] == vs;
  }

  /** The trace from `pos` walks the plan, never passes the start once
      begun, and stops early only on reaching it. */
  lemma {:induction false} TraceFollowsPlan(start: Point, pos: Point, begun: bool, plan: seq<Instr>)
    requires begun || pos == start
    ensures var t := Trace(start, pos, begun, plan);
      |t| <= |plan| &&
      (t != [] ==> t[0] == Move(pos, plan[0])) &&
      (forall i :: 0 <= i < |t| - 1 ==> t[i + 1] == Move(t[i], plan[i + 1])) &&
      (forall i :: 0 <= i < |t| - 1 ==> t[i] != start) &&
      (|t| < |plan| ==> (t == [] && pos == start && begun) || (t != [] && t[|t| - 1] == start))
    decreases |plan|
  {
    if plan != [] && !(pos == start && begun) {
      var next := Move(pos, plan[0]);
      var rest := Trace(start, next, begun || pos == start, plan[1..]);
      TraceFollowsPlan(start, next, begun || pos == start, plan[1..]);
      var t := Trace(start, pos, begun, plan);
      assert t == [next] + rest;
      forall i | 0 <= i < |t| - 1
        ensures t[i + 1] == Move(t[i], plan[i + 1])
      {
        if i > 0 {
          assert t[i] == rest[i - 1] && t[i + 1] == rest[i];
          assert plan[1..][i] == plan[i + 1];
        }
      }
      forall i | 0 <= i < |t| - 1
        ensures t[i] != start
      {
        if i == 0 {
          assert |rest| >= 1;
        } else {
          assert t[i] == rest[i - 1];
        }
      }
    }
  }

  /** The vertices begin at the start, each is the previous one moved by
      the next step, none but the last returns to the start, and the scan
      stops before the plan's end only once back at the start. */
  lemma VerticesFollowPlan(start: Point, plan: seq<Instr>)
    ensures var vs := Vertices(start, plan);
      1 <= |vs| <= |plan| + 1 && vs[0] == start &&
      (forall i :: 0 <= i < |vs| - 1 ==> vs[i + 1] == Move(vs[i], plan[i])) &&
      (forall i :: 0 < i < |vs| - 1 ==> vs[i] != start) &&
      (|vs| < |plan| + 1 ==> |vs| >= 2 && vs[|vs| - 1] == start)
  {
    var vs := Vertices(start, plan);
    var t := Trace(start, start, false, plan);
    TraceFollowsPlan(start, start, false, plan);
    assert vs == [start] + t;
    forall i | 0 <= i < |vs| - 1
      ensures vs[i + 1] == Move(vs[i], plan[i])
    {
      if i > 0 {
        assert vs[i] == t[i - 1] && vs[i + 1] == t[i];
      }
    }
    forall i | 0 < i < |vs| - 1
      ensures vs[i] != start
    {
      assert vs[i] == t[i - 1];
    }
  }

  /** One window's shoelace term. The source names the coordinates of each
      corner the other way round; the term is (y2 - y1) * (x2 + x1). */
  function Cross(a: Point, b: Point): int
  {
    (b.y - a.y) * (b.x + a.x)
  }

  /** Twice the signed area enclosed by the corners, summed over
      consecutive pairs. */
  function Shoelace(vs: seq<Point>): int
  {
    if |vs| < 2 then 0 else Shoelace(vs[..|vs| - 1]) + Cross(vs[|vs| - 2], vs[|vs| - 1])
  }

  function Abs(a: int): nat
  {
    if a < 0 then -a else a
  }

  /** The length of the edge: the steps between consecutive corners. */
  function Boundary(vs: seq<Point>): (b: nat)
  {
    if |vs| < 2 then 0
    else Boundary(vs[..|vs| - 1]) + Abs(vs[|vs| - 1].x - vs[|vs| - 2].x) + Abs(vs[|vs| - 1].y - vs[|vs| - 2].y)
  }

  function MagSum(plan: seq<Instr>): nat
  {
    if plan == [] then 0 else MagSum(plan[..|plan| - 1]) + plan[|plan| - 1].1
  }

  /** Corners joined by the plan's steps are as far apart, in total, as
      those steps are long. */
  lemma {:induction false} BoundaryIsLength(vs: seq<Point>, plan: seq<Instr>)
    requires 1 <= |vs| <= |plan| + 1
    requires forall i :: 0 <= i < |vs| - 1 ==> vs[i + 1] == Move(vs[i], plan[i])
    ensures Boundary(vs) == MagSum(plan[..|vs| - 1])
  {
    if |vs| >= 2 {
      var n := |vs| - 1;
      BoundaryIsLength(vs[..n], plan);
      assert plan[..n][..n - 1] == plan[..n - 1];
      assert vs[n] == Move(vs[n - 1], plan[n - 1]);
    }
  }

  /** The edge the scan traces is as long as the steps it uses. */
  lemma VerticesBoundary(start: Point, plan: seq<Instr>)
    ensures |Vertices(start, plan)| <= |plan| + 1
    ensures Boundary(Vertices(start, plan)) == MagSum(plan[..|Vertices(start, plan)| - 1])
  {
    VerticesFollowPlan(start, plan);
    BoundaryIsLength(Vertices(start, plan), plan);
  }

  function Reversed(vs: seq<Point>): (r: seq<Point>)
    ensures |r| == |vs|
  {
    if vs == [] then [] else [vs[|vs| - 1]] + Reversed(vs[..|vs| - 1])
  }

  lemma ReversedFirst(vs: seq<Point>)
    requires vs != []
    ensures Reversed(vs)[0] == vs[|vs| - 1]
  {
  }

  lemma {:induction false} ShoelaceCons(a: Point, vs: seq<Point>)
    ensures Shoelace([a] + vs) == (if vs == [] then 0 else Cross(a, vs[0])) + Shoelace(vs)
  {
    if |vs| >= 2 {
      var w := [a] + vs;
      assert w[..|w| - 1] == [a] + vs[..|vs| - 1];
      ShoelaceCons(a, vs[..|vs| - 1]);
    } else if |vs| == 1 {
      assert ([a] + vs)[..1] == [a];
    }
  }

  lemma {:induction false} BoundaryCons(a: Point, vs: seq<Point>)
    ensures Boundary([a] + vs) ==
      (if vs == [] then 0 else Abs(vs[0].x - a.x) + Abs(vs[0].y - a.y)) + Boundary(vs)
  {
    if |vs| >= 2 {
      var w := [a] + vs;
      assert w[..|w| - 1] == [a] + vs[..|vs| - 1];
      BoundaryCons(a, vs[..|vs| - 1]);
    } else if |vs| == 1 {
      assert ([a] + vs)[..1] == [a];
    }
  }

  /** Walking the corners backwards negates the signed area and keeps the
      edge's length. */
  lemma {:induction false} ReversedOrientation(vs: seq<Point>)
    ensures Shoelace(Reversed(vs)) == -Shoelace(vs)
    ensures Boundary(Reversed(vs)) == Boundary(vs)
  {
    if |vs| >= 2 {
      var init := vs[..|vs| - 1];
      ReversedOrientation(init);
      ReversedFirst(init);
      ShoelaceCons(vs[|vs| - 1], Reversed(init));
      BoundaryCons(vs[|vs| - 1], Reversed(init));
      assert init[|init| - 1] == vs[|vs| - 2];
    } else if |vs| == 1 {
      assert Reversed(vs) == vs;
    }
  }

  /** Shifting every corner right by `dx` adds `2 * dx` times the rise from
      the first corner to the last, which is nothing for a closed edge. */
  lemma {:induction false} ShoelaceShift(vs: seq<Point>, dx: int, dy: int)
    requires vs != []
    ensures Shoelace(Shifted(vs, dx, dy)) == Shoelace(vs) + 2 * dx * (vs[|vs| - 1].y - vs[0].y)
  {
    if |vs| >= 2 {
      var init := vs[..|vs| - 1];
      ShoelaceShift(init, dx, dy);
      var w := Shifted(vs, dx, dy);
      assert w[..|w| - 1] == Shifted(init, dx, dy);
      var a, b := vs[|vs| - 2], vs[|vs| - 1];
      assert Cross(w[|w| - 2], w[|w| - 1]) == Cross(a, b) + 2 * dx * (b.y - a.y) by {
        CrossShift(a, b, dx, dy);
      }
      Distribute(dx, init[|init| - 1].y - vs[0].y, b.y - a.y);
    }
  }

  lemma CrossShift(a: Point, b: Point, dx: int, dy: int)
    ensures Cross(Point(a.x + dx, a.y + dy), Point(b.x + dx, b.y + dy)) == Cross(a, b) + 2 * dx * (b.y - a.y)
  {
  }

  lemma Distribute(k: int, a: int, b: int)
    ensures 2 * k * a + 2 * k * b == 2 * k * (a + b)
  {
  }

  function Shifted(vs: seq<Point>, dx: int, dy: int): (r: seq<Point>)
    ensures |r| == |vs|
    ensures forall i :: 0 <= i < |vs| ==> r[i] == Point(vs[i].x + dx, vs[i].y + dy)
  {
    seq(|vs|, i requires 0 <= i < |vs| => Point(vs[i].x + dx, vs[i].y + dy))
  }

  lemma {:induction false} BoundaryShift(vs: seq<Point>, dx: int, dy: int)
    ensures Boundary(Shifted(vs, dx, dy)) == Boundary(vs)
  {
    if |vs| >= 2 {
      var w := Shifted(vs, dx, dy);
      assert w[..|w| - 1] == Shifted(vs[..|vs| - 1], dx, dy);
      BoundaryShift(vs[..|vs| - 1], dx, dy);
    }
  }

  /** `i64` division by two, which rounds toward zero. */
  function HalfTowardZero(a: int): int
  {
    if a >= 0 then a / 2 else -((-a) / 2)
  }

  /** `as usize` on an `i64`: a negative value wraps around. */
  function AsUsize(a: int): nat
  {
    a % 0x1_0000_0000_0000_0000
  }

  /** The count as the source computes it: the signed shoelace area, half
      the edge and one (Pick's theorem), cast to `usize`. */
  function AnswerAsWritten(vs: seq<Point>): nat
  {
    AsUsize(HalfTowardZero(Shoelace(vs)) + Boundary(vs) / 2 + 1)
  }

  /** The count Pick's theorem gives: interior cells plus edge cells, from
      the unsigned area. */
  function Lagoon(vs: seq<Point>): nat
  {
    Abs(Shoelace(vs)) / 2 + Boundary(vs) / 2 + 1
  }

  /** The count does not depend on the direction the edge is walked in. */
  lemma LagoonReversed(vs: seq<Point>)
    ensures Lagoon(Reversed(vs)) == Lagoon(vs)
  {
    ReversedOrientation(vs);
    assert Abs(Shoelace(Reversed(vs))) == Abs(Shoelace(vs));
  }

  /** For a closed edge, the count does not depend on where the corners
      sit. */
  lemma LagoonShifted(vs: seq<Point>, dx: int, dy: int)
    requires vs != [] && vs[0] == vs[|vs| - 1]
    ensures Lagoon(Shifted(vs, dx, dy)) == Lagoon(vs)
  {
    ShoelaceShift(vs, dx, dy);
    BoundaryShift(vs, dx, dy);
    assert Shoelace(Shifted(vs, dx, dy)) == Shoelace(vs);
  }

  /** Where the edge runs clockwise on screen, the signed area is the area
      and the source's count is the intended one. */
  lemma AsWrittenClockwise(vs: seq<Point>)
    requires Shoelace(vs) >= 0
    ensures AnswerAsWritten(vs) == Lagoon(vs) % 0x1_0000_0000_0000_0000
  {
  }

  /** The same 3 by 3 lagoon dug clockwise and anticlockwise (on screen):
      both plans start at the same corner and trace the same corners in
      opposite orders, yet the source counts 9 cells one way and 1 the
      other. */
  lemma AnticlockwiseUndercounts()
    ensures Start2(Clockwise()) == Some(Point(2, 2)) && Start2(Anticlockwise()) == Some(Point(2, 2))
    ensures Vertices(Point(2, 2), Anticlockwise()) == Reversed(Vertices(Point(2, 2), Clockwise()))
    ensures AnswerAsWritten(Vertices(Point(2, 2), Clockwise())) == 9
    ensures AnswerAsWritten(Vertices(Point(2, 2), Anticlockwise())) == 1
    ensures Lagoon(Vertices(Point(2, 2), Anticlockwise())) == 9
  {
    ClockwiseCorners();
    AnticlockwiseCorners();
    SquareCorners();
    ClockwiseStart();
    AnticlockwiseStart();
    SquareCounts(SquareClockwise(), SquareAnticlockwise());
  }

  lemma SquareCounts(vc: seq<Point>, va: seq<Point>)
    requires Shoelace(vc) == 8 && Boundary(vc) == 8 && Shoelace(va) == -8 && Boundary(va) == 8
    ensures AnswerAsWritten(vc) == 9 && AnswerAsWritten(va) == 1 && Lagoon(va) == 9
  {
  }

  lemma ClockwiseCorners()
    ensures Vertices(Point(2, 2), Clockwise()) == SquareClockwise()
  {
    var cw, s := Clockwise(), Point(2, 2);
    assert cw[1..] == [(Down, 2), (Left, 2), (Up, 2)] && cw[1..][1..] == [(Left, 2), (Up, 2)];
    assert cw[1..][1..][1..] == [(Up, 2)];
    assert Trace(s, Point(2, 4), true, [(Up, 2)]) == [Point(2, 2)];
    assert Trace(s, Point(4, 4), true, [(Left, 2), (Up, 2)]) == [Point(2, 4), Point(2, 2)];
    assert Trace(s, Point(4, 2), true, cw[1..]) == [Point(4, 4), Point(2, 4), Point(2, 2)];
  }

  lemma AnticlockwiseCorners()
    ensures Vertices(Point(2, 2), Anticlockwise()) == SquareAnticlockwise()
  {
    var acw, s := Anticlockwise(), Point(2, 2);
    assert acw[1..] == [(Right, 2), (Up, 2), (Left, 2)] && acw[1..][1..] == [(Up, 2), (Left, 2)];
    assert acw[1..][1..][1..] == [(Left, 2)];
    assert Trace(s, Point(4, 2), true, [(Left, 2)]) == [Point(2, 2)];
    assert Trace(s, Point(4, 4), true, [(Up, 2), (Left, 2)]) == [Point(4, 2), Point(2, 2)];
    assert Trace(s, Point(2, 4), true, acw[1..]) == [Point(4, 4), Point(4, 2), Point(2, 2)];
  }

  function SquareClockwise(): seq<Point>
  {
    [Point(2, 2), Point(4, 2), Point(4, 4), Point(2, 4), Point(2, 2)]
  }

  function SquareAnticlockwise(): seq<Point>
  {
    [Point(2, 2), Point(2, 4), Point(4, 4), Point(4, 2), Point(2, 2)]
  }

  lemma SquareCorners()
    ensures Shoelace(SquareClockwise()) == 8 && Boundary(SquareClockwise()) == 8
    ensures Shoelace(SquareAnticlockwise()) == -8 && Boundary(SquareAnticlockwise()) == 8
    ensures Reversed(SquareClockwise()) == SquareAnticlockwise()
  {
    var vc, va := SquareClockwise(), SquareAnticlockwise();
    assert vc[..1] == [Point(2, 2)] && va[..1] == [Point(2, 2)];
    assert vc[..2][..1] == vc[..1] && va[..2][..1] == va[..1];
    assert vc[..3][..2] == vc[..2] && va[..3][..2] == va[..2];
    assert vc[..4][..3] == vc[..3] && va[..4][..3] == va[..3];
    assert vc[..4] == vc[..|vc| - 1] && va[..4] == va[..|va| - 1];
    assert Shoelace(vc[..2]) == 0 && Shoelace(va[..2]) == 8;
    assert Shoelace(vc[..3]) == 16 && Shoelace(va[..3]) == 8;
    assert Shoelace(vc[..4]) == 16 && Shoelace(va[..4]) == -8;
    assert Boundary(vc[..2]) == 2 && Boundary(va[..2]) == 2;
    assert Boundary(vc[..3]) == 4 && Boundary(va[..3]) == 4;
    assert Boundary(vc[..4]) == 6 && Boundary(va[..4]) == 6;
    assert Reversed(vc[..1]) == [Point(2, 2)];
    assert Reversed(vc[..2]) == [Point(4, 2), Point(2, 2)];
    assert Reversed(vc[..3]) == [Point(4, 4), Point(4, 2), Point(2, 2)];
    assert Reversed(vc[..4]) == [Point(2, 4), Point(4, 4), Point(4, 2), Point(2, 2)];
  }

  lemma ClockwiseStart()
    ensures Start2(Clockwise()) == Some(Point(2, 2))
  {
    DeltasOfFour((Right, 2), (Down, 2), (Left, 2), (Up, 2), true);
    DeltasOfFour((Right, 2), (Down, 2), (Left, 2), (Up, 2), false);
    StartOfSquare(Clockwise());
  }

  lemma AnticlockwiseStart()
    ensures Start2(Anticlockwise()) == Some(Point(2, 2))
  {
    DeltasOfFour((Down, 2), (Right, 2), (Up, 2), (Left, 2), true);
    DeltasOfFour((Down, 2), (Right, 2), (Up, 2), (Left, 2), false);
    StartOfSquare(Anticlockwise());
  }

  /** The steps of a four-step plan, one after the other. */
  lemma DeltasOfFour(a: Instr, b: Instr, c: Instr, d: Instr, vertical: bool)
    ensures Deltas([a, b, c, d], vertical) ==
      Delta(a, vertical) + Delta(b, vertical) + Delta(c, vertical) + Delta(d, vertical)
  {
    assert Deltas([a], vertical) == Delta(a, vertical) by {
      assert [a][..0] == [];
    }
    assert Deltas([a, b], vertical) == Deltas([a], vertical) + Delta(b, vertical) by {
      assert [a, b][..1] == [a];
    }
    assert Deltas([a, b, c], vertical) == Deltas([a, b], vertical) + Delta(c, vertical) by {
      assert [a, b, c][..2] == [a, b];
    }
    assert [a, b, c, d][..3] == [a, b, c];
  }

  lemma StartOfSquare(plan: seq<Instr>)
    requires Deltas(plan, true) == [3, -3] && Deltas(plan, false) == [3, -3]
    ensures Start2(plan) == Some(Point(2, 2))
  {
    ThereAndBack();
    LowestOfSquare();
    assert Ranges(plan) == ([3, 0], [3, 0]);
  }

  lemma LowestOfSquare()
    ensures MinOf([3, 0]) == Some(0)
  {
    assert [3, 0][..1] == [3];
  }

  lemma ThereAndBack()
    ensures RunningSums([3, -3]) == [3, 0]
  {
    var r: seq<int> := [3, -3];
    assert r[..1] == [3];
    assert Sum(r[..1]) == 3 && Sum(r) == 0;
    assert RunningSums(r[..1]) == [3];
  }

  function Clockwise(): seq<Instr>
  {
    [(Right, 2), (Down, 2), (Left, 2), (Up, 2)]
  }

  function Anticlockwise(): seq<Instr>
  {
    [(Down, 2), (Right, 2), (Up, 2), (Left, 2)]
  }

  /** Part 2: read the colour codes, trace the corners and count. `None`
      where the source panics: a bad code, or no vertical or no horizontal
      step. */
  method Part2(codes: seq<string>) returns (r: Option<nat>)
    ensures r.Some? <==> DecodeAll(codes).Some? && Start2(DecodeAll(codes).value).Some?
    ensures r.Some? ==>
      var plan := DecodeAll(codes).value;
      r.value == Lagoon(Vertices(Start2(plan).value, plan))
  {
    var plan := DecodeAll(codes);
    if plan.None? {
      return None;
    }
    var start := Start2(plan.value);
    if start.None? {
      return None;
    }
    var vs := ScanVertices(start.value, plan.value);
    r := Some(Lagoon(vs));
  }
}
