/** Pipe Maze. A grid of pipe tiles holds one start tile `S`; the start is
    given the pipe shape whose two neighbours connect back to it, and the
    loop through it is walked from the start back to the start. Part 1 is
    half the loop length; part 2 clears everything off the loop and scans
    every row with a small state machine that marks the ground tiles inside
    the loop, then counts them. */
module Day10 {
  import opened Common

  // ------------------------------------------------------------ directions

  /** `GridPos`, with the `i32` coordinates as unbounded integers. */
  datatype Pos = Pos(x: int, y: int)

  datatype Dir = North | South | West | East

  function Offset(d: Dir): Pos
  {
    match d
    case North => Pos(0, -1)
    case South => Pos(0, 1)
    case West => Pos(-1, 0)
    case East => Pos(1, 0)
  }

  function Reverse(d: Dir): Dir
  {
    match d
    case North => South
    case South => North
    case West => East
    case East => West
  }

  function Moved(p: Pos, d: Dir): Pos
  {
    Pos(p.x + Offset(d).x, p.y + Offset(d).y)
  }

  /** `reverse` is an involution without fixed points that negates the
      offset, so stepping there and back returns to the same cell. */
  lemma ReverseFacts(d: Dir, p: Pos)
    ensures Reverse(Reverse(d)) == d && Reverse(d) != d
    ensures Offset(Reverse(d)) == Pos(-Offset(d).x, -Offset(d).y)
    ensures Moved(Moved(p, d), Reverse(d)) == p
  {
  }

  // ----------------------------------------------------------------- pipes

  datatype Pipe = Vertical | Horizontal | TurnNE | TurnNW | TurnSE | TurnSW | Ground | Start

  /** The two directions a pipe opens to; none for ground and the start. */
  function Connections(p: Pipe): Option<(Dir, Dir)>
  {
    match p
    case Vertical => Some((North, South))
    case Horizontal => Some((West, East))
    case TurnNE => Some((North, East))
    case TurnNW => Some((North, West))
    case TurnSE => Some((South, East))
    case TurnSW => Some((South, West))
    case Ground => None
    case Start => None
  }

  predicate Connects(p: Pipe, d: Dir)
  {
    Connections(p).Some? && (Connections(p).value.0 == d || Connections(p).value.1 == d)
  }

  /** `get_other_dir`: leaving a pipe through one opening, the other one;
      `None` where the source panics. */
  function OtherDir(p: Pipe, d: Dir): Option<Dir>
  {
    match d
    case North => (match p case Vertical => Some(South) case TurnNE => Some(East) case TurnNW => Some(West) case _ => None)
    case South => (match p case Vertical => Some(North) case TurnSE => Some(East) case TurnSW => Some(West) case _ => None)
    case West => (match p case Horizontal => Some(East) case TurnNW => Some(North) case TurnSW => Some(South) case _ => None)
    case East => (match p case Horizontal => Some(West) case TurnNE => Some(North) case TurnSE => Some(South) case _ => None)
  }

  /** `get_other_dir` is defined exactly on the openings of a pipe and
      yields the other opening. */
  lemma OtherDirIsOtherConnection(p: Pipe, d: Dir)
    ensures OtherDir(p, d).Some? <==> Connects(p, d)
    ensures OtherDir(p, d).Some? ==>
      var e := OtherDir(p, d).value;
      e != d && Connects(p, e) &&
      (Connections(p).value == (d, e) || Connections(p).value == (e, d))
  {
  }

  /** `get_next_dir`: entering a pipe while moving in direction `d`, the
      direction to leave it by. */
  function NextDir(p: Pipe, d: Dir): Option<Dir>
  {
    OtherDir(p, Reverse(d))
  }

  function PipeFromChar(c: char): Option<Pipe>
  {
    match c
    case 'S' => Some(Start)
    case '.' => Some(Ground)
    case '-' => Some(Horizontal)
    case '|' => Some(Vertical)
    case 'L' => Some(TurnNE)
    case 'J' => Some(TurnNW)
    case 'F' => Some(TurnSE)
    case '7' => Some(TurnSW)
    case _ => None
  }

  function PipeChar(p: Pipe): char
  {
    match p
    case Start => 'S'
    case Ground => '.'
    case Horizontal => '-'
    case Vertical => '|'
    case TurnNE => 'L'
    case TurnNW => 'J'
    case TurnSE => 'F'
    case TurnSW => '7'
  }

  /** The two conversions are inverse: a character parses to a pipe exactly
      when it is that pipe's character, and every other character panics. */
  lemma PipeCharRoundTrip(p: Pipe, c: char)
    ensures PipeFromChar(c) == Some(p) <==> PipeChar(p) == c
    ensures PipeFromChar(PipeChar(p)) == Some(p)
  {
  }

  // ------------------------------------------------------------------ grid

  datatype Grid = Grid(cells: seq<seq<Pipe>>, start: Pos)

  /** What `try_as_usize_tuple().map(|(ix, iy)| vec2d[iy][ix])` meets: a
      negative coordinate gives `None`, an index past the end panics. */
  datatype Look = OffGrid | OutOfRange | Sees(pipe: Pipe)

  function LookAt(cells: seq<seq<Pipe>>, p: Pos): Look
  {
    if p.x < 0 || p.y < 0 then OffGrid
    else if p.y < |cells| && p.x < |cells[p.y]| then Sees(cells[p.y][p.x])
    else OutOfRange
  }

  /** `get_pipe`; `None` where it panics. */
  function GetPipe(cells: seq<seq<Pipe>>, p: Pos): (r: Option<Pipe>)
    ensures r.Some? <==> 0 <= p.y < |cells| && 0 <= p.x < |cells[p.y]|
    ensures r.Some? ==> r.value == cells[p.y][p.x]
  {
    var l := LookAt(cells, p);
    if l.Sees? then Some(l.pipe) else None
  }

  /** The first `Start` of a row at or after `from`. */
  function FindInRow(row: seq<Pipe>, from: nat): (x: Option<nat>)
    decreases |row| - from
    ensures x.Some? ==> from <= x.value < |row| && row[x.value] == Start
    ensures x.Some? ==> forall i :: from <= i < x.value ==> row[i] != Start
    ensures x.None? ==> forall i :: from <= i < |row| ==> row[i] != Start
  {
    if from >= |row| then None
    else if row[from] == Start then Some(from)
    else FindInRow(row, from + 1)
  }

  /** The first `Start` in reading order at or after row `from`. */
  function FindStartFrom(cells: seq<seq<Pipe>>, from: nat): (p: Option<Pos>)
    decreases |cells| - from
    ensures p.Some? ==> from <= p.value.y < |cells| && 0 <= p.value.x < |cells[p.value.y]|
    ensures p.Some? ==> cells[p.value.y][p.value.x] == Start
    ensures p.Some? ==> forall i :: 0 <= i < p.value.x ==> cells[p.value.y][i] != Start
    ensures p.Some? ==> forall j, i :: from <= j < p.value.y && 0 <= i < |cells[j]| ==> cells[j][i] != Start
    ensures p.None? ==> forall j, i :: from <= j < |cells| && 0 <= i < |cells[j]| ==> cells[j][i] != Start
  {
    if from >= |cells| then None
    else
      var x := FindInRow(cells[from], 0);
      if x.Some? then Some(Pos(x.value, from)) else FindStartFrom(cells, from + 1)
  }

  predicate InSet(l: Look, ps: set<Pipe>)
  {
    l.Sees? && l.pipe in ps
  }

  /** The shape match of `Grid::new`, in the source's order, on the four
      neighbours of the start; `None` is the panic for an unexpected setup. */
  function StartShape(n: Look, s: Look, w: Look, e: Look): Option<Pipe>
  {
    var northOk := InSet(n, {Vertical, TurnSE, TurnSW});
    var southOk := InSet(s, {Vertical, TurnNE, TurnNW});
    var westOk := InSet(w, {Horizontal, TurnNE, TurnSE});
    var eastOk := InSet(e, {Horizontal, TurnNW, TurnSW});
    if westOk && eastOk then Some(Horizontal)
    else if southOk && eastOk then Some(TurnSE)
    else if southOk && westOk then Some(TurnSW)
    else if northOk && eastOk then Some(TurnNE)
    else if northOk && westOk then Some(TurnNW)
    else if northOk && southOk then Some(Vertical)
    else None
  }

  /** Which of the four neighbours of the start open back towards it. */
  datatype Links = Links(north: bool, south: bool, west: bool, east: bool)

  /** The neighbour `l`, seen in direction `d` from the start, is a pipe
      with an opening back towards the start. */
  predicate LinksBack(l: Look, d: Dir)
  {
    l.Sees? && Connects(l.pipe, Reverse(d))
  }

  function LinksOf(n: Look, s: Look, w: Look, e: Look): Links
  {
    Links(LinksBack(n, North), LinksBack(s, South), LinksBack(w, West), LinksBack(e, East))
  }

  function Opens(ls: Links, d: Dir): bool
  {
    match d
    case North => ls.north
    case South => ls.south
    case West => ls.west
    case East => ls.east
  }

  /** A start shape fits when the neighbours at both of its openings link
      back. */
  predicate Fits(ls: Links, shape: Pipe)
  {
    Connections(shape).Some? && Opens(ls, Connections(shape).value.0) && Opens(ls, Connections(shape).value.1)
  }

  /** The order in which `Grid::new` tries the shapes. */
  function ShapeOrder(): seq<Pipe>
  {
    [Horizontal, TurnSE, TurnSW, TurnNE, TurnNW, Vertical]
  }

  /** Independent reference: the first shape in order, from index `i`,
      whose two neighbours both link back. */
  function FirstFitting(ls: Links, i: nat): Option<Pipe>
    decreases |ShapeOrder()| - i
  {
    if i >= |ShapeOrder()| then None
    else if Fits(ls, ShapeOrder()[i]) then Some(ShapeOrder()[i])
    else FirstFitting(ls, i + 1)
  }

  /** The connector sets listed in the source are exactly the pipes that
      open back towards the start, so the match picks the first listed
      shape whose neighbours both link back. */
  lemma StartShapeIsFirstFitting(n: Look, s: Look, w: Look, e: Look)
    ensures StartShape(n, s, w, e) == FirstFitting(LinksOf(n, s, w, e), 0)
  {
    ConnectorSets(n, s, w, e);
    FirstFittingUnfolded(LinksOf(n, s, w, e));
  }

  /** Each connector set of the source lists the pipes opening back. */
  lemma ConnectorSets(n: Look, s: Look, w: Look, e: Look)
    ensures InSet(n, {Vertical, TurnSE, TurnSW}) == LinksBack(n, North)
    ensures InSet(s, {Vertical, TurnNE, TurnNW}) == LinksBack(s, South)
    ensures InSet(w, {Horizontal, TurnNE, TurnSE}) == LinksBack(w, West)
    ensures InSet(e, {Horizontal, TurnNW, TurnSW}) == LinksBack(e, East)
  {
  }

  lemma FirstFittingUnfolded(ls: Links)
    ensures FirstFitting(ls, 0) ==
      if ls.west && ls.east then Some(Horizontal)
      else if ls.south && ls.east then Some(TurnSE)
      else if ls.south && ls.west then Some(TurnSW)
      else if ls.north && ls.east then Some(TurnNE)
      else if ls.north && ls.west then Some(TurnNW)
      else if ls.north && ls.south then Some(Vertical)
      else None
  {
    var order := ShapeOrder();
    assert order[0] == Horizontal && order[1] == TurnSE && order[2] == TurnSW;
    assert order[3] == TurnNE && order[4] == TurnNW && order[5] == Vertical;
    assert FirstFitting(ls, 6) == None;
  }

  /** Replacing cell `p` of the grid. */
  function SetCell(cells: seq<seq<Pipe>>, p: Pos, v: Pipe): seq<seq<Pipe>>
    requires 0 <= p.y < |cells| && 0 <= p.x < |cells[p.y]|
  {
    cells[p.y := cells[p.y][p.x := v]]
  }

  /** `Grid::new`: find the start, look at its four neighbours (an index
      past the end panics), pick its shape and write it into the start
      cell; `None` where the source panics. */
  function NewGrid(cells: seq<seq<Pipe>>): Option<Grid>
  {
    var st := FindStartFrom(cells, 0);
    if st.None? then None
    else
      var p := st.value;
      var n := LookAt(cells, Moved(p, North));
      var s := LookAt(cells, Moved(p, South));
      var w := LookAt(cells, Moved(p, West));
      var e := LookAt(cells, Moved(p, East));
      if n.OutOfRange? || s.OutOfRange? || w.OutOfRange? || e.OutOfRange? then None
      else
        var shape := StartShape(n, s, w, e);
        if shape.None? then None else Some(Grid(SetCell(cells, p, shape.value), p))
  }

  /** `Grid::new` rewrites only the first start cell in reading order, with
      a real pipe whose two openings lead to neighbours that open back. */
  lemma NewGridRewritesStartOnly(cells: seq<seq<Pipe>>)
    requires NewGrid(cells).Some?
    ensures var g := NewGrid(cells).value;
      var p := g.start;
      0 <= p.y < |cells| && 0 <= p.x < |cells[p.y]| && cells[p.y][p.x] == Start &&
      (forall i :: 0 <= i < p.x ==> cells[p.y][i] != Start) &&
      (forall j, i :: 0 <= j < p.y && 0 <= i < |cells[j]| ==> cells[j][i] != Start) &&
      |g.cells| == |cells| &&
      (forall j :: 0 <= j < |cells| ==> |g.cells[j]| == |cells[j]|) &&
      (forall j, i :: 0 <= j < |cells| && 0 <= i < |cells[j]| && Pos(i, j) != p ==> g.cells[j][i] == cells[j][i])
  {
  }

  lemma NewGridShapeFits(cells: seq<seq<Pipe>>)
    requires NewGrid(cells).Some?
    ensures var g := NewGrid(cells).value;
      var p := g.start;
      GetPipe(g.cells, p).Some? &&
      Fits(LinksOf(LookAt(cells, Moved(p, North)), LookAt(cells, Moved(p, South)),
                   LookAt(cells, Moved(p, West)), LookAt(cells, Moved(p, East))), GetPipe(g.cells, p).value)
  {
    var p := FindStartFrom(cells, 0).value;
    var n := LookAt(cells, Moved(p, North));
    var s := LookAt(cells, Moved(p, South));
    var w := LookAt(cells, Moved(p, West));
    var e := LookAt(cells, Moved(p, East));
    StartShapeIsFirstFitting(n, s, w, e);
    FirstFittingFits(LinksOf(n, s, w, e), 0);
  }

  lemma {:induction false} FirstFittingFits(ls: Links, i: nat)
    requires FirstFitting(ls, i).Some?
    ensures Fits(ls, FirstFitting(ls, i).value)
    decreases |ShapeOrder()| - i
  {
    if !Fits(ls, ShapeOrder()[i]) {
      FirstFittingFits(ls, i + 1);
    }
  }

  // ------------------------------------------------------------------ walk

  datatype Walker = Walker(last: Dir, pos: Pos)

  /** `Grid::walk`: leave the current pipe through its other opening and
      step one cell that way; `None` where the source panics. */
  function Walk(g: Grid, w: Walker): Option<Walker>
  {
    var p := GetPipe(g.cells, w.pos);
    if p.None? then None
    else
      var d := NextDir(p.value, w.last);
      if d.None? then None else Some(Walker(d.value, Moved(w.pos, d.value)))
  }

  /** A walk step enters the current pipe through one of its openings,
      leaves through the other one and moves one cell that way. */
  lemma WalkFollowsConnections(g: Grid, w: Walker)
    requires Walk(g, w).Some?
    ensures GetPipe(g.cells, w.pos).Some?
    ensures var p := GetPipe(g.cells, w.pos).value;
      var next := Walk(g, w).value;
      Connects(p, Reverse(w.last)) && Connects(p, next.last) && next.last != Reverse(w.last) &&
      next.pos == Moved(w.pos, next.last)
  {
    OtherDirIsOtherConnection(GetPipe(g.cells, w.pos).value, Reverse(w.last));
  }

  /** `starting_blocked_dir`: a direction of arrival at the start pipe. */
  function BlockedDir(p: Pipe): Option<Dir>
  {
    match p
    case Vertical => Some(North)
    case Horizontal => Some(East)
    case TurnNE => Some(South)
    case TurnNW => Some(South)
    case TurnSE => Some(North)
    case TurnSW => Some(North)
    case Ground => None
    case Start => None
  }

  /** Every real pipe has an arrival direction, and the first walk step
      from it is defined. */
  lemma BlockedDirEntersPipe(p: Pipe)
    ensures BlockedDir(p).Some? <==> Connections(p).Some?
    ensures BlockedDir(p).Some? ==> Connects(p, Reverse(BlockedDir(p).value)) && NextDir(p, BlockedDir(p).value).Some?
  {
  }

  /** Where the walk from the start stands after `k` steps. */
  function StepsFrom(g: Grid, blocked: Dir, k: nat): Option<Walker>
  {
    if k == 0 then Some(Walker(blocked, g.start))
    else
      var prev := StepsFrom(g, blocked, k - 1);
      if prev.None? then None else Walk(g, prev.value)
  }

  /** The enumerated path asserts that every index is below this. */
  const MaxPath: nat := 100000

  /** The first step count `k` or later, at most `MaxPath + 1`, at which the
      walk is back at the start; `None` when a step panics first or when the
      path outgrows its `assert`. */
  function FirstReturn(g: Grid, blocked: Dir, k: nat): (r: Option<nat>)
    requires 1 <= k <= MaxPath + 2
    ensures r.Some? ==> k <= r.value <= MaxPath + 1
    decreases MaxPath + 2 - k
  {
    if k == MaxPath + 2 then None
    else
      var w := StepsFrom(g, blocked, k);
      if w.None? then None
      else if w.value.pos == g.start then Some(k)
      else FirstReturn(g, blocked, k + 1)
  }

  /** `FirstReturn` is the loop length: the walk is defined up to it, back
      at the start there, and away from the start at every step before. */
  lemma {:induction false} FirstReturnIsLoopLength(g: Grid, blocked: Dir, k: nat)
    requires 1 <= k <= MaxPath + 2
    requires FirstReturn(g, blocked, k).Some?
    ensures var n := FirstReturn(g, blocked, k).value;
      k <= n <= MaxPath + 1 && StepsFrom(g, blocked, n).Some? && StepsFrom(g, blocked, n).value.pos == g.start &&
      forall j :: k <= j < n ==> StepsFrom(g, blocked, j).Some? && StepsFrom(g, blocked, j).value.pos != g.start
    decreases MaxPath + 2 - k
  {
    var w := StepsFrom(g, blocked, k);
    if w.value.pos != g.start {
      FirstReturnIsLoopLength(g, blocked, k + 1);
    }
  }

  /** One unfolding of the search for the first return, with `w` the
      walker reached after `k` steps. */
  lemma FirstReturnStep(g: Grid, blocked: Dir, k: nat, w: Option<Walker>)
    requires 1 <= k <= MaxPath + 1 && StepsFrom(g, blocked, k) == w
    ensures w.None? ==> FirstReturn(g, blocked, k).None?
    ensures w.Some? && w.value.pos == g.start ==> FirstReturn(g, blocked, k) == Some(k)
    ensures w.Some? && w.value.pos != g.start ==> FirstReturn(g, blocked, k) == FirstReturn(g, blocked, k + 1)
    ensures FirstReturn(g, blocked, MaxPath + 2).None?
  {
  }

  /** The cell reached after `k` steps (the start where a step panicked). */
  function PosAt(g: Grid, blocked: Dir, k: nat): Pos
  {
    var w := StepsFrom(g, blocked, k);
    if w.None? then g.start else w.value.pos
  }

  /** The cells reached by steps `1..k`. */
  function PathTo(g: Grid, blocked: Dir, k: nat): (r: seq<Pos>)
    ensures |r| == k
  {
    if k == 0 then [] else PathTo(g, blocked, k - 1) + [PosAt(g, blocked, k)]
  }

  lemma {:induction false} PathToAt(g: Grid, blocked: Dir, k: nat, i: nat)
    requires i < k
    ensures PathTo(g, blocked, k)[i] == PosAt(g, blocked, i + 1)
  {
    if i < k - 1 {
      PathToAt(g, blocked, k - 1, i);
    }
  }

  /** The cells of a loop of length `n`: those after steps `1..n-1`, then
      the start. */
  function LoopCells(g: Grid, blocked: Dir, n: nat): seq<Pos>
    requires n >= 1
  {
    PathTo(g, blocked, n - 1) + [g.start]
  }

  /** One call of `Grid::walk` from the walker reached after `k` steps. */
  method WalkFrom(g: Grid, blocked: Dir, w: Walker, ghost k: nat) returns (next: Option<Walker>)
    requires StepsFrom(g, blocked, k) == Some(w)
    ensures next == StepsFrom(g, blocked, k + 1)
  {
    next := Walk(g, w);
  }

  /** The `from_fn` iterator with its `enumerate().inspect(assert)`: the
      cells visited before the walk is back at the start. */
  method TracePath(g: Grid, blocked: Dir) returns (path: Option<seq<Pos>>)
    ensures path.Some? <==> FirstReturn(g, blocked, 1).Some?
    ensures path.Some? ==> path.value == PathTo(g, blocked, FirstReturn(g, blocked, 1).value - 1)
  {
    ghost var target := TracingStart(g, blocked);
    path := TraceFrom(g, blocked, target);
  }

  /** The loop of `TracePath`, with the first return count as a ghost
      parameter. */
  method TraceFrom(g: Grid, blocked: Dir, ghost target: Option<nat>) returns (path: Option<seq<Pos>>)
    requires Tracing(g, blocked, 0, Walker(blocked, g.start), [], target)
    ensures path.Some? <==> target.Some?
    ensures path.Some? ==> target.value >= 1 && path.value == PathTo(g, blocked, target.value - 1)
  {
    var w := Walker(blocked, g.start);
    var cells: seq<Pos> := [];
    while true
      invariant Tracing(g, blocked, |cells|, w, cells, target)
      decreases MaxPath - |cells|
    {
      var next, back := TraceStep(g, blocked, w, cells, |cells|, target);
      if next.None? || back || |cells| == MaxPath {
        return if next.Some? && back then Some(cells) else None;
      }
      w := next.value;
      cells := cells + [w.pos];
    }
  }

  /** One turn of the iterator: the next walker, and whether it is back at
      the start. */
  method TraceStep(g: Grid, blocked: Dir, w: Walker, cells: seq<Pos>, ghost k: nat, ghost target: Option<nat>)
    returns (next: Option<Walker>, back: bool)
    requires Tracing(g, blocked, k, w, cells, target)
    ensures next.None? ==> target.None?
    ensures next.Some? && back ==> target.Some? && target.value >= 1 && cells == PathTo(g, blocked, target.value - 1)
    ensures next.Some? && !back && k == MaxPath ==> target.None?
    ensures next.Some? && !back && k < MaxPath ==> Tracing(g, blocked, k + 1, next.value, cells + [next.value.pos], target)
  {
    next := WalkFrom(g, blocked, w, k);
    TracingStop(g, blocked, k, w, cells, target, next);
    back := next.Some? && next.value.pos == g.start;
    if next.Some? && !back && k < MaxPath {
      TracingNext(g, blocked, k, cells, target, next.value);
    }
  }

  /** The loop state of `TracePath` after `k` steps still away from the
      start; `target` is the first return counted from step 1. */
  ghost predicate Tracing(g: Grid, blocked: Dir, k: nat, w: Walker, cells: seq<Pos>, target: Option<nat>)
  {
    k == |cells| <= MaxPath
    && StepsFrom(g, blocked, k) == Some(w)
    && target == FirstReturn(g, blocked, k + 1)
    && cells == PathTo(g, blocked, k)
  }

  lemma TracingStart(g: Grid, blocked: Dir) returns (target: Option<nat>)
    ensures target == FirstReturn(g, blocked, 1)
    ensures Tracing(g, blocked, 0, Walker(blocked, g.start), [], target)
  {
    target := FirstReturn(g, blocked, 1);
  }

  /** How the search ends when the next step panics, returns to the start,
      or leaves the path at its cap. */
  lemma TracingStop(g: Grid, blocked: Dir, k: nat, w: Walker, cells: seq<Pos>, target: Option<nat>,
                    next: Option<Walker>)
    requires Tracing(g, blocked, k, w, cells, target) && next == StepsFrom(g, blocked, k + 1)
    ensures next.None? ==> target.None?
    ensures next.Some? && next.value.pos == g.start ==>
      target.Some? && target.value >= 1 && cells == PathTo(g, blocked, target.value - 1)
    ensures next.Some? && next.value.pos != g.start && k == MaxPath ==> target.None?
  {
    FirstReturnStep(g, blocked, k + 1, next);
  }

  lemma TracingNext(g: Grid, blocked: Dir, k: nat, cells: seq<Pos>, target: Option<nat>, w: Walker)
    requires k < MaxPath && k == |cells| && cells == PathTo(g, blocked, k)
    requires target == FirstReturn(g, blocked, k + 1)
    requires StepsFrom(g, blocked, k + 1) == Some(w) && w.pos != g.start
    ensures Tracing(g, blocked, k + 1, w, cells + [w.pos], target)
  {
    FirstReturnStep(g, blocked, k + 1, Some(w));
    PathToStep(g, blocked, k, w);
  }

  lemma PathToStep(g: Grid, blocked: Dir, k: nat, w: Walker)
    requires StepsFrom(g, blocked, k + 1) == Some(w)
    ensures PathTo(g, blocked, k + 1) == PathTo(g, blocked, k) + [w.pos]
  {
  }

  /** The loop walked from the start of a built grid, the start last;
      `None` where the source panics. */
  function LoopOf(g: Grid): Option<seq<Pos>>
  {
    var p := GetPipe(g.cells, g.start);
    var blocked := if p.None? then None else BlockedDir(p.value);
    if blocked.None? then None
    else
      var n := FirstReturn(g, blocked.value, 1);
      if n.None? then None else Some(LoopCells(g, blocked.value, n.value))
  }

  /** Picks the arrival direction and traces the loop. */
  method FindLoop(g: Grid) returns (l: Option<seq<Pos>>)
    ensures l == LoopOf(g)
  {
    var p := GetPipe(g.cells, g.start);
    if p.None? || BlockedDir(p.value).None? {
      return None;
    }
    var path := TracePath(g, BlockedDir(p.value).value);
    if path.None? {
      return None;
    }
    return Some(path.value + [g.start]);
  }

  /** The traced loop ends at the start, meets it nowhere before, and each
      cell is one step from the previous one (the first from the start) in
      a direction the previous pipe opens to. */
  lemma LoopIsClosedWalk(g: Grid)
    requires LoopOf(g).Some?
    ensures var l := LoopOf(g).value;
      1 <= |l| <= MaxPath + 1 && l[|l| - 1] == g.start &&
      (forall k :: 0 <= k < |l| - 1 ==> l[k] != g.start) &&
      (forall k :: 0 <= k < |l| ==> LoopLink(g, Before(g, l, k), l[k]))
  {
    var blocked := BlockedDir(GetPipe(g.cells, g.start).value).value;
    var n := FirstReturn(g, blocked, 1).value;
    FirstReturnIsLoopLength(g, blocked, 1);
    var l := LoopCells(g, blocked, n);
    forall k | 0 <= k < n
      ensures k < n - 1 ==> l[k] != g.start
      ensures LoopLink(g, Before(g, l, k), l[k])
    {
      LoopCellStep(g, blocked, n, k);
    }
  }

  /** The cell before the `k`-th of a loop: the start for the first one. */
  function Before(g: Grid, l: seq<Pos>, k: nat): Pos
    requires k < |l|
  {
    if k == 0 then g.start else l[k - 1]
  }

  /** Cell `q` is one step from `p` in a direction the pipe at `p` opens to. */
  predicate LoopLink(g: Grid, p: Pos, q: Pos)
  {
    GetPipe(g.cells, p).Some? && exists d: Dir :: Connects(GetPipe(g.cells, p).value, d) && q == Moved(p, d)
  }

  lemma LoopCellStep(g: Grid, blocked: Dir, n: nat, k: nat)
    requires k < n && StepsFrom(g, blocked, n).Some? && StepsFrom(g, blocked, n).value.pos == g.start
    requires forall j :: 1 <= j < n ==> StepsFrom(g, blocked, j).Some? && StepsFrom(g, blocked, j).value.pos != g.start
    ensures k < n - 1 ==> LoopCells(g, blocked, n)[k] != g.start
    ensures LoopLink(g, Before(g, LoopCells(g, blocked, n), k), LoopCells(g, blocked, n)[k])
  {
    var l := LoopCells(g, blocked, n);
    StepsBeforeOnGrid(g, blocked, k + 1, k);
    var w := StepsFrom(g, blocked, k).value;
    WalkFollowsConnections(g, w);
    LoopCellAt(g, blocked, n, k);
    if k > 0 {
      LoopCellAt(g, blocked, n, k - 1);
    }
  }

  /** Loop cell `k` is where the walk stands after `k + 1` steps. */
  lemma LoopCellAt(g: Grid, blocked: Dir, n: nat, k: nat)
    requires k < n && StepsFrom(g, blocked, n).Some? && StepsFrom(g, blocked, n).value.pos == g.start
    ensures LoopCells(g, blocked, n)[k] == PosAt(g, blocked, k + 1)
  {
    if k < n - 1 {
      PathToAt(g, blocked, n - 1, k);
    }
  }


  /** `part_1::solution` on the parsed tiles: half the loop length. */
  function Part1Answer(tiles: seq<seq<Pipe>>): Option<nat>
  {
    var g := NewGrid(tiles);
    if g.None? then None
    else
      var l := LoopOf(g.value);
      if l.None? then None else Some(|l.value| / 2)
  }

  method Part1(tiles: seq<seq<Pipe>>) returns (r: Option<nat>)
    ensures r == Part1Answer(tiles)
  {
    var g := NewGrid(tiles);
    if g.None? {
      return None;
    }
    var l := FindLoop(g.value);
    if l.None? {
      return None;
    }
    // `path.len() + 1` counts the start once more
    return Some(|l.value| / 2);
  }

  // ---------------------------------------------------------------- part 2

  /** The grid with every cell off the loop cleared to ground. */
  function LoopOnly(cells: seq<seq<Pipe>>, loop: seq<Pos>): (r: seq<seq<Pipe>>)
    ensures |r| == |cells| && forall j :: 0 <= j < |cells| ==> |r[j]| == |cells[j]|
  {
    seq(|cells|, j requires 0 <= j < |cells| =>
      seq(|cells[j]|, i requires 0 <= i < |cells[j]| => if Pos(i, j) in loop then cells[j][i] else Ground))
  }

  /** Every loop cell lies on the grid (it was read by `get_pipe`). */
  predicate OnGrid(cells: seq<seq<Pipe>>, loop: seq<Pos>)
  {
    forall k :: 0 <= k < |loop| ==> 0 <= loop[k].y < |cells| && 0 <= loop[k].x < |cells[loop[k].y]|
  }

  /** The `iter_mut` pass setting every cell to ground. */
  method ClearCells(cells: seq<seq<Pipe>>) returns (r: seq<seq<Pipe>>)
    ensures r == LoopOnly(cells, [])
  {
    r := cells;
    for j := 0 to |cells|
      invariant |r| == |cells|
      invariant forall b :: 0 <= b < |cells| ==> |r[b]| == |cells[b]|
      invariant forall b :: 0 <= b < j ==> r[b] == LoopOnly(cells, [])[b]
      invariant forall b :: j <= b < |cells| ==> r[b] == cells[b]
    {
      var row := r[j];
      for i := 0 to |row|
        invariant |row| == |cells[j]|
        invariant forall a :: 0 <= a < i ==> row[a] == Ground
      {
        row := row[i := Ground];
      }
      r := r[j := row];
    }
  }

  /** Writing every loop cell's original pipe back into the cleared grid. */
  method RestoreLoop(cells: seq<seq<Pipe>>, loop: seq<Pos>) returns (r: seq<seq<Pipe>>)
    requires OnGrid(cells, loop)
    ensures r == LoopOnly(cells, loop)
  {
    r := ClearCells(cells);
    for k := 0 to |loop|
      invariant |r| == |cells| && forall j :: 0 <= j < |cells| ==> |r[j]| == |cells[j]|
      invariant forall j, i :: 0 <= j < |cells| && 0 <= i < |cells[j]| ==>
        r[j][i] == (if Pos(i, j) in loop[..k] then cells[j][i] else Ground)
    {
      var p := loop[k];
      assert loop[..k + 1] == loop[..k] + [p];
      r := SetCell(r, p, cells[p.y][p.x]);
    }
    assert loop[..|loop|] == loop;
    SameCells(r, cells, loop);
  }

  lemma SameCells(r: seq<seq<Pipe>>, cells: seq<seq<Pipe>>, loop: seq<Pos>)
    requires |r| == |cells| && forall j :: 0 <= j < |cells| ==> |r[j]| == |cells[j]|
    requires forall j, i :: 0 <= j < |cells| && 0 <= i < |cells[j]| ==>
      r[j][i] == (if Pos(i, j) in loop then cells[j][i] else Ground)
    ensures r == LoopOnly(cells, loop)
  {
    var l := LoopOnly(cells, loop);
    forall j | 0 <= j < |cells|
      ensures r[j] == l[j]
    {
    }
  }

  /** The scan state of `part_2`. */
  datatype State = Inside | Outside | InsideEdgeWithNE | InsideEdgeWithSE | OutsideEdgeWithNE | OutsideEdgeWithSE

  /** One transition of the row scan; `None` for the `panic!`/`todo!` arms. */
  function Step(s: State, p: Pipe): Option<State>
  {
    match s
    case Inside =>
      (match p case Vertical => Some(Outside) case TurnNE => Some(InsideEdgeWithNE)
               case TurnSE => Some(InsideEdgeWithSE) case Ground => Some(Inside) case _ => None)
    case Outside =>
      (match p case Vertical => Some(Inside) case TurnNE => Some(OutsideEdgeWithNE)
               case TurnSE => Some(OutsideEdgeWithSE) case Ground => Some(Outside) case _ => None)
    case OutsideEdgeWithNE =>
      (match p case Horizontal => Some(OutsideEdgeWithNE) case TurnNW => Some(Outside)
               case TurnSW => Some(Inside) case _ => None)
    case OutsideEdgeWithSE =>
      (match p case Horizontal => Some(OutsideEdgeWithSE) case TurnNW => Some(Inside)
               case TurnSW => Some(Outside) case _ => None)
    case InsideEdgeWithNE =>
      (match p case Horizontal => Some(InsideEdgeWithNE) case TurnNW => Some(Inside)
               case TurnSW => Some(Outside) case _ => None)
    case InsideEdgeWithSE =>
      (match p case Horizontal => Some(InsideEdgeWithSE) case TurnNW => Some(Outside)
               case TurnSW => Some(Inside) case _ => None)
  }

  /** Ground met while inside is marked with `Start`. */
  function Mark(s: State, p: Pipe): Pipe
  {
    if s == Inside && p == Ground then Start else p
  }

  /** The row scan from `Outside`: the final state and the rewritten row. */
  function Scan(row: seq<Pipe>): Option<(State, seq<Pipe>)>
  {
    if row == [] then Some((Outside, []))
    else
      var prev := Scan(row[..|row| - 1]);
      if prev.None? then None
      else
        var s := prev.value.0;
        var last := row[|row| - 1];
        var next := Step(s, last);
        if next.None? then None else Some((next.value, prev.value.1 + [Mark(s, last)]))
  }

  /** The states alone, driven from `s` through `ps` front to back. */
  function Drive(s: State, ps: seq<Pipe>): Option<State>
    decreases |ps|
  {
    if ps == [] then Some(s)
    else
      var next := Step(s, ps[0]);
      if next.None? then None else Drive(next.value, ps[1..])
  }

  lemma {:induction false} DriveAppend(s: State, ps: seq<Pipe>, p: Pipe)
    ensures Drive(s, ps + [p]) == (if Drive(s, ps).None? then None else Step(Drive(s, ps).value, p))
    decreases |ps|
  {
    if ps != [] {
      assert (ps + [p])[1..] == ps[1..] + [p];
      var next := Step(s, ps[0]);
      if next.Some? {
        DriveAppend(next.value, ps[1..], p);
      }
    }
  }

  /** The scan's state is the state machine driven from `Outside`. */
  lemma {:induction false} ScanState(row: seq<Pipe>)
    ensures Scan(row).Some? <==> Drive(Outside, row).Some?
    ensures Scan(row).Some? ==> Scan(row).value.0 == Drive(Outside, row).value
  {
    if row != [] {
      var init := row[..|row| - 1];
      ScanState(init);
      assert init + [row[|row| - 1]] == row;
      DriveAppend(Outside, init, row[|row| - 1]);
    }
  }

  function Horizontals(k: nat): (r: seq<Pipe>)
    ensures |r| == k && forall i :: 0 <= i < k ==> r[i] == Horizontal
  {
    if k == 0 then [] else [Horizontal] + Horizontals(k - 1)
  }

  predicate IsEdge(s: State)
  {
    s == InsideEdgeWithNE || s == InsideEdgeWithSE || s == OutsideEdgeWithNE || s == OutsideEdgeWithSE
  }

  lemma {:induction false} DriveHorizontals(s: State, k: nat, p: Pipe)
    requires IsEdge(s)
    ensures Drive(s, Horizontals(k) + [p]) == Step(s, p)
  {
    if k > 0 {
      assert (Horizontals(k) + [p])[1..] == Horizontals(k - 1) + [p];
      DriveHorizontals(s, k - 1, p);
    }
  }

  function Flip(s: State): State
  {
    if s == Inside then Outside else Inside
  }

  /** Between a pipe crossing and the next, a vertical pipe or a run
      `NE -…- SW` or `SE -…- NW` swaps inside and outside, while a run
      `NE -…- NW` or `SE -…- SW` does not. */
  lemma CrossingsFlip(s: State, k: nat)
    requires s == Inside || s == Outside
    ensures Drive(s, [Vertical]) == Some(Flip(s))
    ensures Drive(s, [TurnNE] + Horizontals(k) + [TurnSW]) == Some(Flip(s))
    ensures Drive(s, [TurnSE] + Horizontals(k) + [TurnNW]) == Some(Flip(s))
    ensures Drive(s, [TurnNE] + Horizontals(k) + [TurnNW]) == Some(s)
    ensures Drive(s, [TurnSE] + Horizontals(k) + [TurnSW]) == Some(s)
  {
    var ne := if s == Inside then InsideEdgeWithNE else OutsideEdgeWithNE;
    var se := if s == Inside then InsideEdgeWithSE else OutsideEdgeWithSE;
    assert ([TurnNE] + Horizontals(k) + [TurnSW])[1..] == Horizontals(k) + [TurnSW];
    assert ([TurnSE] + Horizontals(k) + [TurnNW])[1..] == Horizontals(k) + [TurnNW];
    assert ([TurnNE] + Horizontals(k) + [TurnNW])[1..] == Horizontals(k) + [TurnNW];
    assert ([TurnSE] + Horizontals(k) + [TurnSW])[1..] == Horizontals(k) + [TurnSW];
    DriveHorizontals(ne, k, TurnSW);
    DriveHorizontals(se, k, TurnNW);
    DriveHorizontals(ne, k, TurnNW);
    DriveHorizontals(se, k, TurnSW);
  }

  /** A prefix of a row scans to the prefix of the scanned row. */
  lemma {:induction false} ScanPrefix(row: seq<Pipe>, m: nat)
    requires Scan(row).Some? && m <= |row|
    ensures |Scan(row).value.1| == |row|
    ensures Scan(row[..m]).Some? && Scan(row[..m]).value.1 == Scan(row).value.1[..m]
  {
    if row != [] {
      var init := row[..|row| - 1];
      if m < |row| {
        ScanPrefix(init, m);
        assert init[..m] == row[..m];
      } else {
        ScanPrefix(init, 0);
        assert row[..m] == row;
      }
    }
  }

  /** Cell `k` of a scanned row is cell `k` marked in the state reached
      before it, and was not a `Start`. */
  lemma ScanCell(row: seq<Pipe>, k: nat)
    requires Scan(row).Some? && k < |row|
    ensures |Scan(row).value.1| == |row| && Scan(row[..k]).Some? && row[k] != Start
    ensures Scan(row).value.1[k] == Mark(Scan(row[..k]).value.0, row[k])
  {
    ScanPrefix(row, k + 1);
    var pre := row[..k + 1];
    assert pre[..k] == row[..k];
    assert pre[k] == row[k];
    assert Scan(row).value.1[..k + 1][k] == Scan(row).value.1[k];
  }

  /** A scanned row keeps every cell except the ground met inside, which
      becomes `Start`; a row holding a `Start` already never scans. */
  lemma ScanMarksInsideGround(row: seq<Pipe>)
    requires Scan(row).Some?
    ensures |Scan(row).value.1| == |row|
    ensures forall k :: 0 <= k < |row| ==> Scan(row[..k]).Some? && row[k] != Start
    ensures forall k :: 0 <= k < |row| ==>
      (Scan(row).value.1[k] == Start <==> row[k] == Ground && Scan(row[..k]).value.0 == Inside)
    ensures forall k :: 0 <= k < |row| && row[k] != Ground ==> Scan(row).value.1[k] == row[k]
  {
    ScanPrefix(row, 0);
    forall k | 0 <= k < |row|
      ensures Scan(row[..k]).Some? && row[k] != Start
      ensures Scan(row).value.1[k] == Mark(Scan(row[..k]).value.0, row[k])
    {
      ScanCell(row, k);
    }
  }

  /** The per-row `iter_mut` scan, rewriting the row in place. */
  method ScanRow(row: seq<Pipe>) returns (r: Option<seq<Pipe>>)
    ensures Scan(row).None? ==> r.None?
    ensures Scan(row).Some? ==> r == Some(Scan(row).value.1)
  {
    var state := Outside;
    var cur := row;
    for k := 0 to |row|
      invariant |cur| == |row| && cur[k..] == row[k..]
      invariant Scan(row[..k]) == Some((state, cur[..k]))
    {
      assert row[..k + 1][..k] == row[..k];
      var next := Step(state, cur[k]);
      if next.None? {
        ScanStuck(row, k + 1);
        return None;
      }
      cur := cur[k := Mark(state, cur[k])];
      assert cur[..k + 1] == cur[..k] + [cur[k]];
      state := next.value;
    }
    assert row[..|row|] == row && cur[..|row|] == cur;
    return Some(cur);
  }

  lemma {:induction false} ScanStuck(row: seq<Pipe>, k: nat)
    requires k <= |row| && Scan(row[..k]).None?
    ensures Scan(row).None?
    decreases |row| - k
  {
    if k < |row| {
      assert row[..k + 1][..k] == row[..k];
      ScanStuck(row, k + 1);
    } else {
      assert row[..k] == row;
    }
  }

  /** Every row scanned; `None` when one panics. */
  function ScanAll(cells: seq<seq<Pipe>>): (r: Option<seq<seq<Pipe>>>)
    ensures r.Some? <==> forall j :: 0 <= j < |cells| ==> Scan(cells[j]).Some?
    ensures r.Some? ==> |r.value| == |cells| && forall j :: 0 <= j < |cells| ==> r.value[j] == Scan(cells[j]).value.1
  {
    if cells == [] then Some([])
    else
      var prev := ScanAll(cells[..|cells| - 1]);
      var last := Scan(cells[|cells| - 1]);
      if prev.None? || last.None? then None else Some(prev.value + [last.value.1])
  }

  function CountStart(row: seq<Pipe>): nat
  {
    if row == [] then 0 else CountStart(row[..|row| - 1]) + (if row[|row| - 1] == Start then 1 else 0)
  }

  function CountStarts(cells: seq<seq<Pipe>>): nat
  {
    if cells == [] then 0 else CountStarts(cells[..|cells| - 1]) + CountStart(cells[|cells| - 1])
  }

  method CountMarked(cells: seq<seq<Pipe>>) returns (total: nat)
    ensures total == CountStarts(cells)
  {
    total := 0;
    for j := 0 to |cells|
      invariant total == CountStarts(cells[..j])
    {
      assert cells[..j + 1][..j] == cells[..j];
      var row := cells[j];
      var inRow := 0;
      for i := 0 to |row|
        invariant inRow == CountStart(row[..i])
      {
        assert row[..i + 1][..i] == row[..i];
        if row[i] == Start {
          inRow := inRow + 1;
        }
      }
      assert row[..|row|] == row;
      total := total + inRow;
    }
    assert cells[..|cells|] == cells;
  }

  /** `part_2::solution` on the parsed tiles: the ground cells found inside
      the loop, counted after clearing everything off the loop. */
  function Part2Answer(tiles: seq<seq<Pipe>>): Option<nat>
  {
    var g := NewGrid(tiles);
    if g.None? then None
    else
      var l := LoopOf(g.value);
      if l.None? then None
      else
        var scanned := ScanAll(LoopOnly(g.value.cells, l.value));
        if scanned.None? then None else Some(CountStarts(scanned.value))
  }

  /** Every loop cell was read by `get_pipe` during the walk, so it lies on
      the grid. */
  lemma LoopOnGrid(g: Grid)
    requires LoopOf(g).Some?
    ensures OnGrid(g.cells, LoopOf(g).value)
  {
    var blocked := BlockedDir(GetPipe(g.cells, g.start).value).value;
    var n := FirstReturn(g, blocked, 1).value;
    FirstReturnReached(g, blocked, 1);
    forall k | 0 <= k < n
      ensures GetPipe(g.cells, LoopCells(g, blocked, n)[k]).Some?
    {
      LoopCellOnGrid(g, blocked, n, k);
    }
  }

  lemma {:induction false} FirstReturnReached(g: Grid, blocked: Dir, k: nat)
    requires 1 <= k <= MaxPath + 2
    requires FirstReturn(g, blocked, k).Some?
    ensures StepsFrom(g, blocked, FirstReturn(g, blocked, k).value).Some?
    decreases MaxPath + 2 - k
  {
    if StepsFrom(g, blocked, k).value.pos != g.start {
      FirstReturnReached(g, blocked, k + 1);
    }
  }

  lemma LoopCellOnGrid(g: Grid, blocked: Dir, n: nat, k: nat)
    requires GetPipe(g.cells, g.start).Some?
    requires k < n && StepsFrom(g, blocked, n).Some?
    ensures GetPipe(g.cells, LoopCells(g, blocked, n)[k]).Some?
  {
    if k < n - 1 {
      PathToAt(g, blocked, n - 1, k);
      StepsBeforeOnGrid(g, blocked, n, k + 1);
    }
  }

  /** Every walker before a defined step stood on the grid. */
  lemma {:induction false} StepsBeforeOnGrid(g: Grid, blocked: Dir, k: nat, m: nat)
    requires m < k && StepsFrom(g, blocked, k).Some?
    ensures StepsFrom(g, blocked, m).Some? && GetPipe(g.cells, PosAt(g, blocked, m)).Some?
  {
    if m < k - 1 {
      StepsBeforeOnGrid(g, blocked, k - 1, m);
    }
  }

  method Part2(tiles: seq<seq<Pipe>>) returns (r: Option<nat>)
    ensures r == Part2Answer(tiles)
  {
    var g := NewGrid(tiles);
    if g.None? {
      return None;
    }
    var l := FindLoop(g.value);
    if l.None? {
      return None;
    }
    LoopOnGrid(g.value);
    var cells := RestoreLoop(g.value.cells, l.value);
    var rows: seq<seq<Pipe>> := [];
    for j := 0 to |cells|
      invariant ScanAll(cells[..j]) == Some(rows)
    {
      assert cells[..j + 1][..j] == cells[..j];
      var row := ScanRow(cells[j]);
      if row.None? {
        return None;
      }
      rows := rows + [row.value];
    }
    assert cells[..|cells|] == cells;
    var total := CountMarked(rows);
    return Some(total);
  }
}
