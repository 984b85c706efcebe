/** Engine schematic: numbers are maximal runs of digits on a row of the
    grid. Part 1 sums the numbers that touch a symbol (anything that is
    neither a digit nor '.') in one of the eight surrounding cells; part 2
    finds the '*' cells next to exactly two numbers and sums the products of
    those pairs. The scan bounds rows by the length of the first row and
    columns by the number of rows, so the grid must be square. */
module Day03 {
  import opened Common

  type Grid = seq<seq<char>>

  /** The scan indexes `grid[j][i]` with `j < grid[0].len()` and
      `i < grid.len()`: it is only meaningful on a non-empty square grid. */
  predicate Square(grid: Grid)
  {
    |grid| > 0 && forall r :: 0 <= r < |grid| ==> |grid[r]| == |grid|
  }

  predicate IsDigit(c: char) { '0' <= c <= '9' }

  predicate IsSymbol(c: char) { !IsDigit(c) && c != '.' }

  function DigitValue(c: char): nat
    requires IsDigit(c)
  {
    (c - '0') as nat
  }

  /** Decimal reading of the digits `row[s..e]`. */
  function DecimalValue(row: seq<char>, s: nat, e: nat): nat
    requires s <= e <= |row| && forall k :: s <= k < e ==> IsDigit(row[k])
    decreases e - s
  {
    if e == s then 0 else DecimalValue(row, s, e - 1) * 10 + DigitValue(row[e - 1])
  }

  /** Cell (y, x) is one of the eight cells around (j, i). */
  predicate Adjacent(j: int, i: int, y: int, x: int)
  {
    -1 <= y - j <= 1 && -1 <= x - i <= 1 && (y != j || x != i)
  }

  /** The eight guarded `is_connected` tests around (j, i). */
  function SymbolNextTo(grid: Grid, j: nat, i: nat): (b: bool)
    requires Square(grid) && j < |grid| && i < |grid|
    ensures b <==> exists y, x :: 0 <= y < |grid| && 0 <= x < |grid| && Adjacent(j, i, y, x)
                                 && IsSymbol(grid[y][x])
  {
    var n := |grid|;
    var b := (i > 0 && j > 0 && IsSymbol(grid[j - 1][i - 1]))
      || (i > 0 && IsSymbol(grid[j][i - 1]))
      || (i > 0 && j < n - 1 && IsSymbol(grid[j + 1][i - 1]))
      || (j > 0 && IsSymbol(grid[j - 1][i]))
      || (j < n - 1 && IsSymbol(grid[j + 1][i]))
      || (i < n - 1 && j > 0 && IsSymbol(grid[j - 1][i + 1]))
      || (i < n - 1 && IsSymbol(grid[j][i + 1]))
      || (i < n - 1 && j < n - 1 && IsSymbol(grid[j + 1][i + 1]));
    assert b <== exists y, x :: 0 <= y < n && 0 <= x < n && Adjacent(j, i, y, x) && IsSymbol(grid[y][x]) by {
      if exists y, x :: 0 <= y < n && 0 <= x < n && Adjacent(j, i, y, x) && IsSymbol(grid[y][x]) {
        var y, x :| 0 <= y < n && 0 <= x < n && Adjacent(j, i, y, x) && IsSymbol(grid[y][x]);
        assert y == j - 1 || y == j || y == j + 1;
        assert x == i - 1 || x == i || x == i + 1;
      }
    }
    b
  }

  /** A maximal run of digits starts at `i`. */
  predicate IsRunStart(row: seq<char>, i: nat)
    requires i < |row|
  {
    IsDigit(row[i]) && (i == 0 || !IsDigit(row[i - 1]))
  }

  /** End (exclusive) of the run of digits that begins at `i`. */
  function RunEnd(row: seq<char>, i: nat): (e: nat)
    requires i <= |row|
    ensures i <= e <= |row|
    ensures forall k :: i <= k < e ==> IsDigit(row[k])
    ensures e == |row| || !IsDigit(row[e])
    decreases |row| - i
  {
    if i == |row| || !IsDigit(row[i]) then i else RunEnd(row, i + 1)
  }

  /** Some digit of the run `[s, e)` on row `j` touches a symbol. */
  predicate RunConnected(grid: Grid, j: nat, s: nat, e: nat)
    requires Square(grid) && j < |grid| && e <= |grid|
  {
    exists k :: s <= k < e && SymbolNextTo(grid, j, k)
  }

  /** The part numbers of row `j` whose run starts before column `i`, in
      order: every maximal run that touches a symbol, read as a number. */
  function RowNumbers(grid: Grid, j: nat, i: nat): seq<nat>
    requires Square(grid) && j < |grid| && i <= |grid|
  {
    if i == 0 then []
    else
      var s := i - 1;
      var row := grid[j];
      RowNumbers(grid, j, s)
        + (if IsRunStart(row, s) && RunConnected(grid, j, s, RunEnd(row, s))
           then [DecimalValue(row, s, RunEnd(row, s))] else [])
  }

  /** The part numbers of the rows before `j`. */
  function NumbersBefore(grid: Grid, j: nat): seq<nat>
    requires Square(grid) && j <= |grid|
  {
    if j == 0 then [] else NumbersBefore(grid, j - 1) + RowNumbers(grid, j - 1, |grid|)
  }

  /** No run starts strictly inside a run or on the cell that ends it, so
      skipping from a run's start to one past its end loses no number. */
  lemma {:induction false} SkipRun(grid: Grid, j: nat, s: nat, t: nat)
    requires Square(grid) && j < |grid| && s < t <= |grid|
    requires forall k :: s <= k < t - 1 ==> IsDigit(grid[j][k])
    ensures RowNumbers(grid, j, t) == RowNumbers(grid, j, s + 1)
    decreases t - s
  {
    if t > s + 1 {
      SkipRun(grid, j, s, t - 1);
      assert !IsRunStart(grid[j], t - 1);
    }
  }

  /** The digit-by-digit loop of the scan: from the start `s` of a run it
      reads the number and notes whether any digit touches a symbol, and
      stops on the first non-digit or at the end of the row. */
  method ReadRun(grid: Grid, j: nat, s: nat) returns (e: nat, number: nat, connected: bool)
    requires Square(grid) && j < |grid| && s < |grid|
    ensures e == RunEnd(grid[j], s)
    ensures number == DecimalValue(grid[j], s, e)
    ensures connected <==> RunConnected(grid, j, s, e)
  {
    var n := |grid|;
    var row := grid[j];
    e, number, connected := s, 0, false;
    while e < n
      invariant s <= e <= n
      invariant forall k :: s <= k < e ==> IsDigit(row[k])
      invariant number == DecimalValue(row, s, e)
      invariant connected <==> RunConnected(grid, j, s, e)
      decreases n - e
    {
      if IsDigit(row[e]) {
        number := number * 10 + DigitValue(row[e]);
        if SymbolNextTo(grid, j, e) {
          connected := true;
        }
        assert RunConnected(grid, j, s, e + 1) <==> RunConnected(grid, j, s, e) || SymbolNextTo(grid, j, e);
      } else {
        break;
      }
      e := e + 1;
    }
  }

  /** The scan of one row. The `panic!` of the source is unreachable:
      whenever the scan meets a digit, the cell to its left is not a digit. */
  method RowPartNumbers(grid: Grid, j: nat) returns (numbers: seq<nat>)
    requires Square(grid) && j < |grid|
    ensures numbers == RowNumbers(grid, j, |grid|)
  {
    var n := |grid|;
    var row := grid[j];
    numbers := [];
    var i := 0;
    while i < n
      invariant 0 <= i <= n + 1
      invariant 0 < i < n ==> !IsDigit(row[i - 1])
      invariant numbers == RowNumbers(grid, j, if i <= n then i else n)
    {
      if IsDigit(row[i]) {
        if i == 0 || !IsDigit(row[i - 1]) {
          var s := i;
          var number, connected;
          i, number, connected := ReadRun(grid, j, s);
          NumbersAtStart(grid, j, s, i, number, connected);
          if connected {
            numbers := numbers + [number];
          }
          NumbersPastRun(grid, j, s, i);
        } else {
          assert false;
        }
      } else {
        NumbersPlain(grid, j, i);
      }
      i := i + 1;
    }
  }

  /** One step of the scan on a cell that starts a run. */
  lemma NumbersAtStart(grid: Grid, j: nat, s: nat, e: nat, number: nat, connected: bool)
    requires Square(grid) && j < |grid| && s < |grid| && IsRunStart(grid[j], s)
    requires e == RunEnd(grid[j], s) && number == DecimalValue(grid[j], s, e)
    requires connected <==> RunConnected(grid, j, s, e)
    ensures RowNumbers(grid, j, s + 1) == RowNumbers(grid, j, s) + (if connected then [number] else [])
  {
  }

  /** Jumping from the start of a run to one past the cell that ends it. */
  lemma NumbersPastRun(grid: Grid, j: nat, s: nat, e: nat)
    requires Square(grid) && j < |grid| && s < |grid| && e == RunEnd(grid[j], s)
    ensures RowNumbers(grid, j, if e < |grid| then e + 1 else |grid|) == RowNumbers(grid, j, s + 1)
  {
    if e < |grid| {
      SkipRun(grid, j, s, e + 1);
    } else {
      SkipRun(grid, j, s, |grid|);
    }
  }

  /** One step of the scan on a cell that holds no digit. */
  lemma NumbersPlain(grid: Grid, j: nat, i: nat)
    requires Square(grid) && j < |grid| && i < |grid| && !IsDigit(grid[j][i])
    ensures RowNumbers(grid, j, i + 1) == RowNumbers(grid, j, i)
  {
  }

  /** Part 1: the part numbers of all rows in scan order, and their sum. */
  method Part1(grid: Grid) returns (numbers: seq<nat>, total: int)
    requires Square(grid)
    ensures numbers == NumbersBefore(grid, |grid|)
    ensures total == Sum(numbers)
  {
    numbers := [];
    var j := 0;
    while j < |grid|
      invariant 0 <= j <= |grid|
      invariant numbers == NumbersBefore(grid, j)
    {
      var more := RowPartNumbers(grid, j);
      numbers := numbers + more;
      j := j + 1;
    }
    total := SumOf(numbers);
  }

  // ---------------------------------------------------------------- part 2

  /** A number's place: its row and the inclusive column range of its run. */
  datatype Run = Run(row: nat, start: nat, end: nat)

  /** First column of the run of digits that contains column `i`. */
  function RunStartAt(row: seq<char>, i: nat): (s: nat)
    requires i < |row| && IsDigit(row[i])
    ensures s <= i && (s == 0 || !IsDigit(row[s - 1]))
    ensures forall k :: s <= k <= i ==> IsDigit(row[k])
  {
    if i == 0 || !IsDigit(row[i - 1]) then i else RunStartAt(row, i - 1)
  }

  /** Last column of the run of digits that contains column `i`. */
  function RunLastAt(row: seq<char>, i: nat): (e: nat)
    requires i < |row| && IsDigit(row[i])
    ensures i <= e < |row| && (e == |row| - 1 || !IsDigit(row[e + 1]))
    ensures forall k :: i <= k <= e ==> IsDigit(row[k])
    decreases |row| - i
  {
    if i == |row| - 1 || !IsDigit(row[i + 1]) then i else RunLastAt(row, i + 1)
  }

  function RunAt(grid: Grid, j: nat, i: nat): Run
    requires j < |grid| && i < |grid[j]| && IsDigit(grid[j][i])
  {
    Run(j, RunStartAt(grid[j], i), RunLastAt(grid[j], i))
  }

  /** Two digits joined by digits lie in the same run, so the set of runs
      around a gear holds each neighbouring number once. */
  lemma {:induction false} SameRun(row: seq<char>, a: nat, b: nat)
    requires a <= b < |row| && forall k :: a <= k <= b ==> IsDigit(row[k])
    ensures RunStartAt(row, a) == RunStartAt(row, b)
    ensures RunLastAt(row, a) == RunLastAt(row, b)
    decreases b - a
  {
    if a < b {
      SameRun(row, a, b - 1);
      assert RunStartAt(row, b) == RunStartAt(row, b - 1);
      SameRunLast(row, a, b);
    }
  }

  lemma {:induction false} SameRunLast(row: seq<char>, a: nat, b: nat)
    requires a <= b < |row| && forall k :: a <= k <= b ==> IsDigit(row[k])
    ensures RunLastAt(row, a) == RunLastAt(row, b)
    decreases b - a
  {
    if a < b {
      SameRunLast(row, a + 1, b);
    }
  }

  /** The `find_number_range` closure: widen from `i` to the left and to the
      right while the neighbour is a digit. */
  method FindNumberRange(grid: Grid, j: nat, i: nat) returns (r: Run)
    requires Square(grid) && j < |grid| && i < |grid| && IsDigit(grid[j][i])
    ensures r == RunAt(grid, j, i)
    ensures r.start <= i <= r.end < |grid|
  {
    var row := grid[j];
    var start: nat, end: nat := i, i;
    while start > 0
      invariant start <= i && forall k :: start <= k <= i ==> IsDigit(row[k])
      invariant RunStartAt(row, start) == RunStartAt(row, i)
    {
      if IsDigit(row[start - 1]) {
        start := start - 1;
        SameRun(row, start, i);
      } else {
        break;
      }
    }
    while end < |grid| - 1
      invariant i <= end < |grid| && forall k :: i <= k <= end ==> IsDigit(row[k])
      invariant RunLastAt(row, end) == RunLastAt(row, i)
    {
      if IsDigit(row[end + 1]) {
        end := end + 1;
        SameRunLast(row, i, end);
      } else {
        break;
      }
    }
    r := Run(j, start, end);
  }

  /** The eight neighbours as (row, column) offsets, in the order the
      source tests them; the guards `i > 0`, `j < col_sz - 1`, ... are the
      bounds checks of `InGrid`. */
  const Offsets: seq<(int, int)> := [(-1, -1), (0, -1), (1, -1), (-1, 0), (1, 0), (-1, 1), (0, 1), (1, 1)]

  predicate InGrid(grid: Grid, y: int, x: int)
  {
    0 <= y < |grid| && 0 <= x < |grid|
  }

  /** The `d`-th neighbour test of (j, i) finds a digit. */
  predicate OffsetHit(grid: Grid, j: nat, i: nat, d: nat)
    requires Square(grid) && d < 8
  {
    var y, x := j + Offsets[d].0, i + Offsets[d].1;
    InGrid(grid, y, x) && IsDigit(grid[y][x])
  }

  function OffsetRun(grid: Grid, j: nat, i: nat, d: nat): Run
    requires Square(grid) && d < 8 && OffsetHit(grid, j, i, d)
  {
    RunAt(grid, j + Offsets[d].0, i + Offsets[d].1)
  }

  /** The runs found by the first `d` neighbour tests of (j, i). */
  function OffsetRuns(grid: Grid, j: nat, i: nat, d: nat): set<Run>
    requires Square(grid) && d <= 8
  {
    set e | 0 <= e < d && OffsetHit(grid, j, i, e) :: OffsetRun(grid, j, i, e)
  }

  /** Reference definition: the runs holding a digit in one of the eight
      cells around (j, i). */
  function NeighbourRuns(grid: Grid, j: nat, i: nat): set<Run>
    requires Square(grid)
  {
    set y, x | 0 <= y < |grid| && 0 <= x < |grid| && Adjacent(j, i, y, x) && IsDigit(grid[y][x]) :: RunAt(grid, y, x)
  }

  /** Which of the eight tests looks at the adjacent cell (y, x). */
  lemma {:induction false} TestOfNeighbour(grid: Grid, j: nat, i: nat, y: int, x: int) returns (d: nat)
    requires Square(grid) && InGrid(grid, y, x) && Adjacent(j, i, y, x) && IsDigit(grid[y][x])
    ensures d < 8 && OffsetHit(grid, j, i, d) && OffsetRun(grid, j, i, d) == RunAt(grid, y, x)
  {
    d := if y == j - 1 && x == i - 1 then 0 else if y == j && x == i - 1 then 1
      else if y == j + 1 && x == i - 1 then 2 else if y == j - 1 && x == i then 3
      else if y == j + 1 && x == i then 4 else if y == j - 1 && x == i + 1 then 5
      else if y == j && x == i + 1 then 6 else 7;
    assert (y, x) == (j + Offsets[d].0, i + Offsets[d].1);
  }

  /** Every run found by one of the eight tests holds an adjacent digit. */
  lemma {:induction false} NeighbourOfTest(grid: Grid, j: nat, i: nat, d: nat)
    requires Square(grid) && d < 8 && OffsetHit(grid, j, i, d)
    ensures OffsetRun(grid, j, i, d) in NeighbourRuns(grid, j, i)
  {
    var y: nat, x: nat := j + Offsets[d].0, i + Offsets[d].1;
    assert Adjacent(j, i, y, x);
    assert 0 <= y < |grid| && 0 <= x < |grid| && IsDigit(grid[y][x]);
  }

  /** The eight tests cover exactly the adjacent cells. */
  lemma {:induction false} OffsetsAreNeighbours(grid: Grid, j: nat, i: nat)
    requires Square(grid)
    ensures OffsetRuns(grid, j, i, 8) == NeighbourRuns(grid, j, i)
  {
    forall r | r in NeighbourRuns(grid, j, i)
      ensures r in OffsetRuns(grid, j, i, 8)
    {
      var y, x :| 0 <= y < |grid| && 0 <= x < |grid| && Adjacent(j, i, y, x) && IsDigit(grid[y][x]) && r == RunAt(grid, y, x);
      var d := TestOfNeighbour(grid, j, i, y, x);
    }
    forall d | 0 <= d < 8 && OffsetHit(grid, j, i, d)
      ensures OffsetRun(grid, j, i, d) in NeighbourRuns(grid, j, i)
    {
      NeighbourOfTest(grid, j, i, d);
    }
  }

  predicate ValidRun(grid: Grid, r: Run)
  {
    r.row < |grid| && r.start <= r.end < |grid[r.row]|
    && forall k :: r.start <= k <= r.end ==> IsDigit(grid[r.row][k])
  }

  /** The number a run spells (`parse::<u32>` of its characters). */
  function RunValue(grid: Grid, r: Run): nat
    requires ValidRun(grid, r)
  {
    DecimalValue(grid[r.row], r.start, r.end + 1)
  }

  /** The ratio of a gear: the product of its two numbers. */
  ghost function GearRatio(grid: Grid, runs: set<Run>): nat
    requires |runs| == 2 && forall r :: r in runs ==> ValidRun(grid, r)
  {
    var a :| a in runs;
    assert |runs - {a}| == 1;
    var b :| b in runs - {a};
    RunValue(grid, a) * RunValue(grid, b)
  }

  /** Whichever order the two runs are taken in, the product is the same. */
  lemma GearRatioAnyOrder(grid: Grid, runs: set<Run>, a: Run, b: Run)
    requires |runs| == 2 && forall r :: r in runs ==> ValidRun(grid, r)
    requires a in runs && b in runs && a != b
    ensures GearRatio(grid, runs) == RunValue(grid, a) * RunValue(grid, b)
  {
    PairIs(runs, a, b);
    assert RunValue(grid, a) * RunValue(grid, b) == RunValue(grid, b) * RunValue(grid, a);
  }

  /** A two-element set holding distinct `a` and `b` is `{a, b}`. */
  lemma PairIs<T>(s: set<T>, a: T, b: T)
    requires |s| == 2 && a in s && b in s && a != b
    ensures s == {a, b}
  {
    assert |{a, b}| == 2;
    assert |s - {a, b}| == 0;
  }

  lemma NeighbourRunsValid(grid: Grid, j: nat, i: nat)
    requires Square(grid)
    ensures forall r :: r in NeighbourRuns(grid, j, i) ==> ValidRun(grid, r)
  {
  }

  /** Gear ratios of the '*' cells of row `j` before column `i`. */
  ghost function RowRatios(grid: Grid, j: nat, i: nat): seq<nat>
    requires Square(grid) && j < |grid| && i <= |grid|
  {
    if i == 0 then []
    else
      RowRatios(grid, j, i - 1) + CellRatio(grid, j, i - 1)
  }

  /** The ratio contributed by cell (j, i): one if it is a gear. */
  ghost function CellRatio(grid: Grid, j: nat, i: nat): seq<nat>
    requires Square(grid) && j < |grid| && i < |grid|
  {
    var runs := NeighbourRuns(grid, j, i);
    NeighbourRunsValid(grid, j, i);
    if grid[j][i] == '*' && |runs| == 2 then [GearRatio(grid, runs)] else []
  }

  ghost function RatiosBefore(grid: Grid, j: nat): seq<nat>
    requires Square(grid) && j <= |grid|
  {
    if j == 0 then [] else RatiosBefore(grid, j - 1) + RowRatios(grid, j - 1, |grid|)
  }

  /** The runs gathered by the eight tests around (j, i), each widened by
      `find_number_range` and inserted into a set. */
  method CollectRuns(grid: Grid, j: nat, i: nat) returns (runs: set<Run>)
    requires Square(grid) && j < |grid| && i < |grid|
    ensures runs == NeighbourRuns(grid, j, i)
  {
    runs := {};
    for d := 0 to 8
      invariant runs == OffsetRuns(grid, j, i, d)
    {
      var y, x := j + Offsets[d].0, i + Offsets[d].1;
      if InGrid(grid, y, x) && IsDigit(grid[y][x]) {
        var r := FindNumberRange(grid, y, x);
        runs := runs + {r};
      }
      assert OffsetRuns(grid, j, i, d + 1) == OffsetRuns(grid, j, i, d)
        + (if OffsetHit(grid, j, i, d) then {OffsetRun(grid, j, i, d)} else {});
    }
    OffsetsAreNeighbours(grid, j, i);
  }

  /** Takes the two numbers of a gear out of the set and multiplies them. */
  method PairProduct(grid: Grid, runs: set<Run>) returns (ratio: nat)
    requires |runs| == 2 && forall r :: r in runs ==> ValidRun(grid, r)
    ensures ratio == GearRatio(grid, runs)
  {
    var a :| a in runs;
    assert |runs - {a}| == 1;
    var b :| b in runs - {a};
    GearRatioAnyOrder(grid, runs, a, b);
    ratio := RunValue(grid, a) * RunValue(grid, b);
  }

  /** The test of one cell: a '*' whose neighbours hold exactly two
      distinct numbers yields their product. */
  method GearAt(grid: Grid, j: nat, i: nat) returns (ratio: seq<nat>)
    requires Square(grid) && j < |grid| && i < |grid|
    ensures ratio == CellRatio(grid, j, i)
  {
    ratio := [];
    if grid[j][i] == '*' {
      var runs := CollectRuns(grid, j, i);
      NeighbourRunsValid(grid, j, i);
      if |runs| == 2 {
        var product := PairProduct(grid, runs);
        ratio := [product];
      }
    }
  }

  lemma RowRatiosStep(grid: Grid, j: nat, i: nat, ratios: seq<nat>, cell: seq<nat>)
    requires Square(grid) && j < |grid| && i < |grid|
    requires ratios == RowRatios(grid, j, i) && cell == CellRatio(grid, j, i)
    ensures ratios + cell == RowRatios(grid, j, i + 1)
  {
  }

  lemma RatiosBeforeStep(grid: Grid, j: nat, ratios: seq<nat>, more: seq<nat>)
    requires Square(grid) && j < |grid|
    requires ratios == RatiosBefore(grid, j) && more == RowRatios(grid, j, |grid|)
    ensures ratios + more == RatiosBefore(grid, j + 1)
  {
  }

  /** The gear ratios of row `j`: each '*' whose neighbours hold exactly
      two distinct numbers contributes their product. */
  method RowGearRatios(grid: Grid, j: nat) returns (ratios: seq<nat>)
    requires Square(grid) && j < |grid|
    ensures ratios == RowRatios(grid, j, |grid|)
  {
    ratios := [];
    var i := 0;
    while i < |grid|
      invariant 0 <= i <= |grid|
      invariant ratios == RowRatios(grid, j, i)
    {
      var cell := GearAt(grid, j, i);
      RowRatiosStep(grid, j, i, ratios, cell);
      ratios := ratios + cell;
      i := i + 1;
    }
  }

  /** Part 2: the gear ratios in scan order, and their sum. */
  method Part2(grid: Grid) returns (ratios: seq<nat>, total: int)
    requires Square(grid)
    ensures ratios == RatiosBefore(grid, |grid|)
    ensures total == Sum(ratios)
  {
    ratios := [];
    var j := 0;
    while j < |grid|
      invariant 0 <= j <= |grid|
      invariant ratios == RatiosBefore(grid, j)
    {
      var more := RowGearRatios(grid, j);
      RatiosBeforeStep(grid, j, ratios, more);
      ratios := ratios + more;
      j := j + 1;
    }
    total := SumOf(ratios);
  }
}
