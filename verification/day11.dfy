/** Day 11: galaxies in an image of space. Rows and columns holding no
    galaxy are wider than they look: part 1 doubles them by inserting
    copies, part 2 marks them and charges a million per crossing. The
    answer is the sum of the Manhattan distances over all pairs of
    galaxies. */
module Day11 {
  import opened Common

  // ----------------------------------------------------------------- tiles

  datatype Tile = Empty | Galaxy

  /** The character conversion of the parser; any other character panics. */
  function TileFromChar(c: char): Option<Tile>
  {
    if c == '.' then Some(Empty) else if c == '#' then Some(Galaxy) else None
  }

  function TileChar(t: Tile): char
  {
    match t
    case Empty => '.'
    case Galaxy => '#'
  }

  lemma TileCharRoundTrip(t: Tile, c: char)
    ensures TileFromChar(c) == Some(t) <==> TileChar(t) == c
    ensures TileFromChar(TileChar(t)) == Some(t)
  {
  }

  /** One input line as tiles; `None` at the first unknown character. */
  function ParseRow(line: string): (r: Option<seq<Tile>>)
    ensures r.Some? <==> forall i :: 0 <= i < |line| ==> TileFromChar(line[i]).Some?
    ensures r.Some? ==> (|r.value| == |line| &&
      forall i :: 0 <= i < |line| ==> Some(r.value[i]) == TileFromChar(line[i]))
  {
    if line == [] then Some([])
    else
      var init := ParseRow(line[..|line| - 1]);
      var last := TileFromChar(line[|line| - 1]);
      if init.None? || last.None? then None else Some(init.value + [last.value])
  }

  // ------------------------------------------------- increasing index lists

  predicate Increasing(idx: seq<nat>)
  {
    forall i, j :: 0 <= i < j < |idx| ==> idx[i] < idx[j]
  }

  /** Strictly increasing positions, all below `n`. */
  predicate Slots(idx: seq<nat>, n: nat)
  {
    Increasing(idx) && forall i :: 0 <= i < |idx| ==> idx[i] < n
  }

  /** The positions below `n` where `p` holds, in increasing order (an
      `enumerate().filter_map(...)` or a `filter` over a range). */
  function Where(p: nat -> bool, n: nat): (r: seq<nat>)
    ensures Slots(r, n)
    ensures forall i :: 0 <= i < n ==> (i in r <==> p(i))
  {
    if n == 0 then [] else Where(p, n - 1) + (if p(n - 1) then [n - 1] else [])
  }

  /** Two filters that agree below `n` list the same positions. */
  lemma {:induction false} WhereSame(p: nat -> bool, q: nat -> bool, n: nat)
    requires forall i :: 0 <= i < n ==> p(i) == q(i)
    ensures Where(p, n) == Where(q, n)
  {
    if n > 0 {
      WhereSame(p, q, n - 1);
    }
  }

  /** A row holding nothing but empty space. */
  predicate AllEmpty(row: seq<Tile>)
  {
    forall x :: 0 <= x < |row| ==> row[x] == Empty
  }

  /** The indices of the rows that are all empty, in order. */
  function EmptyRows(space: seq<seq<Tile>>): seq<nat>
  {
    Where((y: nat) => y < |space| && AllEmpty(space[y]), |space|)
  }

  /** Every row reaches column `w` (otherwise indexing it panics). */
  predicate Wide<T>(space: seq<seq<T>>, w: nat)
  {
    forall y :: 0 <= y < |space| ==> w <= |space[y]|
  }

  /** The `fold` over the rows: column `c` is empty in every row. */
  predicate ColumnEmpty(space: seq<seq<Tile>>, c: nat)
    requires Wide(space, c + 1)
  {
    forall y :: 0 <= y < |space| ==> space[y][c] == Empty
  }

  /** The filter's test on column `c`. */
  function ColumnTest(space: seq<seq<Tile>>, w: nat): nat -> bool
    requires Wide(space, w)
  {
    (c: nat) => c < w && ColumnEmpty(space, c)
  }

  /** `(0..row_length).filter(...)`: the empty columns, in order. */
  function EmptyColumns(space: seq<seq<Tile>>, w: nat): seq<nat>
    requires Wide(space, w)
  {
    Where(ColumnTest(space, w), w)
  }

  // ------------------------------------------- inserting before positions

  /** `xs` from position `lo` on, with `fill` inserted before each position
      listed in `idx`. */
  function StretchFrom<T>(xs: seq<T>, idx: seq<nat>, fill: T, lo: nat): seq<T>
    decreases |xs| - lo
  {
    if lo >= |xs| then [] else (if lo in idx then [fill, xs[lo]] else [xs[lo]]) + StretchFrom(xs, idx, fill, lo + 1)
  }

  function Stretch<T>(xs: seq<T>, idx: seq<nat>, fill: T): seq<T>
  {
    StretchFrom(xs, idx, fill, 0)
  }

  /** Where nothing is inserted, the stretched suffix starts with the
      original elements. */
  lemma {:induction false} StretchPlain<T>(xs: seq<T>, idx: seq<nat>, fill: T, j: nat, m: nat)
    requires j <= m <= |xs|
    requires forall i :: j <= i < m ==> i !in idx
    ensures StretchFrom(xs, idx, fill, j) == xs[j..m] + StretchFrom(xs, idx, fill, m)
    decreases m - j
  {
    if j < m {
      assert StretchFrom(xs, idx, fill, j) == [xs[j]] + StretchFrom(xs, idx, fill, j + 1);
      StretchPlain(xs, idx, fill, j + 1, m);
      assert xs[j..m] == [xs[j]] + xs[j + 1..m];
    }
  }

  /** The part still untouched when only the positions `idx[k..]` have had
      their insertion, the last one first. */
  function Bound(n: nat, idx: seq<nat>, k: nat): nat
  {
    if k >= |idx| then n else idx[k]
  }

  function Partial<T>(xs: seq<T>, idx: seq<nat>, fill: T, k: nat): seq<T>
    requires Slots(idx, |xs|)
  {
    xs[..Bound(|xs|, idx, k)] + StretchFrom(xs, idx, fill, Bound(|xs|, idx, k))
  }

  lemma PartialNone<T>(xs: seq<T>, idx: seq<nat>, fill: T)
    requires Slots(idx, |xs|)
    ensures Partial(xs, idx, fill, |idx|) == xs
  {
    assert xs[..|xs|] == xs;
  }

  lemma PartialAll<T>(xs: seq<T>, idx: seq<nat>, fill: T)
    requires Slots(idx, |xs|)
    ensures Partial(xs, idx, fill, 0) == Stretch(xs, idx, fill)
  {
    var b := Bound(|xs|, idx, 0);
    StretchPlain(xs, idx, fill, 0, b);
    assert xs[..b] == xs[0..b];
  }

  /** One `insert` at the next position, walking `idx` backwards, extends
      the stretched part by one insertion. */
  lemma InsertStep<T>(xs: seq<T>, idx: seq<nat>, fill: T, k: nat)
    requires Slots(idx, |xs|) && 0 < k <= |idx|
    ensures idx[k - 1] <= |Partial(xs, idx, fill, k)|
    ensures var ys := Partial(xs, idx, fill, k);
      ys[..idx[k - 1]] + [fill] + ys[idx[k - 1]..] == Partial(xs, idx, fill, k - 1)
  {
    var b := Bound(|xs|, idx, k);
    var m := idx[k - 1];
    assert m < b;
    var rest := StretchFrom(xs, idx, fill, b);
    CutInside(xs, b, m, rest);
    forall t | 0 <= t < |idx|
      ensures idx[t] <= m || b <= idx[t]
    {
    }
    StretchPlain(xs, idx, fill, m + 1, b);
    assert m in idx;
    var tail := StretchFrom(xs, idx, fill, m + 1);
    assert StretchFrom(xs, idx, fill, m) == [fill, xs[m]] + tail;
    InsertSplice(xs[..m], fill, xs[m], xs[m + 1..b], rest);
  }

  /** Cutting `xs[..b] + rest` at `m < b`: the parts on each side. */
  lemma CutInside<T>(xs: seq<T>, b: nat, m: nat, rest: seq<T>)
    requires m < b <= |xs|
    ensures (xs[..b] + rest)[..m] == xs[..m]
    ensures (xs[..b] + rest)[m..] == [xs[m]] + xs[m + 1..b] + rest
  {
    assert xs[m..b] == [xs[m]] + xs[m + 1..b];
  }

  /** Inserting `fill` between a prefix and `[x] + mid + rest`. */
  lemma InsertSplice<T>(pre: seq<T>, fill: T, x: T, mid: seq<T>, rest: seq<T>)
    ensures pre + [fill] + ([x] + mid + rest) == pre + ([fill, x] + (mid + rest))
  {
  }

  /** `idx.iter().rev().for_each(|i| v.insert(*i, fill))`. */
  method InsertBefore<T>(xs: seq<T>, idx: seq<nat>, fill: T) returns (ys: seq<T>)
    requires Slots(idx, |xs|)
    ensures ys == Stretch(xs, idx, fill)
  {
    ys := xs;
    PartialNone(xs, idx, fill);
    var k := |idx|;
    while k > 0
      invariant 0 <= k <= |idx|
      invariant ys == Partial(xs, idx, fill, k)
    {
      InsertStep(xs, idx, fill, k);
      var at := idx[k - 1];
      ys := ys[..at] + [fill] + ys[at..];
      k := k - 1;
    }
    PartialAll(xs, idx, fill);
  }

  /** Every element of a stretched sequence is an original element or the
      filler, and every original element is kept. */
  lemma {:induction false} StretchMembers<T>(xs: seq<T>, idx: seq<nat>, fill: T, lo: nat)
    ensures forall z :: z in StretchFrom(xs, idx, fill, lo) ==> z == fill || z in xs
    ensures forall i :: lo <= i < |xs| ==> xs[i] in StretchFrom(xs, idx, fill, lo)
    decreases |xs| - lo
  {
    if lo < |xs| {
      StretchMembers(xs, idx, fill, lo + 1);
    }
  }

  // ------------------------------------------------------- part 1: expand

  /** `vec![Tile::Empty; row_length]`. */
  function Blank(w: nat): (r: seq<Tile>)
    ensures |r| == w && AllEmpty(r)
  {
    seq(w, _ => Empty)
  }

  /** Doubling the empty rows keeps every row at least `w` wide exactly
      when the input was. */
  lemma StretchRowsWide(space: seq<seq<Tile>>, w: nat)
    ensures Wide(Stretch(space, EmptyRows(space), Blank(w)), w) <==> Wide(space, w)
  {
    var rows := Stretch(space, EmptyRows(space), Blank(w));
    StretchMembers(space, EmptyRows(space), Blank(w), 0);
    if Wide(space, w) {
      forall y | 0 <= y < |rows|
        ensures w <= |rows[y]|
      {
        assert rows[y] in rows;
      }
    }
    if Wide(rows, w) {
      forall y | 0 <= y < |space|
        ensures w <= |space[y]|
      {
        var j :| 0 <= j < |rows| && rows[j] == space[y];
      }
    }
  }

  /** Every row with an `Empty` inserted before each listed column. */
  function Widened(rows: seq<seq<Tile>>, cols: seq<nat>): (r: seq<seq<Tile>>)
    ensures |r| == |rows| && forall y :: 0 <= y < |rows| ==> r[y] == Stretch(rows[y], cols, Empty)
  {
    seq(|rows|, y requires 0 <= y < |rows| => Stretch(rows[y], cols, Empty))
  }

  /** Part 1's expanded image: each empty row doubled (a blank row of the
      first row's width inserted before it), then each empty column. */
  function Expanded(space: seq<seq<Tile>>, w: nat): seq<seq<Tile>>
    requires Wide(space, w)
  {
    var rows := Stretch(space, EmptyRows(space), Blank(w));
    StretchRowsWide(space, w);
    Widened(rows, EmptyColumns(rows, w))
  }

  /** `empty_vertical.iter().rev()` inserting into every row in turn. */
  method ExpandColumns(rows: seq<seq<Tile>>, cols: seq<nat>, w: nat) returns (g: seq<seq<Tile>>)
    requires Wide(rows, w) && Slots(cols, w)
    ensures g == Widened(rows, cols)
  {
    assert forall y :: 0 <= y < |rows| ==> Slots(cols, |rows[y]|);
    g := rows;
    forall y | 0 <= y < |rows|
      ensures g[y] == Partial(rows[y], cols, Empty, |cols|)
    {
      PartialNone(rows[y], cols, Empty);
    }
    var k := |cols|;
    while k > 0
      invariant 0 <= k <= |cols| && |g| == |rows|
      invariant forall y :: 0 <= y < |rows| ==> g[y] == Partial(rows[y], cols, Empty, k)
    {
      var at := cols[k - 1];
      var y := 0;
      while y < |g|
        invariant 0 <= y <= |g| == |rows|
        invariant forall b :: 0 <= b < y ==> g[b] == Partial(rows[b], cols, Empty, k - 1)
        invariant forall b :: y <= b < |rows| ==> g[b] == Partial(rows[b], cols, Empty, k)
      {
        InsertStep(rows[y], cols, Empty, k);
        g := g[y := g[y][..at] + [Empty] + g[y][at..]];
        y := y + 1;
      }
      k := k - 1;
    }
    forall y | 0 <= y < |rows|
      ensures g[y] == Stretch(rows[y], cols, Empty)
    {
      PartialAll(rows[y], cols, Empty);
    }
  }

  // ------------------------------------------------------------- galaxies

  /** An `(x, y)` position. */
  type Coord = (nat, nat)

  /** The galaxies of one row, `x` counted from `off`, left to right. */
  function RowGalaxies(s: seq<Tile>, y: nat, off: nat): seq<Coord>
  {
    if s == [] then [] else (if s[0] == Galaxy then [(off, y)] else []) + RowGalaxies(s[1..], y, off + 1)
  }

  /** The galaxies of the rows, `y` counted from `off`, in reading order. */
  function GridGalaxies(space: seq<seq<Tile>>, off: nat): seq<Coord>
  {
    if space == [] then [] else RowGalaxies(space[0], off, 0) + GridGalaxies(space[1..], off + 1)
  }

  /** The `flat_map` listing every galaxy as `(x, y)`. */
  function Galaxies(space: seq<seq<Tile>>): seq<Coord>
  {
    GridGalaxies(space, 0)
  }

  // ------------------------------------------------------------ distances

  function AbsDiff(a: nat, b: nat): nat
  {
    if a < b then b - a else a - b
  }

  /** `a.0.abs_diff(b.0) + a.1.abs_diff(b.1)`. */
  function Distance(a: Coord, b: Coord): nat
  {
    AbsDiff(a.0, b.0) + AbsDiff(a.1, b.1)
  }

  /** The Manhattan distance is symmetric and zero only between a cell and
      itself. */
  lemma DistanceFacts(a: Coord, b: Coord)
    ensures Distance(a, b) == Distance(b, a)
    ensures Distance(a, b) == 0 <==> a == b
  {
  }

  /** The distances from every element of `gs` to `b`. */
  function DistancesTo(gs: seq<Coord>, b: Coord, d: (Coord, Coord) -> nat): nat
  {
    if gs == [] then 0 else DistancesTo(gs[..|gs| - 1], b, d) + d(gs[|gs| - 1], b)
  }

  /** `combinations(2).map(..).sum()`: the distance `d(gs[i], gs[j])` summed
      over `i < j`. */
  function PairSum(gs: seq<Coord>, d: (Coord, Coord) -> nat): nat
  {
    if gs == [] then 0 else PairSum(gs[..|gs| - 1], d) + DistancesTo(gs[..|gs| - 1], gs[|gs| - 1], d)
  }

  /** `part_1::solution` on the parsed image. */
  function Part1Answer(space: seq<seq<Tile>>): Option<nat>
  {
    if space == [] then None
    else
      var w := |space[0]|;
      if !Wide(space, w) then None else Some(PairSum(Galaxies(Expanded(space, w)), Distance))
  }

  method Part1(space: seq<seq<Tile>>) returns (r: Option<nat>)
    ensures r == Part1Answer(space)
  {
    if space == [] {
      return None;
    }
    var w := |space[0]|;
    var empties := EmptyRows(space);
    var rows := InsertBefore(space, empties, Blank(w));
    StretchRowsWide(space, w);
    if !(forall y :: 0 <= y < |rows| ==> w <= |rows[y]|) {
      return None;
    }
    var cols := EmptyColumns(rows, w);
    var grid := ExpandColumns(rows, cols, w);
    return Some(PairSum(Galaxies(grid), Distance));
  }

  // ------------------------------------- part 1 seen as shifted galaxies

  /** How many listed positions lie below `x`. */
  function Below(idx: seq<nat>, x: nat): nat
  {
    if idx == [] then 0 else Below(idx[..|idx| - 1], x) + (if idx[|idx| - 1] < x then 1 else 0)
  }

  /** How many listed positions lie in `lo..=hi` (the source's `filter`). */
  function Between(idx: seq<nat>, lo: nat, hi: nat): nat
  {
    if idx == [] then 0 else Between(idx[..|idx| - 1], lo, hi) + (if lo <= idx[|idx| - 1] <= hi then 1 else 0)
  }

  /** With distinct positions, moving past `x` counts `x` once if listed. */
  lemma {:induction false} BelowStep(idx: seq<nat>, x: nat)
    requires Increasing(idx)
    ensures Below(idx, x + 1) == Below(idx, x) + (if x in idx then 1 else 0)
  {
    if idx != [] {
      var init := idx[..|idx| - 1];
      assert Increasing(init);
      BelowStep(init, x);
      assert x in idx <==> x in init || idx[|idx| - 1] == x;
      assert idx[|idx| - 1] == x ==> x !in init;
    }
  }

  /** The positions in `lo..=hi` are those below `hi` and not below `lo`,
      when `hi` itself is not listed. */
  lemma {:induction false} BelowSplit(idx: seq<nat>, lo: nat, hi: nat)
    requires lo <= hi && hi !in idx
    ensures Below(idx, hi) == Below(idx, lo) + Between(idx, lo, hi)
  {
    if idx != [] {
      BelowSplit(idx[..|idx| - 1], lo, hi);
    }
  }

  /** Where a galaxy lands once `Below(cols, x)` columns were inserted to
      its left. */
  function ShiftX(p: Coord, cols: seq<nat>): Coord
  {
    (p.0 + Below(cols, p.0), p.1)
  }

  function ShiftY(p: Coord, rows: seq<nat>): Coord
  {
    (p.0, p.1 + Below(rows, p.1))
  }

  function ShiftAllX(gs: seq<Coord>, cols: seq<nat>): (r: seq<Coord>)
    ensures |r| == |gs|
  {
    if gs == [] then [] else [ShiftX(gs[0], cols)] + ShiftAllX(gs[1..], cols)
  }

  function ShiftAllY(gs: seq<Coord>, rows: seq<nat>): (r: seq<Coord>)
    ensures |r| == |gs|
  {
    if gs == [] then [] else [ShiftY(gs[0], rows)] + ShiftAllY(gs[1..], rows)
  }

  lemma {:induction false} ShiftAllXAppend(a: seq<Coord>, b: seq<Coord>, cols: seq<nat>)
    ensures ShiftAllX(a + b, cols) == ShiftAllX(a, cols) + ShiftAllX(b, cols)
  {
    if a == [] {
      assert a + b == b;
    } else {
      assert (a + b)[0] == a[0] && (a + b)[1..] == a[1..] + b;
      ShiftAllXAppend(a[1..], b, cols);
    }
  }

  lemma {:induction false} ShiftAllYAppend(a: seq<Coord>, b: seq<Coord>, rows: seq<nat>)
    ensures ShiftAllY(a + b, rows) == ShiftAllY(a, rows) + ShiftAllY(b, rows)
  {
    if a == [] {
      assert a + b == b;
    } else {
      assert (a + b)[0] == a[0] && (a + b)[1..] == a[1..] + b;
      ShiftAllYAppend(a[1..], b, rows);
    }
  }

  lemma {:induction false} RowGalaxiesAppend(a: seq<Tile>, b: seq<Tile>, y: nat, off: nat)
    ensures RowGalaxies(a + b, y, off) == RowGalaxies(a, y, off) + RowGalaxies(b, y, off + |a|)
  {
    if a == [] {
      assert a + b == b;
    } else {
      assert (a + b)[0] == a[0];
      assert (a + b)[1..] == a[1..] + b;
      RowGalaxiesAppend(a[1..], b, y, off + 1);
    }
  }

  /** The first step of `RowShift`: the cell at `lo`, with its inserted
      `Empty` in front when `lo` is listed, and the galaxy it holds. */
  lemma RowShiftHead(row: seq<Tile>, cols: seq<nat>, y: nat, lo: nat) returns (head: seq<Tile>, mine: seq<Coord>)
    requires Increasing(cols) && lo < |row|
    requires lo in cols ==> row[lo] != Galaxy
    ensures StretchFrom(row, cols, Empty, lo) == head + StretchFrom(row, cols, Empty, lo + 1)
    ensures RowGalaxies(head, y, lo + Below(cols, lo)) == ShiftAllX(mine, cols)
    ensures lo + Below(cols, lo) + |head| == lo + 1 + Below(cols, lo + 1)
    ensures RowGalaxies(row[lo..], y, lo) == mine + RowGalaxies(row[lo + 1..], y, lo + 1)
  {
    BelowStep(cols, lo);
    head := if lo in cols then [Empty, row[lo]] else [row[lo]];
    mine := if row[lo] == Galaxy then [(lo, y)] else [];
    var off := lo + Below(cols, lo);
    if lo in cols {
      assert head[1..] == [row[lo]];
      assert RowGalaxies([row[lo]], y, off + 1) == [];
      assert RowGalaxies(head, y, off) == [];
    } else if row[lo] == Galaxy {
      assert RowGalaxies(head, y, off) == [(off, y)];
    } else {
      assert RowGalaxies(head, y, off) == [];
    }
    assert row[lo..][0] == row[lo] && row[lo..][1..] == row[lo + 1..];
  }

  /** Inserting `Empty` before the listed columns, none of which holds a
      galaxy, moves each galaxy right by the inserted columns to its left. */
  lemma {:induction false} RowShift(row: seq<Tile>, cols: seq<nat>, y: nat, lo: nat)
    requires Increasing(cols) && lo <= |row|
    requires forall x :: lo <= x < |row| && x in cols ==> row[x] != Galaxy
    ensures RowGalaxies(StretchFrom(row, cols, Empty, lo), y, lo + Below(cols, lo)) ==
      ShiftAllX(RowGalaxies(row[lo..], y, lo), cols)
    decreases |row| - lo
  {
    if lo < |row| {
      var head, mine := RowShiftHead(row, cols, y, lo);
      RowGalaxiesAppend(head, StretchFrom(row, cols, Empty, lo + 1), y, lo + Below(cols, lo));
      RowShift(row, cols, y, lo + 1);
      ShiftAllXAppend(mine, RowGalaxies(row[lo + 1..], y, lo + 1), cols);
    }
  }

  lemma {:induction false} BelowZero(idx: seq<nat>)
    ensures Below(idx, 0) == 0
  {
    if idx != [] {
      BelowZero(idx[..|idx| - 1]);
    }
  }

  /** Widening every row moves each galaxy right by the listed columns to
      its left, when no listed column holds a galaxy. */
  lemma {:induction false} GridShiftX(rows: seq<seq<Tile>>, cols: seq<nat>, off: nat)
    requires Increasing(cols)
    requires forall y, x :: 0 <= y < |rows| && 0 <= x < |rows[y]| && x in cols ==> rows[y][x] != Galaxy
    ensures GridGalaxies(Widened(rows, cols), off) == ShiftAllX(GridGalaxies(rows, off), cols)
  {
    if rows != [] {
      var wide := Widened(rows, cols);
      assert wide[1..] == Widened(rows[1..], cols);
      GridShiftX(rows[1..], cols, off + 1);
      BelowZero(cols);
      assert rows[0][0..] == rows[0];
      RowShift(rows[0], cols, off, 0);
      ShiftAllXAppend(RowGalaxies(rows[0], off, 0), GridGalaxies(rows[1..], off + 1), cols);
    }
  }

  lemma {:induction false} GridGalaxiesAppend(a: seq<seq<Tile>>, b: seq<seq<Tile>>, off: nat)
    ensures GridGalaxies(a + b, off) == GridGalaxies(a, off) + GridGalaxies(b, off + |a|)
  {
    if a == [] {
      assert a + b == b;
    } else {
      assert (a + b)[0] == a[0];
      assert (a + b)[1..] == a[1..] + b;
      GridGalaxiesAppend(a[1..], b, off + 1);
    }
  }

  lemma {:induction false} NoGalaxies(s: seq<Tile>, y: nat, off: nat)
    requires AllEmpty(s)
    ensures RowGalaxies(s, y, off) == []
  {
    if s != [] {
      NoGalaxies(s[1..], y, off + 1);
    }
  }

  /** Moving a row down by the listed rows above it moves its galaxies the
      same way. */
  lemma {:induction false} RowRetag(s: seq<Tile>, y: nat, off: nat, rows: seq<nat>)
    ensures RowGalaxies(s, y + Below(rows, y), off) == ShiftAllY(RowGalaxies(s, y, off), rows)
  {
    if s != [] {
      RowRetag(s[1..], y, off + 1, rows);
      var mine := if s[0] == Galaxy then [(off, y)] else [];
      ShiftAllYAppend(mine, RowGalaxies(s[1..], y, off + 1), rows);
    }
  }

  /** The first step of `GridShiftY`: the row at `lo`, with its inserted
      blank row in front when `lo` is listed. */
  lemma GridShiftHead(space: seq<seq<Tile>>, idx: seq<nat>, w: nat, lo: nat) returns (head: seq<seq<Tile>>)
    requires Increasing(idx) && lo < |space|
    requires lo in idx ==> AllEmpty(space[lo])
    ensures StretchFrom(space, idx, Blank(w), lo) == head + StretchFrom(space, idx, Blank(w), lo + 1)
    ensures GridGalaxies(head, lo + Below(idx, lo)) == ShiftAllY(RowGalaxies(space[lo], lo, 0), idx)
    ensures lo + Below(idx, lo) + |head| == lo + 1 + Below(idx, lo + 1)
    ensures GridGalaxies(space[lo..], lo) == RowGalaxies(space[lo], lo, 0) + GridGalaxies(space[lo + 1..], lo + 1)
  {
    BelowStep(idx, lo);
    head := if lo in idx then [Blank(w), space[lo]] else [space[lo]];
    var off := lo + Below(idx, lo);
    RowRetag(space[lo], lo, 0, idx);
    if lo in idx {
      NoGalaxies(Blank(w), off, 0);
      NoGalaxies(space[lo], lo, 0);
      NoGalaxies(space[lo], off + 1, 0);
      assert head[0] == Blank(w) && head[1..] == [space[lo]];
      assert [space[lo]][1..] == [];
      assert GridGalaxies([space[lo]], off + 1) == [];
      assert GridGalaxies(head, off) == [];
    } else {
      assert head[1..] == [];
      assert GridGalaxies(head, off) == RowGalaxies(space[lo], off, 0);
    }
    assert space[lo..][0] == space[lo] && space[lo..][1..] == space[lo + 1..];
  }

  /** Shifted galaxies of two row blocks join into the shifted galaxies
      of the joined block. */
  lemma ShiftJoin(head: seq<seq<Tile>>, rest: seq<seq<Tile>>, off: nat, next: nat,
                  mine: seq<Coord>, theirs: seq<Coord>, idx: seq<nat>)
    requires off + |head| == next
    requires GridGalaxies(head, off) == ShiftAllY(mine, idx)
    requires GridGalaxies(rest, next) == ShiftAllY(theirs, idx)
    ensures GridGalaxies(head + rest, off) == ShiftAllY(mine + theirs, idx)
  {
    GridGalaxiesAppend(head, rest, off);
    ShiftAllYAppend(mine, theirs, idx);
  }

  /** Doubling the listed rows, all of them empty, moves each galaxy down
      by the listed rows above it. */
  lemma {:induction false} GridShiftY(space: seq<seq<Tile>>, idx: seq<nat>, w: nat, lo: nat)
    requires Increasing(idx) && lo <= |space|
    requires forall y :: lo <= y < |space| && y in idx ==> AllEmpty(space[y])
    ensures GridGalaxies(StretchFrom(space, idx, Blank(w), lo), lo + Below(idx, lo)) ==
      ShiftAllY(GridGalaxies(space[lo..], lo), idx)
    decreases |space| - lo
  {
    if lo < |space| {
      var head := GridShiftHead(space, idx, w, lo);
      var rest := StretchFrom(space, idx, Blank(w), lo + 1);
      GridShiftY(space, idx, w, lo + 1);
      ShiftJoin(head, rest, lo + Below(idx, lo), lo + 1 + Below(idx, lo + 1),
        RowGalaxies(space[lo], lo, 0), GridGalaxies(space[lo + 1..], lo + 1), idx);
    } else {
      assert space[lo..] == [];
    }
  }

  /** Doubling the empty rows leaves the empty columns as they were. */
  lemma ColumnsSame(space: seq<seq<Tile>>, w: nat)
    requires Wide(space, w)
    ensures Wide(Stretch(space, EmptyRows(space), Blank(w)), w)
    ensures EmptyColumns(Stretch(space, EmptyRows(space), Blank(w)), w) == EmptyColumns(space, w)
  {
    var rows := Stretch(space, EmptyRows(space), Blank(w));
    StretchRowsWide(space, w);
    StretchMembers(space, EmptyRows(space), Blank(w), 0);
    forall c | 0 <= c < w
      ensures ColumnEmpty(rows, c) == ColumnEmpty(space, c)
    {
      if ColumnEmpty(space, c) {
        forall y | 0 <= y < |rows|
          ensures rows[y][c] == Empty
        {
          assert rows[y] in rows;
          if rows[y] != Blank(w) {
            var j :| 0 <= j < |space| && space[j] == rows[y];
          }
        }
      }
      if ColumnEmpty(rows, c) {
        forall y | 0 <= y < |space|
          ensures space[y][c] == Empty
        {
          var j :| 0 <= j < |rows| && rows[j] == space[y];
        }
      }
    }
    WhereSame(ColumnTest(rows, w), ColumnTest(space, w), w);
  }

  /** Where the `i`-th galaxy of a row sits. */
  lemma {:induction false} RowGalaxyAt(s: seq<Tile>, y: nat, off: nat, i: nat)
    requires i < |RowGalaxies(s, y, off)|
    ensures var p := RowGalaxies(s, y, off)[i];
      p.1 == y && off <= p.0 < off + |s| && s[p.0 - off] == Galaxy
  {
    var mine := if s[0] == Galaxy then [(off, y)] else [];
    if i >= |mine| {
      RowGalaxyAt(s[1..], y, off + 1, i - |mine|);
    }
  }

  /** Where the `i`-th galaxy of the grid sits: on a `Galaxy` tile. */
  lemma {:induction false} GridGalaxyAt(space: seq<seq<Tile>>, off: nat, i: nat)
    requires i < |GridGalaxies(space, off)|
    ensures var p := GridGalaxies(space, off)[i];
      off <= p.1 < off + |space| && p.0 < |space[p.1 - off]| && space[p.1 - off][p.0] == Galaxy
  {
    var first := RowGalaxies(space[0], off, 0);
    if i < |first| {
      RowGalaxyAt(space[0], off, 0, i);
    } else {
      GridGalaxyAt(space[1..], off + 1, i - |first|);
    }
  }

  /** No galaxy lies on an empty row or an empty column. */
  lemma GalaxyOffLines(space: seq<seq<Tile>>, w: nat, i: nat)
    requires Wide(space, w) && i < |Galaxies(space)|
    ensures Galaxies(space)[i].0 !in EmptyColumns(space, w)
    ensures Galaxies(space)[i].1 !in EmptyRows(space)
  {
    var p := Galaxies(space)[i];
    GridGalaxyAt(space, 0, i);
    assert !AllEmpty(space[p.1]);
    if p.0 < w {
      assert !ColumnEmpty(space, p.0);
      assert !ColumnTest(space, w)(p.0);
    }
  }

  lemma EmptyRowsAreEmpty(space: seq<seq<Tile>>)
    ensures Slots(EmptyRows(space), |space|)
    ensures forall y :: 0 <= y < |space| ==> (y in EmptyRows(space) <==> AllEmpty(space[y]))
  {
  }

  /** Doubling the empty rows moves each galaxy down by the empty rows
      above it. */
  lemma RowsExpandedGalaxies(space: seq<seq<Tile>>, w: nat)
    ensures Galaxies(Stretch(space, EmptyRows(space), Blank(w))) == ShiftAllY(Galaxies(space), EmptyRows(space))
  {
    EmptyRowsAreEmpty(space);
    StretchEmptyRows(space, EmptyRows(space), w);
  }

  /** `GridShiftY` from the top row. */
  lemma StretchEmptyRows(space: seq<seq<Tile>>, idx: seq<nat>, w: nat)
    requires Slots(idx, |space|)
    requires forall y :: 0 <= y < |space| && y in idx ==> AllEmpty(space[y])
    ensures Galaxies(Stretch(space, idx, Blank(w))) == ShiftAllY(Galaxies(space), idx)
  {
    BelowZero(idx);
    assert space[0..] == space;
    GridShiftY(space, idx, w, 0);
  }

  /** Expansion neither adds nor removes a galaxy: each moves right by the
      empty columns and down by the empty rows before it. */
  lemma ExpandedGalaxies(space: seq<seq<Tile>>, w: nat)
    requires Wide(space, w)
    ensures Galaxies(Expanded(space, w)) ==
      ShiftAllX(ShiftAllY(Galaxies(space), EmptyRows(space)), EmptyColumns(space, w))
    ensures |Galaxies(Expanded(space, w))| == |Galaxies(space)|
  {
    var rows := Stretch(space, EmptyRows(space), Blank(w));
    ColumnsSame(space, w);
    RowsExpandedGalaxies(space, w);
    var cols := EmptyColumns(rows, w);
    forall y, x | 0 <= y < |rows| && 0 <= x < |rows[y]| && x in cols
      ensures rows[y][x] != Galaxy
    {
      assert ColumnTest(rows, w)(x);
    }
    GridShiftX(rows, cols, 0);
  }

  /** Part 2's distance between two galaxies: `|dx| + |dy|` plus
      `factor - 1` for each empty column and row in the closed span
      between them. */
  function Part2Distance(a: Coord, b: Coord, cols: seq<nat>, rows: seq<nat>, factor: nat): nat
    requires factor >= 1
  {
    Span(a.0, b.0, cols, factor) + Span(a.1, b.1, rows, factor)
  }

  /** One axis of `Part2Distance`: the two coordinates swapped into order,
      then the listed lines in the closed span counted `factor - 1` more
      times. */
  function Span(a: nat, b: nat, idx: seq<nat>, factor: nat): nat
    requires factor >= 1
  {
    var lo := if b < a then b else a;
    var hi := if b < a then a else b;
    AbsDiff(lo, hi) + Between(idx, lo, hi) * (factor - 1)
  }

  function Metric(cols: seq<nat>, rows: seq<nat>, factor: nat): (Coord, Coord) -> nat
    requires factor >= 1
  {
    (a: Coord, b: Coord) => Part2Distance(a, b, cols, rows, factor)
  }

  /** Part 2's answer written out: the expanded distance summed over the
      pairs of galaxies of the unexpanded image. */
  function Formula(space: seq<seq<Tile>>, factor: nat): Option<nat>
    requires factor >= 1
  {
    if space == [] then None
    else
      var w := |space[0]|;
      if !Wide(space, w) then None
      else Some(PairSum(Galaxies(space), Metric(EmptyColumns(space, w), EmptyRows(space), factor)))
  }

  /** Two unlisted positions drift apart by the listed positions between
      them. */
  lemma ShiftedGap(x1: nat, x2: nat, idx: seq<nat>)
    requires x1 !in idx && x2 !in idx
    ensures AbsDiff(x1 + Below(idx, x1), x2 + Below(idx, x2)) == Span(x1, x2, idx, 2)
  {
    if x1 <= x2 {
      BelowSplit(idx, x1, x2);
    } else {
      BelowSplit(idx, x2, x1);
    }
  }

  /** The Manhattan distance of two moved galaxies is part 2's distance
      with every empty line counted twice. */
  lemma ShiftedDistance(a: Coord, b: Coord, cols: seq<nat>, rows: seq<nat>)
    requires a.0 !in cols && b.0 !in cols && a.1 !in rows && b.1 !in rows
    ensures Distance(ShiftX(ShiftY(a, rows), cols), ShiftX(ShiftY(b, rows), cols)) ==
      Part2Distance(a, b, cols, rows, 2)
  {
    ShiftedGap(a.0, b.0, cols);
    ShiftedGap(a.1, b.1, rows);
  }

  lemma {:induction false} ShiftAllXAt(gs: seq<Coord>, cols: seq<nat>, i: nat)
    requires i < |gs|
    ensures ShiftAllX(gs, cols)[i] == ShiftX(gs[i], cols)
  {
    if i > 0 {
      ShiftAllXAt(gs[1..], cols, i - 1);
    }
  }

  lemma {:induction false} ShiftAllYAt(gs: seq<Coord>, rows: seq<nat>, i: nat)
    requires i < |gs|
    ensures ShiftAllY(gs, rows)[i] == ShiftY(gs[i], rows)
  {
    if i > 0 {
      ShiftAllYAt(gs[1..], rows, i - 1);
    }
  }

  lemma {:induction false} DistancesToSame(gs: seq<Coord>, hs: seq<Coord>, b: Coord, c: Coord,
                                           d: (Coord, Coord) -> nat, e: (Coord, Coord) -> nat)
    requires |gs| == |hs|
    requires forall i :: 0 <= i < |gs| ==> d(hs[i], c) == e(gs[i], b)
    ensures DistancesTo(hs, c, d) == DistancesTo(gs, b, e)
  {
    if gs != [] {
      DistancesToSame(gs[..|gs| - 1], hs[..|hs| - 1], b, c, d, e);
    }
  }

  /** Two pair sums agree when their distances agree pair by pair. */
  lemma {:induction false} PairSumSame(gs: seq<Coord>, hs: seq<Coord>, d: (Coord, Coord) -> nat, e: (Coord, Coord) -> nat)
    requires |gs| == |hs|
    requires forall i, j :: 0 <= i < j < |gs| ==> d(hs[i], hs[j]) == e(gs[i], gs[j])
    ensures PairSum(hs, d) == PairSum(gs, e)
  {
    if gs != [] {
      var n := |gs| - 1;
      PairSumSame(gs[..n], hs[..n], d, e);
      DistancesToSame(gs[..n], hs[..n], gs[n], hs[n], d, e);
    }
  }

  /** Part 1's answer is part 2's formula with an expansion factor of 2. */
  lemma Part1AsFactorTwo(space: seq<seq<Tile>>)
    ensures Part1Answer(space) == Formula(space, 2)
  {
    if space != [] && Wide(space, |space[0]|) {
      var w := |space[0]|;
      var gs := Galaxies(space);
      var cols, rows := EmptyColumns(space, w), EmptyRows(space);
      ExpandedGalaxies(space, w);
      var hs := ShiftAllX(ShiftAllY(gs, rows), cols);
      forall i | 0 <= i < |gs|
        ensures hs[i] == ShiftX(ShiftY(gs[i], rows), cols)
        ensures gs[i].0 !in cols && gs[i].1 !in rows
      {
        ShiftAllXAt(ShiftAllY(gs, rows), cols, i);
        ShiftAllYAt(gs, rows, i);
        GalaxyOffLines(space, w, i);
      }
      forall i, j | 0 <= i < j < |gs|
        ensures Distance(hs[i], hs[j]) == Metric(cols, rows, 2)(gs[i], gs[j])
      {
        ShiftedDistance(gs[i], gs[j], cols, rows);
      }
      PairSumSame(gs, hs, Distance, Metric(cols, rows, 2));
    }
  }

  // ------------------------------------------------------ part 2: marking

  /** Part 2's tiles: a parsed tile, or an empty tile marked as lying on an
      empty column, an empty row, or both. */
  datatype Cell = Plain(tile: Tile) | VerticalExpand | HorizontalExpand | AllExpand

  /** The image read into part 2's tiles. */
  function Lift(space: seq<seq<Tile>>): (r: seq<seq<Cell>>)
    ensures |r| == |space|
    ensures forall y :: 0 <= y < |space| ==> |r[y]| == |space[y]|
  {
    seq(|space|, y requires 0 <= y < |space| => seq(|space[y]|, x requires 0 <= x < |space[y]| => Plain(space[y][x])))
  }

  /** What a marked tile holds: a galaxy, or empty space. */
  function Unmark(c: Cell): Tile
  {
    if c == Plain(Galaxy) then Galaxy else Empty
  }

  function Tiles(cells: seq<seq<Cell>>): (r: seq<seq<Tile>>)
    ensures |r| == |cells|
    ensures forall y :: 0 <= y < |cells| ==> |r[y]| == |cells[y]|
  {
    seq(|cells|, y requires 0 <= y < |cells| => seq(|cells[y]|, x requires 0 <= x < |cells[y]| => Unmark(cells[y][x])))
  }

  /** Every tile of each listed row overwritten with `HorizontalExpand`. */
  function MarkedRows(cells: seq<seq<Cell>>, idx: seq<nat>): (r: seq<seq<Cell>>)
    ensures |r| == |cells|
    ensures forall y :: 0 <= y < |cells| ==> |r[y]| == |cells[y]|
  {
    seq(|cells|, y requires 0 <= y < |cells| =>
      if y in idx then seq(|cells[y]|, _ => HorizontalExpand) else cells[y])
  }

  /** `empty_horizontal.iter().for_each(...)`: each listed row's tiles set
      to `HorizontalExpand` one by one. */
  method MarkRows(cells: seq<seq<Cell>>, idx: seq<nat>) returns (g: seq<seq<Cell>>)
    requires forall k :: 0 <= k < |idx| ==> idx[k] < |cells|
    ensures g == MarkedRows(cells, idx)
  {
    g := cells;
    assert idx[..0] == [];
    for k := 0 to |idx|
      invariant |g| == |cells|
      invariant forall y :: 0 <= y < |cells| ==> g[y] == MarkedRows(cells, idx[..k])[y]
    {
      var y := idx[k];
      var row := g[y];
      for x := 0 to |row|
        invariant |row| == |g[y]|
        invariant forall i :: 0 <= i < x ==> row[i] == HorizontalExpand
        invariant forall i :: x <= i < |row| ==> row[i] == g[y][i]
      {
        row := row[x := HorizontalExpand];
      }
      assert idx[..k + 1] == idx[..k] + [y];
      assert row == seq(|cells[y]|, _ => HorizontalExpand);
      g := g[y := row];
    }
    assert idx[..|idx|] == idx;
  }

  /** The test `row[col] == Galaxy` folded over the rows. */
  predicate ColumnClear(cells: seq<seq<Cell>>, c: nat)
    requires Wide(cells, c + 1)
  {
    forall y :: 0 <= y < |cells| ==> cells[y][c] != Plain(Galaxy)
  }

  function ClearTest(cells: seq<seq<Cell>>, w: nat): nat -> bool
    requires Wide(cells, w)
  {
    (c: nat) => c < w && ColumnClear(cells, c)
  }

  /** Part 2's `empty_vertical`: the columns below `w` without a galaxy. */
  function ClearColumns(cells: seq<seq<Cell>>, w: nat): seq<nat>
    requires Wide(cells, w)
  {
    Where(ClearTest(cells, w), w)
  }

  /** The `match` in the column marking: an empty tile becomes
      `VerticalExpand`, a `HorizontalExpand` one `AllExpand`. The source
      panics on any other tile; `MarkColumns` requires that none is met. */
  function Widen(c: Cell): Cell
  {
    match c
    case Plain(Empty) => VerticalExpand
    case HorizontalExpand => AllExpand
    case _ => c
  }

  predicate Widenable(c: Cell)
  {
    c == Plain(Empty) || c == HorizontalExpand
  }

  /** Every tile on a listed column widened. */
  function MarkedColumns(cells: seq<seq<Cell>>, cols: seq<nat>): (r: seq<seq<Cell>>)
    ensures |r| == |cells|
    ensures forall y :: 0 <= y < |cells| ==> |r[y]| == |cells[y]|
  {
    seq(|cells|, y requires 0 <= y < |cells| =>
      seq(|cells[y]|, x requires 0 <= x < |cells[y]| => if x in cols then Widen(cells[y][x]) else cells[y][x]))
  }

  /** `empty_vertical.iter().for_each(...)`: each listed column widened in
      every row; with distinct columns holding only widenable tiles the
      panic arm is never taken. */
  method MarkColumns(cells: seq<seq<Cell>>, cols: seq<nat>, w: nat) returns (g: seq<seq<Cell>>)
    requires Wide(cells, w) && Slots(cols, w)
    requires forall y, k :: 0 <= y < |cells| && 0 <= k < |cols| ==> Widenable(cells[y][cols[k]])
    ensures g == MarkedColumns(cells, cols)
  {
    g := cells;
    for k := 0 to |cols|
      invariant |g| == |cells|
      invariant forall y :: 0 <= y < |cells| ==> |g[y]| == |cells[y]|
      invariant forall y, x :: 0 <= y < |cells| && 0 <= x < |cells[y]| ==>
        g[y][x] == if x in cols[..k] then Widen(cells[y][x]) else cells[y][x]
    {
      var c := cols[k];
      assert c !in cols[..k];
      assert cols[..k + 1] == cols[..k] + [c];
      for y := 0 to |g|
        invariant |g| == |cells|
        invariant forall b :: 0 <= b < |cells| ==> |g[b]| == |cells[b]|
        invariant forall b, x :: 0 <= b < |cells| && 0 <= x < |cells[b]| ==>
          g[b][x] == if x in cols[..k] || (x == c && b < y) then Widen(cells[b][x]) else cells[b][x]
      {
        var row := g[y];
        match row[c] {
          case Plain(Empty) =>
            row := row[c := VerticalExpand];
          case HorizontalExpand =>
            row := row[c := AllExpand];
          case _ =>
            assert false;
        }
        g := g[y := row];
      }
    }
    assert cols[..|cols|] == cols;
    forall y | 0 <= y < |cells|
      ensures g[y] == MarkedColumns(cells, cols)[y]
    {
    }
  }

  /** Marking the empty rows hides no galaxy and invents none. */
  lemma RowsMarkedKeepGalaxies(space: seq<seq<Tile>>)
    ensures Tiles(MarkedRows(Lift(space), EmptyRows(space))) == space
  {
    var m := MarkedRows(Lift(space), EmptyRows(space));
    EmptyRowsAreEmpty(space);
    forall y | 0 <= y < |space|
      ensures Tiles(m)[y] == space[y]
    {
      if y in EmptyRows(space) {
        assert forall x :: 0 <= x < |space[y]| ==> space[y][x] == Empty;
      }
    }
  }

  /** On the row-marked image, the columns without a galaxy are the empty
      columns of the image. */
  lemma ClearColumnsSame(space: seq<seq<Tile>>, w: nat)
    requires Wide(space, w)
    ensures Wide(MarkedRows(Lift(space), EmptyRows(space)), w)
    ensures ClearColumns(MarkedRows(Lift(space), EmptyRows(space)), w) == EmptyColumns(space, w)
  {
    var m := MarkedRows(Lift(space), EmptyRows(space));
    EmptyRowsAreEmpty(space);
    forall c | 0 <= c < w
      ensures ColumnClear(m, c) == ColumnEmpty(space, c)
    {
      forall y | 0 <= y < |space|
        ensures m[y][c] != Plain(Galaxy) <==> space[y][c] == Empty
      {
        if y in EmptyRows(space) {
          assert space[y][c] == Empty;
        }
      }
    }
    WhereSame(ClearTest(m, w), ColumnTest(space, w), w);
  }

  /** Every tile met by the column marking is empty or row-marked, so the
      panic arm is unreachable. */
  lemma MarkWidenable(space: seq<seq<Tile>>, w: nat)
    requires Wide(space, w)
    ensures Wide(MarkedRows(Lift(space), EmptyRows(space)), w)
    ensures var m := MarkedRows(Lift(space), EmptyRows(space));
      forall y, k :: 0 <= y < |m| && 0 <= k < |ClearColumns(m, w)| ==> Widenable(m[y][ClearColumns(m, w)[k]])
  {
    var m := MarkedRows(Lift(space), EmptyRows(space));
    ClearColumnsSame(space, w);
    var cols := ClearColumns(m, w);
    forall y, k | 0 <= y < |m| && 0 <= k < |cols|
      ensures Widenable(m[y][cols[k]])
    {
      assert cols[k] in cols;
      assert ClearTest(m, w)(cols[k]);
    }
  }

  /** Widening marks only empty tiles, so it keeps every galaxy. */
  lemma ColumnsMarkedKeepGalaxies(cells: seq<seq<Cell>>, cols: seq<nat>)
    requires forall y, x :: 0 <= y < |cells| && 0 <= x < |cells[y]| && x in cols ==> Widenable(cells[y][x])
    ensures Tiles(MarkedColumns(cells, cols)) == Tiles(cells)
  {
    var m := MarkedColumns(cells, cols);
    forall y | 0 <= y < |cells|
      ensures Tiles(m)[y] == Tiles(cells)[y]
    {
    }
  }

  /** `expansion_factor`. */
  const ExpansionFactor: nat := 1000000

  /** `part_2::solution` on the parsed image: rows then columns marked, the
      galaxies found among the marked tiles and the expanded distances
      summed over the pairs. */
  function Part2Answer(space: seq<seq<Tile>>): Option<nat>
  {
    if space == [] then None
    else
      var rows := EmptyRows(space);
      var w := |space[0]|;
      var m := MarkedRows(Lift(space), rows);
      if !Wide(m, w) then None
      else
        var cols := ClearColumns(m, w);
        Some(PairSum(Galaxies(Tiles(MarkedColumns(m, cols))), Metric(cols, rows, ExpansionFactor)))
  }

  /** Part 2 answers the expanded-distance formula with a factor of one
      million: marking moves no galaxy and finds the image's empty lines. */
  lemma Part2AnswerFormula(space: seq<seq<Tile>>)
    ensures Part2Answer(space) == Formula(space, ExpansionFactor)
  {
    if space != [] {
      var w := |space[0]|;
      var m := MarkedRows(Lift(space), EmptyRows(space));
      assert Wide(m, w) <==> Wide(space, w);
      if Wide(space, w) {
        ClearColumnsSame(space, w);
        MarkWidenable(space, w);
        var cols := ClearColumns(m, w);
        forall y, x | 0 <= y < |m| && 0 <= x < |m[y]| && x in cols
          ensures Widenable(m[y][x])
        {
          var k :| 0 <= k < |cols| && cols[k] == x;
        }
        ColumnsMarkedKeepGalaxies(m, cols);
        RowsMarkedKeepGalaxies(space);
      }
    }
  }

  method Part2(space: seq<seq<Tile>>) returns (r: Option<nat>)
    ensures r == Part2Answer(space)
  {
    if space == [] {
      return None;
    }
    var rows := EmptyRows(space);
    var w := |space[0]|;
    EmptyRowsAreEmpty(space);
    var m := MarkRows(Lift(space), rows);
    if !(forall y :: 0 <= y < |m| ==> w <= |m[y]|) {
      return None;
    }
    MarkWidenable(space, w);
    var cols := ClearColumns(m, w);
    var marked := MarkColumns(m, cols, w);
    return Some(PairSum(Galaxies(Tiles(marked)), Metric(cols, rows, ExpansionFactor)));
  }
}
