/** Mirage Maintenance. Each report line is a sequence of readings; the
    rows of successive differences are built until one is all zero, and the
    sequence is extrapolated one step forwards (part 1) or backwards
    (part 2) by folding those rows from the bottom up. */
module Day09 {
  import opened Common

  predicate AllZero(p: seq<int>)
  {
    forall i :: 0 <= i < |p| ==> p[i] == 0
  }

  /** `vector_diff`: the differences of neighbouring readings; its `assert`
      panics on fewer than three readings. */
  function Diff(p: seq<int>): (d: Option<seq<int>>)
    ensures d.Some? <==> |p| > 2
    ensures d.Some? ==> |d.value| == |p| - 1
  {
    if |p| <= 2 then None else Some(seq(|p| - 1, i requires 0 <= i < |p| - 1 => p[i + 1] - p[i]))
  }

  /** The differences determine the readings from the first one: each
      reading is the first plus the sum of the differences before it. */
  lemma {:induction false} DiffPrefixSums(p: seq<int>, k: nat)
    requires |p| > 2 && k < |p|
    ensures p[k] == p[0] + Sum(Diff(p).value[..k])
  {
    if k > 0 {
      DiffPrefixSums(p, k - 1);
      var d := Diff(p).value;
      assert d[..k][..k - 1] == d[..k - 1];
    }
  }

  lemma DiffExample()
    ensures Diff([1, 3, 6, 10, 15, 21]) == Some([2, 3, 4, 5, 6])
  {
    var d := Diff([1, 3, 6, 10, 15, 21]).value;
    assert d[0] == 2 && d[1] == 3 && d[2] == 4 && d[3] == 5 && d[4] == 6;
    assert d == [2, 3, 4, 5, 6];
  }

  /** The rows the `while` loop pushes: the readings, then differences
      until a row is all zero; `None` when `vector_diff` panics first. */
  function Rows(p: seq<int>): Option<seq<seq<int>>>
    decreases |p|
  {
    if AllZero(p) then Some([p])
    else
      var d := Diff(p);
      if d.None? then None
      else
        var rest := Rows(d.value);
        if rest.None? then None else Some([p] + rest.value)
  }

  /** The rows start with the readings, each next row is the difference
      row of the one before, only the last is all zero, and every row but
      possibly an empty first one is non-empty. */
  lemma {:induction false} RowsShape(p: seq<int>)
    requires Rows(p).Some?
    ensures var rows := Rows(p).value;
      |rows| >= 1 && rows[0] == p && AllZero(rows[|rows| - 1]) &&
      (forall i :: 0 <= i < |rows| - 1 ==> !AllZero(rows[i]) && Diff(rows[i]) == Some(rows[i + 1])) &&
      (forall i :: 1 <= i < |rows| ==> |rows[i]| >= 2)
    decreases |p|
  {
    if !AllZero(p) {
      var d := Diff(p).value;
      RowsShape(d);
      var rows := Rows(p).value;
      assert rows == [p] + Rows(d).value;
      assert forall i :: 1 <= i < |rows| ==> rows[i] == Rows(d).value[i - 1];
    }
  }

  /** Rows before the first all-zero row, then that row's own rows. */
  function Chain(above: seq<seq<int>>, below: Option<seq<seq<int>>>): Option<seq<seq<int>>>
  {
    if below.None? then None else Some(above + below.value)
  }

  /** Pushing the difference row of a non-zero last row keeps the rows
      of the whole stack. */
  lemma ChainStep(diffs: seq<seq<int>>, d: seq<int>)
    requires |diffs| >= 1 && !AllZero(diffs[|diffs| - 1]) && Diff(diffs[|diffs| - 1]) == Some(d)
    ensures Chain(diffs[..|diffs| - 1], Rows(diffs[|diffs| - 1])) == Chain((diffs + [d])[..|diffs|], Rows(d))
  {
    var last := diffs[|diffs| - 1];
    RowsOfNonZero(last, d);
    ChainJoin(diffs[..|diffs| - 1], last, Rows(d));
    assert diffs[..|diffs| - 1] + [last] == diffs;
    assert (diffs + [d])[..|diffs|] == diffs;
  }

  /** A row that is not all zero heads the rows of its differences. */
  lemma RowsOfNonZero(p: seq<int>, d: seq<int>)
    requires !AllZero(p) && Diff(p) == Some(d)
    ensures Rows(p) == Chain([p], Rows(d))
  {
  }

  /** Chaining onto a chain is chaining onto the joined rows. */
  lemma ChainJoin(above: seq<seq<int>>, row: seq<int>, below: Option<seq<seq<int>>>)
    ensures Chain(above, Chain([row], below)) == Chain(above + [row], below)
  {
    if below.Some? {
      assert above + ([row] + below.value) == (above + [row]) + below.value;
    }
  }

  /** The `diffs` stack grown by the `while` loop. */
  method BuildRows(p: seq<int>) returns (rows: Option<seq<seq<int>>>)
    ensures rows == Rows(p)
  {
    var diffs := [p];
    if Rows(p).Some? {
      assert diffs[..0] + Rows(p).value == Rows(p).value;
    }
    while !AllZero(diffs[|diffs| - 1])
      invariant |diffs| >= 1
      invariant Rows(p) == Chain(diffs[..|diffs| - 1], Rows(diffs[|diffs| - 1]))
      decreases |diffs[|diffs| - 1]|
    {
      var last := diffs[|diffs| - 1];
      var d := Diff(last);
      if d.None? {
        return None;
      }
      ChainStep(diffs, d.value);
      diffs := diffs + [d.value];
    }
    assert Rows(diffs[|diffs| - 1]) == Some([diffs[|diffs| - 1]]);
    assert diffs[..|diffs| - 1] + [diffs[|diffs| - 1]] == diffs;
    return Some(diffs);
  }

  predicate NoEmptyRow(rows: seq<seq<int>>)
  {
    forall i :: 0 <= i < |rows| ==> |rows[i]| > 0
  }

  /** The last reading of every row. */
  function Lasts(rows: seq<seq<int>>): (ls: seq<int>)
    requires NoEmptyRow(rows)
    ensures |ls| == |rows|
  {
    seq(|rows|, i requires 0 <= i < |rows| => rows[i][|rows[i]| - 1])
  }

  /** The first reading of every row. */
  function Firsts(rows: seq<seq<int>>): (fs: seq<int>)
    requires NoEmptyRow(rows)
    ensures |fs| == |rows|
  {
    seq(|rows|, i requires 0 <= i < |rows| => rows[i][0])
  }

  /** `s[0] - s[1] + s[2] - …`. */
  function AltSum(s: seq<int>): int
  {
    if s == [] then 0 else s[0] - AltSum(s[1..])
  }

  /** Part 1's `rev().fold(0, |next, row| last + next)`: the sum of the
      last readings of all rows; `None` when a row is empty (`unwrap`). */
  method FoldForward(rows: seq<seq<int>>) returns (r: Option<int>)
    ensures r.Some? <==> NoEmptyRow(rows)
    ensures r.Some? ==> r.value == Sum(Lasts(rows))
  {
    var acc := 0;
    var k := |rows|;
    while k > 0
      invariant 0 <= k <= |rows|
      invariant NoEmptyRow(rows[k..])
      invariant acc == Sum(Lasts(rows[k..]))
    {
      k := k - 1;
      if |rows[k]| == 0 {
        return None;
      }
      var last := rows[k][|rows[k]| - 1];
      assert Lasts(rows[k..]) == [last] + Lasts(rows[k + 1..]);
      SumAppend([last], Lasts(rows[k + 1..]));
      acc := last + acc;
    }
    assert rows[0..] == rows;
    return Some(acc);
  }

  /** Part 2's `rev().fold(0, |previous, row| first - previous)`: the
      alternating sum of the first readings of all rows. */
  method FoldBackward(rows: seq<seq<int>>) returns (r: Option<int>)
    ensures r.Some? <==> NoEmptyRow(rows)
    ensures r.Some? ==> r.value == AltSum(Firsts(rows))
  {
    var acc := 0;
    var k := |rows|;
    while k > 0
      invariant 0 <= k <= |rows|
      invariant NoEmptyRow(rows[k..])
      invariant acc == AltSum(Firsts(rows[k..]))
    {
      k := k - 1;
      if |rows[k]| == 0 {
        return None;
      }
      var first := rows[k][0];
      assert Firsts(rows[k..])[1..] == Firsts(rows[k + 1..]);
      acc := first - acc;
    }
    assert rows[0..] == rows;
    return Some(acc);
  }

  /** The next reading part 1 predicts. */
  function Next(p: seq<int>): Option<int>
  {
    var rows := Rows(p);
    if rows.None? || !NoEmptyRow(rows.value) then None else Some(Sum(Lasts(rows.value)))
  }

  /** The previous reading part 2 predicts. */
  function Prev(p: seq<int>): Option<int>
  {
    var rows := Rows(p);
    if rows.None? || !NoEmptyRow(rows.value) then None else Some(AltSum(Firsts(rows.value)))
  }

  /** How the rows of a non-zero sequence relate to those of its
      difference row. */
  lemma RowsStep(p: seq<int>)
    requires !AllZero(p) && Rows(p).Some?
    ensures Diff(p).Some? && Rows(Diff(p).value).Some?
    ensures Rows(p).value == [p] + Rows(Diff(p).value).value
  {
  }

  lemma NoEmptyRowCons(p: seq<int>, below: seq<seq<int>>)
    requires NoEmptyRow([p] + below)
    ensures |p| > 0 && NoEmptyRow(below)
  {
    assert ([p] + below)[0] == p;
    assert forall i :: 0 <= i < |below| ==> below[i] == ([p] + below)[i + 1];
  }

  lemma LastsCons(p: seq<int>, below: seq<seq<int>>)
    requires |p| > 0 && NoEmptyRow(below) && NoEmptyRow([p] + below)
    ensures Lasts([p] + below) == [p[|p| - 1]] + Lasts(below)
  {
    var rows := [p] + below;
    var ls := Lasts(rows);
    assert forall i :: 0 < i < |rows| ==> rows[i] == below[i - 1];
    assert forall i :: 0 < i < |rows| ==> ls[i] == Lasts(below)[i - 1];
  }

  lemma FirstsCons(p: seq<int>, below: seq<seq<int>>)
    requires |p| > 0 && NoEmptyRow(below) && NoEmptyRow([p] + below)
    ensures Firsts([p] + below) == [p[0]] + Firsts(below)
  {
    var rows := [p] + below;
    var fs := Firsts(rows);
    assert forall i :: 0 < i < |rows| ==> rows[i] == below[i - 1];
    assert forall i :: 0 < i < |rows| ==> fs[i] == Firsts(below)[i - 1];
  }

  /** Predicting forwards extends every row consistently: the prediction
      for an all-zero row is 0, and otherwise appending the prediction to
      the readings appends the difference row's own prediction to the
      difference row. */
  lemma NextExtendsDifferences(p: seq<int>)
    requires Next(p).Some?
    ensures AllZero(p) ==> Next(p) == Some(0)
    ensures !AllZero(p) ==>
      (Diff(p).Some? && Next(Diff(p).value).Some? &&
       Diff(p + [Next(p).value]) == Some(Diff(p).value + [Next(Diff(p).value).value]))
  {
    var rows := Rows(p).value;
    if AllZero(p) {
      assert rows == [p];
      assert Lasts(rows) == [p[|p| - 1]];
      assert Sum([p[|p| - 1]]) == Sum([]) + p[|p| - 1];
    } else {
      NextStep(p);
      DiffSnoc(p, Next(p).value);
    }
  }

  /** Below the top row, the forward prediction adds the last reading to
      the difference row's prediction. */
  lemma NextStep(p: seq<int>)
    requires Next(p).Some? && !AllZero(p)
    ensures Diff(p).Some? && Next(Diff(p).value).Some?
    ensures Next(p).value == p[|p| - 1] + Next(Diff(p).value).value
  {
    RowsStep(p);
    var below := Rows(Diff(p).value).value;
    NoEmptyRowCons(p, below);
    LastsCons(p, below);
    SumAppend([p[|p| - 1]], Lasts(below));
  }

  /** Appending a reading appends its difference to the last one. */
  lemma DiffSnoc(p: seq<int>, x: int)
    requires |p| > 2
    ensures Diff(p + [x]) == Some(Diff(p).value + [x - p[|p| - 1]])
  {
    assert Diff(p + [x]).value == Diff(p).value + [x - p[|p| - 1]];
  }

  /** Prepending a reading prepends its difference to the first one. */
  lemma DiffCons(x: int, p: seq<int>)
    requires |p| > 2
    ensures Diff([x] + p) == Some([p[0] - x] + Diff(p).value)
  {
    assert Diff([x] + p).value == [p[0] - x] + Diff(p).value;
  }

  /** Below the top row, the backward prediction subtracts the difference
      row's prediction from the first reading. */
  lemma PrevStep(p: seq<int>)
    requires Prev(p).Some? && !AllZero(p)
    ensures Diff(p).Some? && Prev(Diff(p).value).Some?
    ensures Prev(p).value == p[0] - Prev(Diff(p).value).value
  {
    RowsStep(p);
    var below := Rows(Diff(p).value).value;
    NoEmptyRowCons(p, below);
    FirstsCons(p, below);
  }

  /** Predicting backwards extends every row consistently at the front. */
  lemma PrevExtendsDifferences(p: seq<int>)
    requires Prev(p).Some?
    ensures AllZero(p) ==> Prev(p) == Some(0)
    ensures !AllZero(p) ==>
      (Diff(p).Some? && Prev(Diff(p).value).Some? &&
       Diff([Prev(p).value] + p) == Some([Prev(Diff(p).value).value] + Diff(p).value))
  {
    var rows := Rows(p).value;
    if AllZero(p) {
      assert rows == [p];
      assert Firsts(rows) == [p[0]];
      assert AltSum([p[0]]) == p[0] - AltSum([]);
    } else {
      PrevStep(p);
      DiffCons(Prev(p).value, p);
    }
  }

  /** One report line of part 1. */
  method Extrapolate(p: seq<int>) returns (r: Option<int>)
    ensures r == Next(p)
  {
    var rows := BuildRows(p);
    if rows.None? {
      return None;
    }
    r := FoldForward(rows.value);
  }

  /** One report line of part 2. */
  method ExtrapolateBack(p: seq<int>) returns (r: Option<int>)
    ensures r == Prev(p)
  {
    var rows := BuildRows(p);
    if rows.None? {
      return None;
    }
    r := FoldBackward(rows.value);
  }

  /** The sum over all lines of a per-line prediction; `None` when one
      line panics. */
  function Total(ps: seq<seq<int>>, predict: seq<int> -> Option<int>): Option<int>
  {
    if ps == [] then Some(0)
    else
      var init := Total(ps[..|ps| - 1], predict);
      var last := predict(ps[|ps| - 1]);
      if init.None? || last.None? then None else Some(init.value + last.value)
  }

  /** A total exists exactly when every line has a prediction. */
  lemma {:induction false} TotalDefined(ps: seq<seq<int>>, predict: seq<int> -> Option<int>)
    ensures Total(ps, predict).Some? <==> forall i :: 0 <= i < |ps| ==> predict(ps[i]).Some?
  {
    if ps != [] {
      var init := ps[..|ps| - 1];
      TotalDefined(init, predict);
      assert forall i :: 0 <= i < |init| ==> init[i] == ps[i];
    }
  }

  /** `part_1::solution` on the parsed report. */
  method Part1(ps: seq<seq<int>>) returns (r: Option<int>)
    ensures r == Total(ps, Next)
  {
    var total := 0;
    for k := 0 to |ps|
      invariant Total(ps[..k], Next) == Some(total)
    {
      assert ps[..k + 1][..k] == ps[..k];
      var v := Extrapolate(ps[k]);
      if v.None? {
        TotalStuck(ps, Next, k + 1);
        return None;
      }
      total := total + v.value;
    }
    assert ps[..|ps|] == ps;
    return Some(total);
  }

  /** `part_2::solution` on the parsed report. */
  method Part2(ps: seq<seq<int>>) returns (r: Option<int>)
    ensures r == Total(ps, Prev)
  {
    var total := 0;
    for k := 0 to |ps|
      invariant Total(ps[..k], Prev) == Some(total)
    {
      assert ps[..k + 1][..k] == ps[..k];
      var v := ExtrapolateBack(ps[k]);
      if v.None? {
        TotalStuck(ps, Prev, k + 1);
        return None;
      }
      total := total + v.value;
    }
    assert ps[..|ps|] == ps;
    return Some(total);
  }

  /** Once a prefix has no total, neither has the whole report. */
  lemma {:induction false} TotalStuck(ps: seq<seq<int>>, predict: seq<int> -> Option<int>, k: nat)
    requires k <= |ps|
    requires Total(ps[..k], predict).None?
    ensures Total(ps, predict).None?
    decreases |ps| - k
  {
    if k < |ps| {
      assert ps[..k + 1][..k] == ps[..k];
      TotalStuck(ps, predict, k + 1);
    } else {
      assert ps[..k] == ps;
    }
  }
}
