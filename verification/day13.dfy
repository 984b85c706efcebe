/** Day 13: "Point of Incidence". An image of ash and rocks is a list of
    text rows; a mirror sits between two adjacent columns (a vertical line)
    or between two adjacent rows (a horizontal line). Part 1 looks for a
    perfect reflection, part 2 for a reflection spoiled by exactly one
    smudged cell. */
module Day13 {
  import opened Common

  /** The rows of one image, top to bottom. */
  type Image = seq<string>

  function Min(a: nat, b: nat): nat
  {
    if a <= b then a else b
  }

  /** The pairs of columns (or rows) that a mirror just after index `idx`
      lines up, nearest pair first, as far as the shorter side reaches. */
  function MirrorPairs(idx: nat, size: nat): (ps: seq<(nat, nat)>)
    requires idx < size
    ensures |ps| == Min(idx + 1, size - idx - 1)
    ensures forall k :: 0 <= k < |ps| ==>
              0 <= ps[k].0 <= idx < ps[k].1 < size && ps[k].0 + ps[k].1 == 2 * idx + 1
    ensures forall k :: 0 <= k < |ps| ==> ps[k].1 - ps[k].0 == 2 * k + 1
  {
    seq(Min(idx + 1, size - idx - 1), k requires 0 <= k <= idx => (idx - k, idx + 1 + k))
  }

  /** Every pair of positions equally far from the mirror, on either side of
      it and inside the image, is among the mirrored pairs. */
  lemma MirrorPairsComplete(idx: nat, size: nat, l: nat, r: nat)
    requires idx < size && l <= idx < r < size && l + r == 2 * idx + 1
    ensures (l, r) in MirrorPairs(idx, size)
  {
    var ps := MirrorPairs(idx, size);
    var k := idx - l;
    assert k < |ps|;
    assert ps[k] == (l, r);
  }

  /** The two inline test vectors for the mirrored pairs. */
  lemma MirrorPairsExamples()
    ensures MirrorPairs(4, 9) == [(4, 5), (3, 6), (2, 7), (1, 8)]
    ensures MirrorPairs(2, 9) == [(2, 3), (1, 4), (0, 5)]
  {
    assert |MirrorPairs(4, 9)| == 4;
    assert |MirrorPairs(2, 9)| == 3;
  }

  /** The width of an image is the length of its first row. */
  function Width(img: Image): nat
    requires img != []
  {
    |img[0]|
  }

  /** The character at position `i` of a row, if the row is that long. */
  function Nth(row: string, i: nat): (c: Option<char>)
    ensures c.Some? <==> i < |row|
    ensures c.Some? ==> c.value == row[i]
  {
    if i < |row| then Some(row[i]) else None
  }

  /** Part 1's vertical test: every row reads the same in each mirrored
      pair of columns. */
  predicate MirroredVertical(img: Image, idx: nat)
    requires img != [] && idx < Width(img)
  {
    var ps := MirrorPairs(idx, Width(img));
    forall k, j :: 0 <= k < |ps| && 0 <= j < |img| ==>
      Nth(img[j], ps[k].0) == Nth(img[j], ps[k].1)
  }

  /** The number of rows whose characters differ in columns `l` and `r`. */
  function ColumnDefects(img: Image, l: nat, r: nat): nat
  {
    var s := seq(|img|, j requires 0 <= j < |img| =>
      if Nth(img[j], l) == Nth(img[j], r) then 0 else 1);
    SumZero(s);
    Sum(s)
  }

  /** Part 2's vertical count: mismatching cells over all mirrored pairs of
      columns. */
  function DefectsVertical(img: Image, idx: nat): nat
    requires img != [] && idx < Width(img)
  {
    var ps := MirrorPairs(idx, Width(img));
    var s := seq(|ps|, k requires 0 <= k < |ps| => ColumnDefects(img, ps[k].0, ps[k].1) as int);
    SumZero(s);
    Sum(s)
  }

  /** Part 1's horizontal test: each mirrored pair of rows is equal. */
  predicate MirroredHorizontal(img: Image, idx: nat)
    requires idx < |img|
  {
    var ps := MirrorPairs(idx, |img|);
    forall k :: 0 <= k < |ps| ==> img[ps[k].0] == img[ps[k].1]
  }

  /** Mismatching characters of two rows zipped together (the zip stops at
      the end of the shorter row). */
  function RowDefects(a: string, b: string): nat
  {
    var s := Mismatches(a, b);
    SumZero(s);
    Sum(s)
  }

  /** One 0/1 mark per zipped position, 1 where the characters differ. */
  function Mismatches(a: string, b: string): (s: seq<int>)
    ensures |s| == Min(|a|, |b|)
    ensures forall i :: 0 <= i < |s| ==> s[i] == (if a[i] == b[i] then 0 else 1)
  {
    seq(Min(|a|, |b|), i requires 0 <= i < Min(|a|, |b|) => if a[i] == b[i] then 0 else 1)
  }

  /** Part 2's horizontal count: mismatching cells over all mirrored pairs
      of rows. */
  function DefectsHorizontal(img: Image, idx: nat): nat
    requires idx < |img|
  {
    var ps := MirrorPairs(idx, |img|);
    var s := seq(|ps|, k requires 0 <= k < |ps| => RowDefects(img[ps[k].0], img[ps[k].1]) as int);
    SumZero(s);
    Sum(s)
  }

  /** The reference meaning of a vertical mirror: any two cells of a row at
      equal distance on either side of it read the same. */
  predicate ReflectsVertical(img: Image, idx: nat)
    requires img != []
  {
    forall j, l, r :: 0 <= j < |img| && 0 <= l <= idx < r < Width(img) && l + r == 2 * idx + 1 ==>
      Nth(img[j], l) == Nth(img[j], r)
  }

  /** The reference meaning of a horizontal mirror: any two rows at equal
      distance on either side of it are equal. */
  predicate ReflectsHorizontal(img: Image, idx: nat)
  {
    forall l, r :: 0 <= l <= idx < r < |img| && l + r == 2 * idx + 1 ==> img[l] == img[r]
  }

  lemma MirroredVerticalReflects(img: Image, idx: nat)
    requires img != [] && idx < Width(img)
    ensures MirroredVertical(img, idx) <==> ReflectsVertical(img, idx)
  {
    var ps := MirrorPairs(idx, Width(img));
    if MirroredVertical(img, idx) {
      forall j, l: nat, r | 0 <= j < |img| && l <= idx < r < Width(img) && l + r == 2 * idx + 1
        ensures Nth(img[j], l) == Nth(img[j], r)
      {
        MirrorPairsComplete(idx, Width(img), l, r);
        var k :| 0 <= k < |ps| && ps[k] == (l, r);
      }
    }
  }

  lemma MirroredHorizontalReflects(img: Image, idx: nat)
    requires idx < |img|
    ensures MirroredHorizontal(img, idx) <==> ReflectsHorizontal(img, idx)
  {
    var ps := MirrorPairs(idx, |img|);
    if MirroredHorizontal(img, idx) {
      forall l: nat, r | l <= idx < r < |img| && l + r == 2 * idx + 1
        ensures img[l] == img[r]
      {
        MirrorPairsComplete(idx, |img|, l, r);
        var k :| 0 <= k < |ps| && ps[k] == (l, r);
      }
    }
  }

  lemma ColumnDefectsZero(img: Image, l: nat, r: nat)
    ensures ColumnDefects(img, l, r) == 0 <==>
              forall j :: 0 <= j < |img| ==> Nth(img[j], l) == Nth(img[j], r)
  {
    var s := seq(|img|, j requires 0 <= j < |img| =>
      if Nth(img[j], l) == Nth(img[j], r) then 0 else 1);
    SumZero(s);
    assert forall j :: 0 <= j < |img| ==> (s[j] == 0 <==> Nth(img[j], l) == Nth(img[j], r));
  }

  /** The vertical test passes exactly when the vertical count is zero. */
  lemma MirroredVerticalNoDefects(img: Image, idx: nat)
    requires img != [] && idx < Width(img)
    ensures MirroredVertical(img, idx) <==> DefectsVertical(img, idx) == 0
  {
    var ps := MirrorPairs(idx, Width(img));
    var s := seq(|ps|, k requires 0 <= k < |ps| => ColumnDefects(img, ps[k].0, ps[k].1));
    SumZero(s);
    forall k | 0 <= k < |ps|
      ensures s[k] == 0 <==> forall j :: 0 <= j < |img| ==> Nth(img[j], ps[k].0) == Nth(img[j], ps[k].1)
    {
      ColumnDefectsZero(img, ps[k].0, ps[k].1);
    }
  }

  /** Zipped rows show no defect exactly when they agree up to the end of
      the shorter one. */
  lemma RowDefectsZero(a: string, b: string)
    ensures RowDefects(a, b) == 0 <==> a[..Min(|a|, |b|)] == b[..Min(|a|, |b|)]
  {
    var m := Min(|a|, |b|);
    var s := Mismatches(a, b);
    SumZero(s);
    assert forall i :: 0 <= i < m ==> (s[i] == 0 <==> a[..m][i] == b[..m][i]);
  }

  /** Every row has the same length. */
  predicate Rectangular(img: Image)
  {
    forall j :: 0 <= j < |img| ==> |img[j]| == |img[0]|
  }

  /** On a rectangular image the horizontal test passes exactly when the
      horizontal count is zero. (On rows of unequal length the count only
      sees the common prefix, while the test compares whole rows.) */
  lemma MirroredHorizontalNoDefects(img: Image, idx: nat)
    requires idx < |img| && Rectangular(img)
    ensures MirroredHorizontal(img, idx) <==> DefectsHorizontal(img, idx) == 0
  {
    var ps := MirrorPairs(idx, |img|);
    var s := seq(|ps|, k requires 0 <= k < |ps| => RowDefects(img[ps[k].0], img[ps[k].1]));
    SumZero(s);
    forall k | 0 <= k < |ps|
      ensures s[k] == 0 <==> img[ps[k].0] == img[ps[k].1]
    {
      var a, b := img[ps[k].0], img[ps[k].1];
      RowDefectsZero(a, b);
      assert a[..Min(|a|, |b|)] == a && b[..Min(|a|, |b|)] == b;
    }
  }

  /** The columns of an image, each read top to bottom. */
  function Columns(img: Image): (cols: Image)
    requires img != [] && Rectangular(img)
    ensures |cols| == Width(img)
    ensures forall c :: 0 <= c < |cols| ==> |cols[c]| == |img|
    ensures forall c, j :: 0 <= c < |cols| && 0 <= j < |img| ==> cols[c][j] == img[j][c]
  {
    seq(Width(img), c requires 0 <= c < Width(img) => seq(|img|, j requires 0 <= j < |img| => img[j][c]))
  }

  lemma ColumnDefectsTransposed(img: Image, l: nat, r: nat)
    requires img != [] && Rectangular(img) && l < Width(img) && r < Width(img)
    ensures ColumnDefects(img, l, r) == RowDefects(Columns(img)[l], Columns(img)[r])
  {
    var cols := Columns(img);
    assert seq(|img|, j requires 0 <= j < |img| => if Nth(img[j], l) == Nth(img[j], r) then 0 else 1)
        == seq(Min(|cols[l]|, |cols[r]|), i requires 0 <= i < Min(|cols[l]|, |cols[r]|) =>
             if cols[l][i] == cols[r][i] then 0 else 1);
  }

  /** A vertical mirror of a rectangular image is a horizontal mirror of its
      columns, with the same defect count: the two axes are the same test. */
  lemma VerticalIsTransposedHorizontal(img: Image, idx: nat)
    requires img != [] && Rectangular(img) && idx < Width(img)
    ensures DefectsVertical(img, idx) == DefectsHorizontal(Columns(img), idx)
    ensures MirroredVertical(img, idx) <==> MirroredHorizontal(Columns(img), idx)
  {
    var cols := Columns(img);
    var ps := MirrorPairs(idx, Width(img));
    forall k | 0 <= k < |ps|
      ensures ColumnDefects(img, ps[k].0, ps[k].1) == RowDefects(cols[ps[k].0], cols[ps[k].1])
    {
      ColumnDefectsTransposed(img, ps[k].0, ps[k].1);
    }
    assert seq(|ps|, k requires 0 <= k < |ps| => ColumnDefects(img, ps[k].0, ps[k].1))
        == seq(|ps|, k requires 0 <= k < |ps| => RowDefects(cols[ps[k].0], cols[ps[k].1]));
    MirroredVerticalNoDefects(img, idx);
    assert Rectangular(cols);
    MirroredHorizontalNoDefects(cols, idx);
  }

  /** `(lo..hi).find(p)`: the first index in the range that satisfies `p`. */
  function Find(lo: nat, hi: nat, p: nat -> bool): (r: Option<nat>)
    decreases hi - lo
    ensures r.Some? ==> lo <= r.value < hi && p(r.value)
    ensures r.Some? ==> forall j :: lo <= j < r.value ==> !p(j)
    ensures r.None? ==> forall j :: lo <= j < hi ==> !p(j)
  {
    if lo >= hi then None
    else if p(lo) then Some(lo)
    else Find(lo + 1, hi, p)
  }

  /** Whether a vertical line follows column `i`: a perfect mirror in part 1,
      a mirror with exactly one defect in part 2. */
  predicate VerticalAt(img: Image, i: nat, part2: bool)
  {
    img != [] && i + 1 < Width(img) &&
    if part2 then DefectsVertical(img, i) == 1 else MirroredVertical(img, i)
  }

  predicate HorizontalAt(img: Image, i: nat, part2: bool)
  {
    i + 1 < |img| &&
    if part2 then DefectsHorizontal(img, i) == 1 else MirroredHorizontal(img, i)
  }

  /** The two tests as search predicates. */
  function VerticalTest(img: Image, part2: bool): nat -> bool
  {
    (i: nat) => VerticalAt(img, i, part2)
  }

  function HorizontalTest(img: Image, part2: bool): nat -> bool
  {
    (i: nat) => HorizontalAt(img, i, part2)
  }

  /** The note for one image: a vertical line after column `i` scores
      `i + 1`, a horizontal line after row `i` scores `100 * (i + 1)`.
      Vertical lines are tried first, from the left. `None` stands for the
      panics: an empty image, an empty first row, or no line at all. */
  function Summary(img: Image, part2: bool): Option<nat>
  {
    if img == [] || Width(img) == 0 then None
    else
      var v := Find(0, Width(img) - 1, VerticalTest(img, part2));
      if v.Some? then Some(v.value + 1)
      else
        var h := Find(0, |img| - 1, HorizontalTest(img, part2));
        if h.Some? then Some(100 * (h.value + 1)) else None
  }

  /** The leftmost vertical line gives the note, whatever else the image
      holds. */
  lemma SummaryVertical(img: Image, part2: bool, i: nat)
    requires VerticalAt(img, i, part2) && forall j: nat :: j < i ==> !VerticalAt(img, j, part2)
    ensures Summary(img, part2) == Some(i + 1)
  {
    var p := VerticalTest(img, part2);
    assert p(i);
    var v := Find(0, Width(img) - 1, p);
    assert v.Some? && !(v.value < i) && !(i < v.value);
  }

  /** Without a vertical line, the topmost horizontal line gives the note. */
  lemma SummaryHorizontal(img: Image, part2: bool, i: nat)
    requires img != [] && Width(img) > 0
    requires forall j :: !VerticalAt(img, j, part2)
    requires HorizontalAt(img, i, part2) && forall j: nat :: j < i ==> !HorizontalAt(img, j, part2)
    ensures Summary(img, part2) == Some(100 * (i + 1))
  {
    var p, q := VerticalTest(img, part2), HorizontalTest(img, part2);
    assert forall j :: !p(j);
    assert Find(0, Width(img) - 1, p).None?;
    assert q(i);
    var h := Find(0, |img| - 1, q);
    assert h.Some? && !(h.value < i) && !(i < h.value);
  }

  /** The note panics exactly when the image has no line at all (or no
      first row to measure). */
  lemma SummaryPanics(img: Image, part2: bool)
    ensures Summary(img, part2).None? <==>
              img == [] || Width(img) == 0 ||
              ((forall i :: !VerticalAt(img, i, part2)) && (forall i :: !HorizontalAt(img, i, part2)))
  {
    if img != [] && Width(img) > 0 {
      var p, q := VerticalTest(img, part2), HorizontalTest(img, part2);
      var v := Find(0, Width(img) - 1, p);
      var h := Find(0, |img| - 1, q);
      if v.Some? {
        assert VerticalAt(img, v.value, part2);
      } else if h.Some? {
        assert HorizontalAt(img, h.value, part2);
      } else {
        forall i: nat ensures !VerticalAt(img, i, part2) && !HorizontalAt(img, i, part2) {
          if i + 1 < Width(img) {
            assert !p(i);
          }
          if i + 1 < |img| {
            assert !q(i);
          }
        }
      }
    }
  }

  /** A smudged line of part 2 is never a perfect line of part 1. */
  lemma SmudgedLineIsNotPerfect(img: Image, i: nat)
    requires img != [] && i < Width(img) && DefectsVertical(img, i) == 1
    ensures !MirroredVertical(img, i)
  {
    MirroredVerticalNoDefects(img, i);
  }

  /** The puzzle answer: the sum of the notes of all images, or a panic as
      soon as one image has no line. */
  function Answer(imgs: seq<Image>, part2: bool): (r: Option<nat>)
    ensures r.Some? <==> forall k :: 0 <= k < |imgs| ==> Summary(imgs[k], part2).Some?
  {
    var notes := seq(|imgs|, k requires 0 <= k < |imgs| => Summary(imgs[k], part2));
    assert forall k :: 0 <= k < |imgs| ==> notes[k] == Summary(imgs[k], part2);
    SumAll(notes)
  }
}
