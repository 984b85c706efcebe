/** Calibration values: each line contributes a two-digit number built from
    the first and the last digit found in it (part 1), where part 2 also
    accepts the spelled-out words "one" to "nine". */
module Day01 {
  import opened Common

  predicate IsDigit(c: char) { '0' <= c <= '9' }

  function DigitValue(c: char): (d: nat)
    requires IsDigit(c)
    ensures d <= 9
  {
    (c - '0') as nat
  }

  // ---------------------------------------------------------------- part 1

  /** Index of the first digit of `line`, scanning left to right (`find`). */
  function FirstDigitIndex(line: string): (r: Option<nat>)
    ensures r.None? <==> forall j :: 0 <= j < |line| ==> !IsDigit(line[j])
    ensures r.Some? ==> r.value < |line| && IsDigit(line[r.value])
                        && forall j :: 0 <= j < r.value ==> !IsDigit(line[j])
  {
    if line == [] then None
    else if IsDigit(line[0]) then Some(0)
    else
      match FirstDigitIndex(line[1..])
      case None => None
      case Some(i) => Some(i + 1)
  }

  /** Index of the last digit of `line`, scanning right to left (`rev().find`). */
  function LastDigitIndex(line: string): (r: Option<nat>)
    ensures r.None? <==> forall j :: 0 <= j < |line| ==> !IsDigit(line[j])
    ensures r.Some? ==> r.value < |line| && IsDigit(line[r.value])
                        && forall j :: r.value < j < |line| ==> !IsDigit(line[j])
  {
    if line == [] then None
    else if IsDigit(line[|line| - 1]) then Some(|line| - 1)
    else LastDigitIndex(line[..|line| - 1])
  }

  /** The part-1 value of one line; `None` is the `unwrap` panic on a line
      without any digit. */
  function LineValue(line: string): (r: Option<nat>)
    ensures r.None? <==> forall j :: 0 <= j < |line| ==> !IsDigit(line[j])
    ensures r.Some? ==> r.value <= 99
    ensures r.Some? ==> exists i, k :: 0 <= i <= k < |line| && IsDigit(line[i]) && IsDigit(line[k])
                          && (forall j :: 0 <= j < i ==> !IsDigit(line[j]))
                          && (forall j :: k < j < |line| ==> !IsDigit(line[j]))
                          && r.value == 10 * DigitValue(line[i]) + DigitValue(line[k])
  {
    match FirstDigitIndex(line)
    case None => None
    case Some(i) =>
      var k := LastDigitIndex(line).value;
      assert i <= k;
      Some(10 * DigitValue(line[i]) + DigitValue(line[k]))
  }

  /** A line holding exactly one digit `d` is worth `11 * d`: both scans stop
      on the same character. */
  lemma SingleDigitLine(line: string, k: nat)
    requires k < |line| && IsDigit(line[k])
    requires forall j :: 0 <= j < |line| && j != k ==> !IsDigit(line[j])
    ensures LineValue(line) == Some(11 * DigitValue(line[k]))
  {
    var f, l := FirstDigitIndex(line), LastDigitIndex(line);
    assert f.Some? && f.value == k;
    assert l.Some? && l.value == k;
  }

  /** Part 1: the sum of all line values; `None` when some line aborts. */
  function Part1(lines: seq<string>): (r: Option<nat>)
    ensures r.Some? <==> forall l :: 0 <= l < |lines| ==> LineValue(lines[l]).Some?
  {
    var vs := seq(|lines|, l requires 0 <= l < |lines| => LineValue(lines[l]));
    assert forall l :: 0 <= l < |lines| ==> vs[l] == LineValue(lines[l]);
    SumAll(vs)
  }

  /** Every part-1 line value lies in 0..99, so the answer is at most 99 per line. */
  lemma Part1Bound(lines: seq<string>)
    requires Part1(lines).Some?
    ensures Part1(lines).value <= 99 * |lines|
  {
    SumAllBounds(seq(|lines|, l requires 0 <= l < |lines| => LineValue(lines[l])), 0, 99);
  }

  // ---------------------------------------------------------------- part 2

  /** The 18 patterns of part 2: the numerals first, then the words. */
  const Words: seq<string> := ["1", "2", "3", "4", "5", "6", "7", "8", "9",
    "one", "two", "three", "four", "five", "six", "seven", "eight", "nine"]

  /** A recorded match: where it starts and which pattern it is. */
  datatype Match = Match(pos: nat, word: nat)

  predicate OccursAt(line: string, w: string, p: nat)
  {
    p + |w| <= |line| && line[p..p + |w|] == w
  }

  /** Patterns must be non-empty for the search to advance. */
  predicate NonEmptyPatterns(words: seq<string>)
  {
    forall v :: 0 <= v < |words| ==> |words[v]| > 0
  }

  /** A pattern whose first or last character occurs in it only once: no
      two occurrences of it can overlap. */
  predicate Unbordered(w: string)
  {
    |w| > 0 &&
    ((forall j :: 0 < j < |w| ==> w[j] != w[0]) || (forall j :: 0 <= j < |w| - 1 ==> w[j] != w[|w| - 1]))
  }

  /** Two overlapping occurrences repeat the pattern's first and last
      characters inside it. */
  lemma Overlap(line: string, w: string, p: nat, q: nat)
    requires |w| > 0 && OccursAt(line, w, p) && OccursAt(line, w, q) && p < q
    ensures q < p + |w| ==> w[q - p] == w[0] && w[|w| - 1 - (q - p)] == w[|w| - 1]
  {
    if q < p + |w| {
      var d, e := q - p, p + |w| - 1;
      assert line[p..p + |w|][d] == line[q] == line[q..q + |w|][0];
      assert line[p..p + |w|][|w| - 1] == line[e] == line[q..q + |w|][e - q];
    }
  }

  /** Occurrences of an unbordered pattern never overlap. */
  lemma Spaced(line: string, w: string, p: nat, q: nat)
    requires Unbordered(w) && OccursAt(line, w, p) && OccursAt(line, w, q) && p < q
    ensures p + |w| <= q
  {
    Overlap(line, w, p, q);
  }

  /** `str::match_indices` for pattern number `w`: its non-overlapping
      occurrences, left to right, searching from `from`. */
  function MatchIndices(words: seq<string>, line: string, w: nat, from: nat): (r: seq<Match>)
    requires NonEmptyPatterns(words) && w < |words|
    ensures forall k :: 0 <= k < |r| ==> r[k].word == w && from <= r[k].pos && OccursAt(line, words[w], r[k].pos)
    ensures forall k :: 0 <= k < |r| - 1 ==> r[k].pos + |words[w]| <= r[k + 1].pos
    ensures forall p :: from <= p && OccursAt(line, words[w], p) ==> r != [] && r[0].pos <= p
    decreases |line| - from
  {
    if from + |words[w]| > |line| then []
    else if line[from..from + |words[w]|] == words[w] then
      [Match(from, w)] + MatchIndices(words, line, w, from + |words[w]|)
    else MatchIndices(words, line, w, from + 1)
  }

  /** All matches, pattern by pattern in list order (`flat_map`). */
  function MatchesFrom(words: seq<string>, line: string, w: nat): (r: seq<Match>)
    requires NonEmptyPatterns(words) && w <= |words|
    ensures forall k :: 0 <= k < |r| ==> w <= r[k].word < |words| && OccursAt(line, words[r[k].word], r[k].pos)
    decreases |words| - w
  {
    if w == |words| then []
    else MatchIndices(words, line, w, 0) + MatchesFrom(words, line, w + 1)
  }

  /** `match_indices` skips no occurrence of an unbordered pattern: `k`
      is the match found at `p`. */
  lemma {:induction false} MatchIndicesComplete(words: seq<string>, line: string, w: nat, from: nat, p: nat)
    returns (k: nat)
    requires NonEmptyPatterns(words) && w < |words| && Unbordered(words[w])
    requires from <= p && OccursAt(line, words[w], p)
    ensures k < |MatchIndices(words, line, w, from)| && MatchIndices(words, line, w, from)[k].pos == p
    decreases |line| - from
  {
    var pat := words[w];
    var r := MatchIndices(words, line, w, from);
    assert from + |pat| <= |line|;
    if line[from..from + |pat|] == pat {
      var rest := MatchIndices(words, line, w, from + |pat|);
      assert r == [Match(from, w)] + rest;
      if p == from {
        k := 0;
      } else {
        Spaced(line, pat, from, p);
        var i := MatchIndicesComplete(words, line, w, from + |pat|, p);
        k := i + 1;
        assert r[k] == rest[i];
      }
    } else {
      assert p != from;
      k := MatchIndicesComplete(words, line, w, from + 1, p);
    }
  }

  /** Every occurrence of an unbordered pattern is among the collected
      matches: `k` is the one at `p`. */
  lemma {:induction false} AllMatched(words: seq<string>, line: string, w: nat, v: nat, p: nat) returns (k: nat)
    requires NonEmptyPatterns(words) && w <= v < |words| && Unbordered(words[v]) && OccursAt(line, words[v], p)
    ensures k < |MatchesFrom(words, line, w)| && MatchesFrom(words, line, w)[k].pos == p
    decreases |words| - w
  {
    var here := MatchIndices(words, line, w, 0);
    var rest := MatchesFrom(words, line, w + 1);
    assert MatchesFrom(words, line, w) == here + rest;
    if v == w {
      k := MatchIndicesComplete(words, line, w, 0, p);
    } else {
      var i := AllMatched(words, line, w + 1, v, p);
      k := |here| + i;
      assert (here + rest)[k] == rest[i];
    }
  }

  /** `min_by_key(pos)`: the FIRST element whose position is least. */
  function MinByPos(ms: seq<Match>): (k: nat)
    requires ms != []
    ensures k < |ms|
    ensures forall j :: 0 <= j < |ms| ==> ms[k].pos <= ms[j].pos
    ensures forall j :: 0 <= j < k ==> ms[k].pos < ms[j].pos
  {
    if |ms| == 1 then 0
    else
      var k := MinByPos(ms[..|ms| - 1]);
      if ms[|ms| - 1].pos < ms[k].pos then |ms| - 1 else k
  }

  /** `max_by_key(pos)`: the LAST element whose position is greatest. */
  function MaxByPos(ms: seq<Match>): (k: nat)
    requires ms != []
    ensures k < |ms|
    ensures forall j :: 0 <= j < |ms| ==> ms[j].pos <= ms[k].pos
    ensures forall j :: k < j < |ms| ==> ms[j].pos < ms[k].pos
  {
    if |ms| == 1 then 0
    else
      var k := MaxByPos(ms[..|ms| - 1]);
      if ms[k].pos <= ms[|ms| - 1].pos then |ms| - 1 else k
  }

  /** Position of a pattern in the list mapped to its digit: numerals 0..8
      and words 9..17 both give `index mod 9 + 1`. */
  function WordDigit(index: nat): (d: nat)
    requires index < 18
    ensures d == index % 9 + 1 && 1 <= d <= 9
  {
    var n := if index > 8 then index - 9 else index;
    n + 1
  }

  /** The value read off a non-empty list of matches: the digit of the
      leftmost match, then the digit of the rightmost one. */
  function MatchesValue(ms: seq<Match>): (r: Option<nat>)
    requires forall k :: 0 <= k < |ms| ==> ms[k].word < 18
    ensures r.None? <==> ms == []
    ensures r.Some? ==> 11 <= r.value <= 99
    ensures r.Some? ==>
              exists f, l :: 0 <= f < |ms| && 0 <= l < |ms|
                && (forall j :: 0 <= j < |ms| ==> ms[f].pos <= ms[j].pos <= ms[l].pos)
                && r.value == 10 * WordDigit(ms[f].word) + WordDigit(ms[l].word)
  {
    if ms == [] then None
    else
      var first := ms[MinByPos(ms)];
      var last := ms[MaxByPos(ms)];
      Some(10 * WordDigit(first.word) + WordDigit(last.word))
  }

  /** The pattern list is passed around as a parameter satisfying this
      predicate (it is `Words` at the top), so that proofs never unfold the
      literal list. */
  predicate ValidPatterns(words: seq<string>)
  {
    |words| == 18 && NonEmptyPatterns(words) && forall v :: 0 <= v < |words| ==> Unbordered(words[v])
  }

  lemma WordsAreValid()
    ensures ValidPatterns(Words)
  {
  }

  /** The part-2 value of one line; `None` is the `unwrap` panic when no
      pattern occurs. */
  function LineValue2(words: seq<string>, line: string): (r: Option<nat>)
    requires ValidPatterns(words)
    ensures r.Some? ==> 11 <= r.value <= 99
    ensures r.Some? ==> Extremes(words, line, r.value)
  {
    MatchesValueExtremes(words, line);
    MatchesValue(MatchesFrom(words, line, 0))
  }

  /** `value` is ten times the digit of a leftmost occurrence of any
      pattern plus the digit of a rightmost one. */
  ghost predicate Extremes(words: seq<string>, line: string, value: nat)
  {
    exists v1, p1: nat, v2, p2: nat :: 0 <= v1 < |words| && 0 <= v2 < |words| && v1 < 18 && v2 < 18
      && OccursAt(line, words[v1], p1) && OccursAt(line, words[v2], p2)
      && (forall v, p: nat :: 0 <= v < |words| && OccursAt(line, words[v], p) ==> p1 <= p <= p2)
      && value == 10 * WordDigit(v1) + WordDigit(v2)
  }

  /** The value read off the matches takes its digits from a leftmost and
      a rightmost occurrence. */
  lemma MatchesValueExtremes(words: seq<string>, line: string)
    requires ValidPatterns(words)
    ensures MatchesValue(MatchesFrom(words, line, 0)).Some? ==>
      Extremes(words, line, MatchesValue(MatchesFrom(words, line, 0)).value)
  {
    var ms := MatchesFrom(words, line, 0);
    var r := MatchesValue(ms);
    if r.Some? {
      var first, last := ms[MinByPos(ms)], ms[MaxByPos(ms)];
      assert r.value == 10 * WordDigit(first.word) + WordDigit(last.word);
      forall v, p: nat | 0 <= v < |words| && OccursAt(line, words[v], p)
        ensures first.pos <= p <= last.pos
      {
        var k := AllMatched(words, line, 0, v, p);
        assert first.pos <= ms[k].pos <= last.pos;
      }
      ExtremesIntro(words, line, r.value, first.word, first.pos, last.word, last.pos);
    }
  }

  lemma ExtremesIntro(words: seq<string>, line: string, value: nat, v1: nat, p1: nat, v2: nat, p2: nat)
    requires v1 < |words| && v2 < |words| && v1 < 18 && v2 < 18
    requires OccursAt(line, words[v1], p1) && OccursAt(line, words[v2], p2)
    requires forall v, p: nat :: 0 <= v < |words| && OccursAt(line, words[v], p) ==> p1 <= p <= p2
    requires value == 10 * WordDigit(v1) + WordDigit(v2)
    ensures Extremes(words, line, value)
  {
  }

  /** A line aborts part 2 exactly when none of the 18 patterns occurs. */
  lemma AbortsIffNoPattern(words: seq<string>, line: string)
    requires ValidPatterns(words)
    ensures LineValue2(words, line).None? <==> forall v, p :: 0 <= v < |words| ==> !OccursAt(line, words[v], p)
  {
    var ms := MatchesFrom(words, line, 0);
    if LineValue2(words, line).None? {
      forall v, p | 0 <= v < |words| && OccursAt(line, words[v], p) ensures false {
        var k := AllMatched(words, line, 0, v, p);
      }
    } else {
      assert OccursAt(line, words[ms[0].word], ms[0].pos);
    }
  }

  /** The first digit of a part-2 value comes from a match that starts no
      later than any occurrence of any pattern. */
  lemma FirstMatchIsLeftmost(words: seq<string>, line: string, v: nat, p: nat)
    requires ValidPatterns(words) && v < |words| && OccursAt(line, words[v], p)
    ensures MatchesFrom(words, line, 0) != []
    ensures MatchesFrom(words, line, 0)[MinByPos(MatchesFrom(words, line, 0))].pos <= p
  {
    var k := AllMatched(words, line, 0, v, p);
  }

  /** The last digit of a part-2 value comes from a match that starts no
      earlier than any occurrence of any pattern. */
  lemma LastMatchIsRightmost(words: seq<string>, line: string, v: nat, p: nat)
    requires ValidPatterns(words) && v < |words| && OccursAt(line, words[v], p)
    ensures MatchesFrom(words, line, 0) != []
    ensures p <= MatchesFrom(words, line, 0)[MaxByPos(MatchesFrom(words, line, 0))].pos
  {
    var k := AllMatched(words, line, 0, v, p);
  }

  /** Part 2: the sum of the part-2 line values. */
  function Part2(words: seq<string>, lines: seq<string>): (r: Option<nat>)
    requires ValidPatterns(words)
    ensures r.Some? <==> forall l :: 0 <= l < |lines| ==> LineValue2(words, lines[l]).Some?
  {
    var vs := seq(|lines|, l requires 0 <= l < |lines| => LineValue2(words, lines[l]));
    assert forall l :: 0 <= l < |lines| ==> vs[l] == LineValue2(words, lines[l]);
    SumAll(vs)
  }

  /** Every part-2 line value lies in 11..99. */
  lemma Part2Bounds(words: seq<string>, lines: seq<string>)
    requires ValidPatterns(words) && Part2(words, lines).Some?
    ensures 11 * |lines| <= Part2(words, lines).value <= 99 * |lines|
  {
    var vs := seq(|lines|, l requires 0 <= l < |lines| => LineValue2(words, lines[l]));
    SumAllBounds(vs, 11, 99);
  }

  /** The numeral and the word of the same number give the same digit. */
  lemma NumeralAndWordAgree(n: nat)
    requires 1 <= n <= 9
    ensures WordDigit(n - 1) == WordDigit(n + 8) == n
  {
  }
}
