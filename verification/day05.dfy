/** Seed almanac. Each map is a list of lines `destination source range`;
    a value covered by a line's source interval moves by the same offset to
    its destination interval. Part 1 pushes single seeds through the chain
    of maps; part 2 pushes whole seed intervals, splitting them where a
    line's source interval cuts them. */
module Day05 {
  import opened Common

  /** One line of an almanac map. */
  datatype Map = Map(source: nat, destination: nat, range: nat)

  /** End (exclusive) of the source interval. */
  function SourceEnd(m: Map): nat
  {
    m.source + m.range
  }

  /** `source_contains`; it agrees with part 1's test, a `checked_sub`
      that succeeds with an offset below the range. */
  predicate SourceContains(m: Map, v: int)
    ensures SourceContains(m, v) <==> v >= m.source && v - m.source < m.range
  {
    m.source <= v && v < SourceEnd(m)
  }

  /** The value a map line sends a covered value to. */
  function Shifted(m: Map, v: nat): nat
    requires SourceContains(m, v)
  {
    v - m.source + m.destination
  }

  /** One map: the first line that covers `v` (the `checked_sub` succeeds
      and the offset is below the range) translates it, otherwise it is
      unchanged. */
  function Lookup(lines: seq<Map>, v: nat): nat
  {
    if lines == [] then v
    else if v >= lines[0].source && v - lines[0].source < lines[0].range then Shifted(lines[0], v)
    else Lookup(lines[1..], v)
  }

  /** Some line before index `i` covers `v`. */
  predicate CoveredBefore(lines: seq<Map>, i: nat, v: int)
    requires i <= |lines|
  {
    exists j :: 0 <= j < i && SourceContains(lines[j], v)
  }

  /** Reference reading of a lookup: the first covering line decides, and an
      uncovered value passes through. */
  lemma {:induction false} LookupFirstCover(lines: seq<Map>, v: nat, i: nat)
    requires i <= |lines| && !CoveredBefore(lines, i, v)
    ensures i == |lines| ==> Lookup(lines, v) == v
    ensures i < |lines| && SourceContains(lines[i], v) ==> Lookup(lines, v) == Shifted(lines[i], v)
  {
    if lines != [] {
      assert !SourceContains(lines[0], v) || i == 0;
      if i > 0 {
        forall j | 0 <= j < i - 1
          ensures !SourceContains(lines[1..][j], v)
        {
          assert lines[1..][j] == lines[j + 1];
        }
        LookupFirstCover(lines[1..], v, i - 1);
      }
    }
  }

  /** The chain of maps applied in order. */
  function Location(maps: seq<seq<Map>>, v: nat): nat
  {
    if maps == [] then v else Location(maps[1..], Lookup(maps[0], v))
  }

  /** The inner `for element in map` loop with its `break`. */
  method LookupLoop(lines: seq<Map>, seed: nat) returns (v: nat)
    ensures v == Lookup(lines, seed)
  {
    v := seed;
    for k := 0 to |lines|
      invariant v == seed && !CoveredBefore(lines, k, seed)
    {
      var m := lines[k];
      if seed >= m.source {
        var offset := seed - m.source;
        if offset < m.range {
          v := offset + m.destination;
          LookupFirstCover(lines, seed, k);
          return;
        }
      }
    }
    LookupFirstCover(lines, seed, |lines|);
  }

  /** The seed's location: `seed` reassigned through every map. */
  method SeedLocation(maps: seq<seq<Map>>, seed: nat) returns (v: nat)
    ensures v == Location(maps, seed)
  {
    v := seed;
    for i := 0 to |maps|
      invariant Location(maps[i..], v) == Location(maps, seed)
    {
      assert maps[i..][1..] == maps[i + 1..];
      v := LookupLoop(maps[i], v);
    }
  }

  /** Part 1: the lowest location of any seed (`min().unwrap()` aborts on an
      empty seed list). */
  method Part1(seeds: seq<nat>, maps: seq<seq<Map>>) returns (r: Option<nat>)
    ensures r.None? <==> seeds == []
    ensures r.Some? ==> exists k :: 0 <= k < |seeds| && r.value == Location(maps, seeds[k])
    ensures r.Some? ==> forall k :: 0 <= k < |seeds| ==> r.value <= Location(maps, seeds[k])
  {
    if seeds == [] {
      return None;
    }
    var best := SeedLocation(maps, seeds[0]);
    var at := 0;
    for k := 1 to |seeds|
      invariant 0 <= at < k && best == Location(maps, seeds[at])
      invariant forall q :: 0 <= q < k ==> best <= Location(maps, seeds[q])
    {
      var loc := SeedLocation(maps, seeds[k]);
      if loc < best {
        best, at := loc, k;
      }
    }
    return Some(best);
  }

  // ---------------------------------------------------------------- part 2

  /** A seed interval; `translate_seed_range` reads `end` as exclusive. */
  datatype SeedRange = SeedRange(start: nat, end: nat)

  datatype Translated = Translated(transformed: SeedRange, before: Option<SeedRange>, after: Option<SeedRange>)

  function Max(a: nat, b: nat): nat { if a < b then b else a }
  function Min(a: nat, b: nat): nat { if a < b then a else b }

  /** `translate_seed_range`: the four overlap cases, tested in the source's
      order (leaking both sides, leaking after, leaking before, contained). */
  function TranslateSeedRange(m: Map, sr: SeedRange): (r: Option<Translated>)
    requires sr.start <= sr.end
    ensures r.Some? ==>
              r.value.transformed.start == Max(sr.start, m.source) - m.source + m.destination
              && r.value.transformed.end == Min(sr.end, SourceEnd(m)) - m.source + m.destination
    ensures r.Some? ==> r.value.before == (if sr.start < m.source then Some(SeedRange(sr.start, m.source)) else None)
    ensures r.Some? ==> r.value.after == (if SourceEnd(m) < sr.end then Some(SeedRange(SourceEnd(m), sr.end)) else None)
    ensures sr.start < sr.end && m.range > 0 ==> (r.None? <==> sr.end <= m.source || SourceEnd(m) <= sr.start)
  {
    var mStart, mEnd, sStart, sEnd := m.source, SourceEnd(m), sr.start, sr.end;
    if sStart < mStart && mEnd < sEnd then
      Some(Translated(SeedRange(mStart - m.source + m.destination, mEnd - m.source + m.destination),
                      Some(SeedRange(sStart, mStart)), Some(SeedRange(mEnd, sEnd))))
    else if mStart <= sStart && sStart < mEnd && mEnd < sEnd then
      Some(Translated(SeedRange(sStart - m.source + m.destination, mEnd - m.source + m.destination),
                      None, Some(SeedRange(mEnd, sEnd))))
    else if sStart < mStart && mStart < sEnd && sEnd <= mEnd then
      Some(Translated(SeedRange(mStart - m.source + m.destination, sEnd - m.source + m.destination),
                      Some(SeedRange(sStart, mStart)), None))
    else if mStart <= sStart && sEnd <= mEnd then
      Some(Translated(SeedRange(sStart - m.source + m.destination, sEnd - m.source + m.destination),
                      None, None))
    else
      None
  }

  /** The four cases of `translate_seed_range` never overlap, so their order
      does not matter. */
  lemma CasesExclusive(m: Map, sr: SeedRange)
    ensures !((sr.start < m.source && SourceEnd(m) < sr.end)
              && (m.source <= sr.start && sr.start < SourceEnd(m) && SourceEnd(m) < sr.end))
    ensures !((sr.start < m.source && SourceEnd(m) < sr.end)
              && (sr.start < m.source && m.source < sr.end && sr.end <= SourceEnd(m)))
    ensures !((sr.start < m.source && SourceEnd(m) < sr.end) && (m.source <= sr.start && sr.end <= SourceEnd(m)))
    ensures !((m.source <= sr.start && sr.start < SourceEnd(m) && SourceEnd(m) < sr.end)
              && (sr.start < m.source && m.source < sr.end && sr.end <= SourceEnd(m)))
    ensures !((m.source <= sr.start && sr.start < SourceEnd(m) && SourceEnd(m) < sr.end)
              && (m.source <= sr.start && sr.end <= SourceEnd(m)))
    ensures !((sr.start < m.source && m.source < sr.end && sr.end <= SourceEnd(m))
              && (m.source <= sr.start && sr.end <= SourceEnd(m)))
  {
  }

  predicate InRange(lo: int, hi: int, x: int)
  {
    lo <= x < hi
  }

  /** The integers of a seed interval, end excluded. */
  ghost function Points(r: SeedRange): set<nat>
  {
    set x: nat | r.start <= x < r.end && InRange(r.start, r.end, x)
  }

  ghost function OptPoints(r: Option<SeedRange>): set<nat>
  {
    if r.None? then {} else Points(r.value)
  }

  ghost function Source(m: Map): set<nat>
  {
    set x: nat | m.source <= x < SourceEnd(m) && InRange(m.source, SourceEnd(m), x)
  }

  /** A set of covered values moved by a map line. */
  ghost function Shift(m: Map, s: set<nat>): set<nat>
    requires s <= Source(m)
  {
    set x | x in s :: Shifted(m, x)
  }

  /** The pieces of `translate_seed_range` tile its input: the transformed
      interval is the image of the overlap with the source interval, and the
      parts left before and after are exactly what the source does not
      cover. When there is no overlap, nothing of the input is covered. */
  lemma TranslateTiles(m: Map, sr: SeedRange)
    requires sr.start <= sr.end
    ensures TranslateSeedRange(m, sr).None? ==> Points(sr) * Source(m) == {}
    ensures TranslateSeedRange(m, sr).Some? ==>
      var t := TranslateSeedRange(m, sr).value;
      Points(t.transformed) == Shift(m, Points(sr) * Source(m))
      && OptPoints(t.before) + OptPoints(t.after) == Points(sr) - Source(m)
  {
    var r := TranslateSeedRange(m, sr);
    if r.None? {
      forall x | x in Points(sr) * Source(m)
        ensures false
      {
      }
    } else {
      var t := r.value;
      var lo, hi := Max(sr.start, m.source), Min(sr.end, SourceEnd(m));
      forall y | y in Points(t.transformed)
        ensures y in Shift(m, Points(sr) * Source(m))
      {
        var x: nat := y + m.source - m.destination;
        assert x in Points(sr) * Source(m);
        assert y == Shifted(m, x);
      }
      assert OptPoints(t.before) + OptPoints(t.after) == Points(sr) - Source(m);
    }
  }

  /** The integers of all intervals of a list. */
  ghost function AllPoints(rs: seq<SeedRange>): set<nat>
  {
    if rs == [] then {} else AllPoints(rs[..|rs| - 1]) + Points(rs[|rs| - 1])
  }

  lemma AllPointsSnoc(rs: seq<SeedRange>, r: SeedRange)
    ensures AllPoints(rs + [r]) == AllPoints(rs) + Points(r)
  {
    assert (rs + [r])[..|rs|] == rs;
  }

  lemma {:induction false} AllPointsAppend(a: seq<SeedRange>, b: seq<SeedRange>)
    ensures AllPoints(a + b) == AllPoints(a) + AllPoints(b)
    decreases |b|
  {
    if b == [] {
      assert a + b == a;
    } else {
      var last := b[|b| - 1];
      assert AllPoints(b) == AllPoints(b[..|b| - 1]) + Points(last);
      assert a + b == (a + b[..|b| - 1]) + [last];
      AllPointsSnoc(a + b[..|b| - 1], last);
      AllPointsAppend(a, b[..|b| - 1]);
    }
  }

  /** Every interval of the list is non-empty, as the `assert!` demands. */
  predicate AllProper(rs: seq<SeedRange>)
  {
    forall k :: 0 <= k < |rs| ==> rs[k].start < rs[k].end
  }

  lemma ShiftUnion(m: Map, a: set<nat>, b: set<nat>)
    requires a <= Source(m) && b <= Source(m)
    ensures Shift(m, a + b) == Shift(m, a) + Shift(m, b)
  {
  }

  /** One popped interval: its translated piece (if any) and the pieces
      left over for the later lines. */
  method TranslateOne(m: Map, seed: SeedRange) returns (moved: seq<SeedRange>, kept: seq<SeedRange>)
    requires seed.start < seed.end
    ensures AllPoints(moved) == Shift(m, Points(seed) * Source(m))
    ensures AllPoints(kept) == Points(seed) - Source(m)
    ensures AllProper(kept)
    ensures m.range > 0 ==> AllProper(moved)
  {
    TranslateTiles(m, seed);
    PiecesProper(m, seed);
    var x := TranslateSeedRange(m, seed);
    match x {
      case Some(res) =>
        moved := [res.transformed];
        kept := [];
        if res.before.Some? {
          kept := kept + [res.before.value];
        }
        if res.after.Some? {
          kept := kept + [res.after.value];
        }
        KeptPieces(res.before, res.after, kept);
        KeptProper(res.before, res.after, kept);
        AllPointsSnoc([], res.transformed);
      case None =>
        moved, kept := [], [seed];
        Untouched(m, seed);
    }
  }

  /** The pieces of a non-empty interval are non-empty, and so is the
      translated one when the line covers anything. */
  lemma PiecesProper(m: Map, sr: SeedRange)
    requires sr.start < sr.end
    ensures TranslateSeedRange(m, sr).Some? ==>
      var t := TranslateSeedRange(m, sr).value;
      (t.before.Some? ==> t.before.value.start < t.before.value.end)
      && (t.after.Some? ==> t.after.value.start < t.after.value.end)
      && (m.range > 0 ==> t.transformed.start < t.transformed.end)
  {
  }

  /** An interval the line does not cover is kept whole. */
  lemma Untouched(m: Map, seed: SeedRange)
    requires Points(seed) * Source(m) == {}
    ensures AllPoints([]) == Shift(m, Points(seed) * Source(m))
    ensures AllPoints([seed]) == Points(seed) - Source(m)
  {
    AllPointsSnoc([], seed);
  }

  /** The list of the pieces left before and after. */
  lemma KeptPieces(before: Option<SeedRange>, after: Option<SeedRange>, kept: seq<SeedRange>)
    requires kept == (if before.Some? then [before.value] else []) + (if after.Some? then [after.value] else [])
    ensures AllPoints(kept) == OptPoints(before) + OptPoints(after)
  {
    var first: seq<SeedRange> := if before.Some? then [before.value] else [];
    assert AllPoints(first) == OptPoints(before) by {
      if before.Some? {
        AllPointsSnoc([], before.value);
      }
    }
    if after.Some? {
      AllPointsSnoc(first, after.value);
    } else {
      assert kept == first;
    }
  }

  /** The kept pieces are non-empty when both optional pieces are. */
  lemma KeptProper(before: Option<SeedRange>, after: Option<SeedRange>, kept: seq<SeedRange>)
    requires kept == (if before.Some? then [before.value] else []) + (if after.Some? then [after.value] else [])
    requires before.Some? ==> before.value.start < before.value.end
    requires after.Some? ==> after.value.start < after.value.end
    ensures AllProper(kept)
  {
  }

  lemma AllProperAppend(a: seq<SeedRange>, b: seq<SeedRange>)
    requires AllProper(a) && AllProper(b)
    ensures AllProper(a + b)
  {
  }

  /** The points of a pending suffix: its first interval and the rest. */
  lemma SuffixPoints(pending: seq<SeedRange>, j: nat)
    requires j < |pending|
    ensures AllPoints(pending[j..]) == Points(pending[j]) + AllPoints(pending[j + 1..])
  {
    assert pending[j..] == [pending[j]] + pending[j + 1..];
    AllPointsAppend([pending[j]], pending[j + 1..]);
    assert [pending[j]] == [] + [pending[j]];
    AllPointsSnoc([], pending[j]);
  }

  /** The pop loop keeps its invariant: the pieces of the popped interval
      join the moved and the kept lists. */
  lemma PopStep(m: Map, pending: seq<SeedRange>, j: nat, done: seq<SeedRange>,
                news: seq<SeedRange>, moved: seq<SeedRange>, skipped: seq<SeedRange>, kept: seq<SeedRange>)
    requires j < |pending|
    requires AllPoints(skipped) == AllPoints(pending[j + 1..]) - Source(m)
    requires AllPoints(news) == AllPoints(done) + Shift(m, AllPoints(pending[j + 1..]) * Source(m))
    requires AllPoints(moved) == Shift(m, Points(pending[j]) * Source(m))
    requires AllPoints(kept) == Points(pending[j]) - Source(m)
    requires AllProper(skipped) && AllProper(kept)
    ensures AllPoints(skipped + kept) == AllPoints(pending[j..]) - Source(m)
    ensures AllPoints(news + moved) == AllPoints(done) + Shift(m, AllPoints(pending[j..]) * Source(m))
  {
    ghost var p, rest, src := Points(pending[j]), AllPoints(pending[j + 1..]), Source(m);
    SuffixPoints(pending, j);
    assert (p + rest) * src == p * src + rest * src;
    ShiftUnion(m, p * src, rest * src);
    AllPointsAppend(news, moved);
    AllPointsAppend(skipped, kept);
  }

  /** The `assert!(os.start < os.end)` sweep over the pending intervals. */
  method CheckProper(pending: seq<SeedRange>) returns (ok: bool)
    ensures ok <==> AllProper(pending)
  {
    for k := 0 to |pending|
      invariant forall q :: 0 <= q < k ==> pending[q].start < pending[q].end
    {
      if pending[k].start >= pending[k].end {
        return false;
      }
    }
    return true;
  }

  /** The `assert!` sweep and the `while let Some(seed) = old_seeds.pop()`
      loop for one map line: the covered part of each pending interval goes
      to `done`, moved by the line, and the uncovered parts stay pending. */
  method ApplyLine(m: Map, pending: seq<SeedRange>, done: seq<SeedRange>)
    returns (r: Option<(seq<SeedRange>, seq<SeedRange>)>)
    ensures r.None? <==> !AllProper(pending)
    ensures r.Some? ==> AllProper(r.value.0)
    ensures r.Some? ==> AllPoints(r.value.0) == AllPoints(pending) - Source(m)
    ensures r.Some? ==> AllPoints(r.value.1) == AllPoints(done) + Shift(m, AllPoints(pending) * Source(m))
    ensures r.Some? && m.range > 0 && AllProper(done) ==> AllProper(r.value.1)
  {
    var ok := CheckProper(pending);
    if !ok {
      return None;
    }
    var olds, news, skipped := pending, done, [];
    assert pending[|olds|..] == [];
    while |olds| > 0
      invariant olds == pending[..|olds|]
      invariant AllProper(skipped)
      invariant AllPoints(skipped) == AllPoints(pending[|olds|..]) - Source(m)
      invariant AllPoints(news) == AllPoints(done) + Shift(m, AllPoints(pending[|olds|..]) * Source(m))
      invariant m.range > 0 && AllProper(done) ==> AllProper(news)
    {
      var seed := olds[|olds| - 1];
      olds := olds[..|olds| - 1];
      var moved, kept := TranslateOne(m, seed);
      PopStep(m, pending, |olds|, done, news, moved, skipped, kept);
      AllProperAppend(skipped, kept);
      if m.range > 0 && AllProper(done) {
        AllProperAppend(news, moved);
      }
      news := news + moved;
      skipped := skipped + kept;
    }
    return Some((skipped, news));
  }

  /** The values of `s` that no line before index `i` covers. */
  ghost function Uncovered(lines: seq<Map>, i: nat, s: set<nat>): set<nat>
    requires i <= |lines|
  {
    set x | x in s && !CoveredBefore(lines, i, x)
  }

  /** Where one map sends the values of `s` that a line before index `i`
      covers. */
  ghost function CoveredImage(lines: seq<Map>, i: nat, s: set<nat>): set<nat>
    requires i <= |lines|
  {
    set x | x in s && CoveredBefore(lines, i, x) :: Lookup(lines, x)
  }

  /** Where one map sends every value of `s`. */
  ghost function LookupImage(lines: seq<Map>, s: set<nat>): set<nat>
  {
    set x | x in s :: Lookup(lines, x)
  }

  lemma UncoveredStep(lines: seq<Map>, i: nat, s: set<nat>)
    requires i < |lines|
    ensures Uncovered(lines, i + 1, s) == Uncovered(lines, i, s) - Source(lines[i])
  {
    forall x | x in s
      ensures CoveredBefore(lines, i + 1, x) <==> CoveredBefore(lines, i, x) || SourceContains(lines[i], x)
    {
      if CoveredBefore(lines, i + 1, x) && !SourceContains(lines[i], x) {
        var j :| 0 <= j < i + 1 && SourceContains(lines[j], x);
        assert j < i;
      }
    }
  }

  /** The line at index `i` takes exactly the values no earlier line
      covered, and sends them where the whole map does. */
  lemma CoveredImageStep(lines: seq<Map>, i: nat, s: set<nat>)
    requires i < |lines|
    ensures Uncovered(lines, i, s) * Source(lines[i]) <= Source(lines[i])
    ensures CoveredImage(lines, i + 1, s)
         == CoveredImage(lines, i, s) + Shift(lines[i], Uncovered(lines, i, s) * Source(lines[i]))
  {
    var m := lines[i];
    forall y | y in CoveredImage(lines, i + 1, s)
      ensures y in CoveredImage(lines, i, s) + Shift(m, Uncovered(lines, i, s) * Source(m))
    {
      var x :| x in s && CoveredBefore(lines, i + 1, x) && y == Lookup(lines, x);
      if !CoveredBefore(lines, i, x) {
        var j :| 0 <= j < i + 1 && SourceContains(lines[j], x);
        assert j == i;
        LookupFirstCover(lines, x, i);
        assert x in Uncovered(lines, i, s) * Source(m);
      }
    }
    forall y | y in Shift(m, Uncovered(lines, i, s) * Source(m))
      ensures y in CoveredImage(lines, i + 1, s)
    {
      var x :| x in Uncovered(lines, i, s) * Source(m) && y == Shifted(m, x);
      LookupFirstCover(lines, x, i);
      assert CoveredBefore(lines, i + 1, x);
    }
    forall y | y in CoveredImage(lines, i, s)
      ensures y in CoveredImage(lines, i + 1, s)
    {
      var x :| x in s && CoveredBefore(lines, i, x) && y == Lookup(lines, x);
      var j :| 0 <= j < i && SourceContains(lines[j], x);
      assert CoveredBefore(lines, i + 1, x);
    }
  }

  /** After the last line, the moved values and the untouched ones together
      are the image of the map. */
  lemma ImageSplit(lines: seq<Map>, s: set<nat>)
    ensures LookupImage(lines, s) == CoveredImage(lines, |lines|, s) + Uncovered(lines, |lines|, s)
  {
    forall x | x in Uncovered(lines, |lines|, s)
      ensures x in LookupImage(lines, s)
    {
      LookupFirstCover(lines, x, |lines|);
    }
    forall x | x in s && !CoveredBefore(lines, |lines|, x)
      ensures Lookup(lines, x) in Uncovered(lines, |lines|, s)
    {
      LookupFirstCover(lines, x, |lines|);
    }
  }

  /** Every line has a non-empty source interval. */
  predicate PositiveLines(lines: seq<Map>)
  {
    forall i :: 0 <= i < |lines| ==> lines[i].range > 0
  }

  /** One map over the interval lists (`for m in map`, then
      `new_seeds.append(old_seeds)`): the points come out exactly as the
      part-1 lookup sends them. */
  method ApplyMap(lines: seq<Map>, seeds: seq<SeedRange>) returns (r: Option<seq<SeedRange>>)
    ensures r.Some? ==> AllPoints(r.value) == LookupImage(lines, AllPoints(seeds))
    ensures AllProper(seeds) && PositiveLines(lines) ==> r.Some? && AllProper(r.value)
  {
    ghost var s := AllPoints(seeds);
    var pending, done := seeds, [];
    assert AllPoints(pending) == Uncovered(lines, 0, s);
    for i := 0 to |lines|
      invariant AllPoints(pending) == Uncovered(lines, i, s)
      invariant AllPoints(done) == CoveredImage(lines, i, s)
      invariant AllProper(seeds) && PositiveLines(lines) ==> AllProper(pending) && AllProper(done)
    {
      var next := ApplyLine(lines[i], pending, done);
      if next.None? {
        return None;
      }
      UncoveredStep(lines, i, s);
      CoveredImageStep(lines, i, s);
      pending, done := next.value.0, next.value.1;
    }
    AllPointsAppend(done, pending);
    ImageSplit(lines, s);
    if AllProper(seeds) && PositiveLines(lines) {
      AllProperAppend(done, pending);
    }
    return Some(done + pending);
  }

  /** Where the chain of maps sends every value of `s`. */
  ghost function Locations(maps: seq<seq<Map>>, s: set<nat>): set<nat>
  {
    if maps == [] then s else Locations(maps[1..], LookupImage(maps[0], s))
  }

  /** Moving whole sets through the maps is moving each value through them:
      part 2 computes the part-1 location of every value it holds. */
  lemma {:induction false} LocationsPointwise(maps: seq<seq<Map>>, s: set<nat>)
    ensures Locations(maps, s) == set x | x in s :: Location(maps, x)
    decreases |maps|
  {
    if maps != [] {
      LocationsPointwise(maps[1..], LookupImage(maps[0], s));
      forall y | y in Locations(maps, s)
        ensures y in set x | x in s :: Location(maps, x)
      {
        var z :| z in LookupImage(maps[0], s) && y == Location(maps[1..], z);
        var x :| x in s && z == Lookup(maps[0], x);
        assert y == Location(maps, x);
      }
      forall x | x in s
        ensures Location(maps, x) in Locations(maps, s)
      {
        assert Lookup(maps[0], x) in LookupImage(maps[0], s);
      }
    }
  }

  predicate PositiveMaps(maps: seq<seq<Map>>)
  {
    forall i :: 0 <= i < |maps| ==> PositiveLines(maps[i])
  }

  predicate IsLeast(v: nat, s: set<nat>)
  {
    v in s && forall y :: y in s ==> v <= y
  }

  lemma {:induction false} AllPointsMember(rs: seq<SeedRange>, y: nat)
    ensures y in AllPoints(rs) <==> exists k :: 0 <= k < |rs| && rs[k].start <= y < rs[k].end
  {
    if rs != [] {
      var init := rs[..|rs| - 1];
      AllPointsMember(init, y);
      if exists k :: 0 <= k < |init| && init[k].start <= y < init[k].end {
        var k :| 0 <= k < |init| && init[k].start <= y < init[k].end;
        assert rs[k] == init[k];
      }
      if exists k :: 0 <= k < |rs| && rs[k].start <= y < rs[k].end {
        var k :| 0 <= k < |rs| && rs[k].start <= y < rs[k].end;
        if k < |init| {
          assert init[k] == rs[k];
        } else {
          assert y in Points(rs[|rs| - 1]);
        }
      }
    }
  }

  /** A list of non-empty intervals holds a point exactly when it is not
      empty. */
  lemma ProperPointsEmpty(rs: seq<SeedRange>)
    requires AllProper(rs)
    ensures AllPoints(rs) == {} <==> rs == []
  {
    if rs != [] {
      AllPointsMember(rs, rs[0].start);
    }
  }

  /** The smallest interval start (`iter().map(|ns| ns.start).min()`). */
  method MinStart(rs: seq<SeedRange>) returns (r: Option<nat>)
    ensures r.None? <==> rs == []
    ensures r.Some? ==> (exists k :: 0 <= k < |rs| && r.value == rs[k].start)
                        && forall k :: 0 <= k < |rs| ==> r.value <= rs[k].start
  {
    if rs == [] {
      return None;
    }
    var best := rs[0].start;
    for k := 1 to |rs|
      invariant exists q :: 0 <= q < k && best == rs[q].start
      invariant forall q :: 0 <= q < k ==> best <= rs[q].start
    {
      if rs[k].start < best {
        best := rs[k].start;
      }
    }
    return Some(best);
  }

  /** For non-empty intervals, the smallest start is the least point. */
  lemma MinStartIsLeast(rs: seq<SeedRange>, v: nat)
    requires AllProper(rs)
    requires (exists k :: 0 <= k < |rs| && v == rs[k].start) && forall k :: 0 <= k < |rs| ==> v <= rs[k].start
    ensures IsLeast(v, AllPoints(rs))
  {
    AllPointsMember(rs, v);
    forall y | y in AllPoints(rs)
      ensures v <= y
    {
      AllPointsMember(rs, y);
    }
  }

  /** The part-2 pipeline on given seed intervals: every map in turn, then
      the smallest start. With non-empty intervals and map lines, no
      `assert!` fails and the answer is the least location of any value the
      intervals hold. */
  method LowestLocation(ranges: seq<SeedRange>, maps: seq<seq<Map>>) returns (r: Option<nat>)
    ensures AllProper(ranges) && PositiveMaps(maps) ==> (r.Some? <==> ranges != [])
    ensures r.Some? && AllProper(ranges) && PositiveMaps(maps) ==>
              IsLeast(r.value, Locations(maps, AllPoints(ranges)))
  {
    var cur := ranges;
    for i := 0 to |maps|
      invariant Locations(maps[i..], AllPoints(cur)) == Locations(maps, AllPoints(ranges))
      invariant AllProper(ranges) && PositiveMaps(maps) ==> AllProper(cur)
    {
      assert maps[i..][1..] == maps[i + 1..];
      var next := ApplyMap(maps[i], cur);
      if next.None? {
        return None;
      }
      cur := next.value;
    }
    assert maps[|maps|..] == [];
    r := MinStart(cur);
    if AllProper(ranges) && PositiveMaps(maps) {
      ProperPointsEmpty(ranges);
      ProperPointsEmpty(cur);
      LocationsPointwise(maps, AllPoints(ranges));
      if ranges != [] {
        ghost var x :| x in AllPoints(ranges);
        assert Location(maps, x) in Locations(maps, AllPoints(ranges));
      }
      if r.Some? {
        MinStartIsLeast(cur, r.value);
      }
    }
  }

  /** The seed intervals as the source builds them from `chunks(2)`: the end
      is `start + len - 1`. An odd-length list fails on `se[1]`, and
      `0 + 0 - 1` underflows. */
  function SeedRanges(seeds: seq<nat>): (r: Option<seq<SeedRange>>)
    ensures r.Some? ==> |r.value| == |seeds| / 2
  {
    if |seeds| % 2 == 1 then None
    else if exists k :: 0 <= k < |seeds| / 2 && seeds[2 * k] + seeds[2 * k + 1] == 0 then None
    else Some(seq(|seeds| / 2, k requires 0 <= k < |seeds| / 2 => SeedRange(seeds[2 * k], seeds[2 * k] + seeds[2 * k + 1] - 1)))
  }

  /** Part 2 as written. */
  method Part2(seeds: seq<nat>, maps: seq<seq<Map>>) returns (r: Option<nat>)
    ensures SeedRanges(seeds).None? ==> r.None?
    ensures r.Some? && AllProper(SeedRanges(seeds).value) && PositiveMaps(maps) ==>
              IsLeast(r.value, Locations(maps, AllPoints(SeedRanges(seeds).value)))
  {
    var ranges := SeedRanges(seeds);
    if ranges.None? {
      return None;
    }
    r := LowestLocation(ranges.value, maps);
  }

  /** The seed intervals the puzzle describes: `len` seeds from `start`, so
      the exclusive end is `start + len`. */
  function IntendedSeedRanges(seeds: seq<nat>): (r: Option<seq<SeedRange>>)
    ensures r.Some? <==> |seeds| % 2 == 0
  {
    if |seeds| % 2 == 1 then None
    else Some(seq(|seeds| / 2, k requires 0 <= k < |seeds| / 2 => SeedRange(seeds[2 * k], seeds[2 * k] + seeds[2 * k + 1])))
  }

  /** Seed `x` is listed by one of the (start, length) pairs. */
  predicate Listed(seeds: seq<nat>, x: nat)
  {
    exists k :: 0 <= k < |seeds| / 2 && seeds[2 * k] <= x < seeds[2 * k] + seeds[2 * k + 1]
  }

  /** With the intended ends, the intervals hold exactly the listed seeds, so
      `LowestLocation` on them is the least part-1 location of any listed
      seed. */
  lemma IntendedRangesHoldEverySeed(seeds: seq<nat>, x: nat)
    requires |seeds| % 2 == 0
    ensures x in AllPoints(IntendedSeedRanges(seeds).value) <==> Listed(seeds, x)
  {
    var rs := IntendedSeedRanges(seeds).value;
    AllPointsMember(rs, x);
    if Listed(seeds, x) {
      var k :| 0 <= k < |seeds| / 2 && seeds[2 * k] <= x < seeds[2 * k] + seeds[2 * k + 1];
      assert rs[k].start <= x < rs[k].end;
    }
  }

  /** Every (start, length) pair lists at least one seed. */
  predicate PositiveLengths(seeds: seq<nat>)
  {
    forall k :: 0 <= k < |seeds| / 2 ==> seeds[2 * k + 1] > 0
  }

  /** Part 2 with the intended seed intervals: the answer is the lowest
      part-1 location of any listed seed. */
  method Part2Corrected(seeds: seq<nat>, maps: seq<seq<Map>>) returns (r: Option<nat>)
    ensures |seeds| % 2 == 1 ==> r.None?
    ensures |seeds| % 2 == 0 && PositiveLengths(seeds) && PositiveMaps(maps) ==> (r.Some? <==> seeds != [])
    ensures r.Some? && PositiveLengths(seeds) && PositiveMaps(maps) ==>
              (exists x :: Listed(seeds, x) && r.value == Location(maps, x))
              && forall x :: Listed(seeds, x) ==> r.value <= Location(maps, x)
  {
    var ranges := IntendedSeedRanges(seeds);
    if ranges.None? {
      return None;
    }
    var rs := ranges.value;
    r := LowestLocation(rs, maps);
    if PositiveLengths(seeds) && PositiveMaps(maps) {
      assert AllProper(rs);
      assert |rs| == |seeds| / 2;
      LocationsPointwise(maps, AllPoints(rs));
      if r.Some? {
        ghost var x :| x in AllPoints(rs) && Location(maps, x) == r.value;
        IntendedRangesHoldEverySeed(seeds, x);
        forall y | Listed(seeds, y)
          ensures r.value <= Location(maps, y)
        {
          IntendedRangesHoldEverySeed(seeds, y);
          assert Location(maps, y) in Locations(maps, AllPoints(rs));
        }
      }
    }
  }

  /** As written, the last seed of each interval is dropped: with seeds
      "79 14" and one map line "0 92 1", seed 92 is listed and lands at 0,
      but no value of the built interval lands there, so part 2 answers 79. */
  lemma LastSeedLost()
    ensures var seeds, maps := [79, 14], [[Map(92, 0, 1)]];
      SeedRanges(seeds) == Some([SeedRange(79, 92)])
      && AllProper(SeedRanges(seeds).value) && PositiveMaps(maps)
      && Listed(seeds, 92) && Location(maps, 92) == 0
      && 0 !in Locations(maps, AllPoints(SeedRanges(seeds).value))
      && IsLeast(79, Locations(maps, AllPoints(SeedRanges(seeds).value)))
  {
    var seeds: seq<nat>, maps := [79, 14], [[Map(92, 0, 1)]];
    var rs := SeedRanges(seeds).value;
    assert rs == [SeedRange(79, 92)];
    assert Listed(seeds, 92) by {
      assert seeds[2 * 0] <= 92 < seeds[2 * 0] + seeds[2 * 0 + 1];
    }
    LocationsPointwise(maps, AllPoints(rs));
    forall x | x in AllPoints(rs)
      ensures 79 <= x < 92 && Location(maps, x) == x
    {
      AllPointsMember(rs, x);
      assert maps[1..] == [] && maps[0][1..] == [];
      assert Lookup(maps[0], x) == Lookup(maps[0][1..], x) == x;
      assert Location(maps, x) == Location(maps[1..], Lookup(maps[0], x));
    }
    AllPointsMember(rs, 79);
    assert Location(maps, 79) == 79 by {
      assert Location(maps, 79) == Location(maps[1..], Lookup(maps[0], 79));
    }
    assert Location(maps, 92) == 0 by {
      assert Location(maps, 92) == Location(maps[1..], Lookup(maps[0], 92));
    }
  }
}
