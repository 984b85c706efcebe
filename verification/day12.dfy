/** Day 12: rows of hot springs, some in unknown condition, and the sizes
    of the contiguous groups of damaged springs; the answer counts the
    ways the unknown springs can be filled in. */
module Day12 {
  import opened Common

  datatype Spring = Operational | Damaged | Unknown

  function SpringFromChar(c: char): Option<Spring>
  {
    match c
    case '.' => Some(Operational)
    case '#' => Some(Damaged)
    case '?' => Some(Unknown)
    case _ => None
  }

  function SpringChar(s: Spring): char
  {
    match s
    case Operational => '.'
    case Damaged => '#'
    case Unknown => '?'
  }

  /** The two conversions are inverse to each other. */
  lemma SpringCharRoundTrip(s: Spring, c: char)
    ensures SpringFromChar(SpringChar(s)) == Some(s)
    ensures SpringFromChar(c) == Some(s) ==> SpringChar(s) == c
  {
  }

  // ------------------------------------------------------------ placing

  /** `(1..=len).any(|i| map[i] == Operational)`. */
  function HasOperational(m: seq<Spring>, len: nat): (r: bool)
    requires len < |m|
    ensures r <==> exists i :: 1 <= i <= len && m[i] == Operational
  {
    if len == 0 then false else m[len] == Operational || HasOperational(m, len - 1)
  }

  /** `is_placeable`: a group of `len` damaged springs fits at index 1 of
      `m`, with a separator on either side. */
  function Placeable(m: seq<Spring>, len: nat): (r: bool)
    ensures r <==> (|m| >= len + 2 && m[0] != Damaged &&
      (forall i :: 1 <= i <= len ==> m[i] != Operational) && m[len + 1] != Damaged)
  {
    if |m| < len + 2 then false
    else if m[0] == Damaged then false
    else if HasOperational(m, len) then false
    else if m[len + 1] == Damaged then false
    else true
  }

  // ---------------------------------------------------------- counting

  /** `arrangements(map, list)`: the number of ways to place the groups of
      `list` in `m`, the first group's window starting at some index of
      the scan. */
  function Count(m: seq<Spring>, list: seq<nat>): nat
    requires |list| > 0
    decreases |list|, |m| + 1, 0
  {
    Scan(m, list, 0)
  }

  /** The `for start_idx` loop from `i` on: it stops (`break`) once the
      spring just before the window, from index 2 on, is damaged. */
  function Scan(m: seq<Spring>, list: seq<nat>, i: nat): nat
    requires |list| > 0
    decreases |list|, |m| - i, 1
  {
    if i >= |m| then 0
    else if i > 1 && m[i - 1] == Damaged then 0
    else Placed(m, list, i) + Scan(m, list, i + 1)
  }

  /** What one window adds: with more groups to place, the count for the
      rest of the map after the group, whose first spring (the group's
      last) is overwritten as damaged; with the last group, one if no
      damaged spring follows the group. */
  function Placed(m: seq<Spring>, list: seq<nat>, i: nat): nat
    requires |list| > 0 && i < |m|
    decreases |list|, |m| - i, 0
  {
    var len := list[0];
    if !Placeable(m[i..], len) then 0
    else if |list| > 1 then Count(m[i + len..][0 := Damaged], list[1..])
    else if Damaged in m[i + len + 1..] then 0
    else 1
  }

  /** `arrangements` in place: the map is the window `springs[lo..]` of an array;
      the damaged mark written before each recursive call is undone after
      it, so the map is unchanged on return. */
  method Arrangements(springs: array<Spring>, lo: nat, list: seq<nat>) returns (n: nat)
    requires lo <= springs.Length && |list| > 0
    modifies springs
    ensures springs[..] == old(springs[..])
    ensures n == Count(old(springs[lo..]), list)
    decreases |list|
  {
    ghost var m := springs[lo..];
    var length := list[0];
    n := 0;
    var start := 0;
    while start < springs.Length - lo
      invariant 0 <= start <= springs.Length - lo
      invariant springs[..] == old(springs[..]) && springs[lo..] == m
      invariant n + Scan(m, list, start) == Scan(m, list, 0)
    {
      if start > 1 && springs[lo + start - 1] == Damaged {
        break;
      }
      if Placeable(springs[lo + start..], length) {
        assert m[start..] == springs[lo + start..];
        if |list| > 1 {
          var at := lo + start + length;
          var og := springs[at];
          springs[at] := Damaged;
          assert springs[at..] == m[start + length..][0 := Damaged];
          var sub := Arrangements(springs, at, list[1..]);
          springs[at] := og;
          assert springs[..] == old(springs[..]);
          n := n + sub;
        } else {
          var remaining := springs[lo + start + length + 1..];
          assert remaining == m[start..][length + 1..];
          if Damaged !in remaining {
            n := n + 1;
          }
        }
      }
      start := start + 1;
    }
  }

  // ------------------------------------------------ the count's meaning

  /** The number of ways to fill in the unknown springs of `s` so that its
      runs of damaged springs have exactly the lengths in `list`, decided
      one spring at a time. */
  function Ways(s: seq<Spring>, list: seq<nat>): nat
    decreases |s|, 1
  {
    if s == [] then (if list == [] then 1 else 0)
    else
      (if s[0] != Damaged then Ways(s[1..], list) else 0) +
      (if s[0] != Operational then Group(s, list) else 0)
  }

  /** The ways in which a run of damaged springs starts at `s[0]`: the first
      length of `list`, then an operational spring or the end. */
  function Group(s: seq<Spring>, list: seq<nat>): nat
    requires s != []
    decreases |s|, 0
  {
    if list == [] || list[0] == 0 || |s| < list[0] then 0
    else
      var len := list[0];
      if Operational in s[..len] then 0
      else if |s| == len then (if |list| == 1 then 1 else 0)
      else if s[len] == Damaged then 0
      else Ways(s[len + 1..], list[1..])
  }

  predicate Positive(list: seq<nat>)
  {
    forall i :: 0 <= i < |list| ==> list[i] > 0
  }

  /** With no groups left, the rest must hold no damaged spring. */
  lemma {:induction false} WaysNone(u: seq<Spring>)
    ensures Ways(u, []) == if Damaged in u then 0 else 1
  {
    if u != [] {
      WaysNone(u[1..]);
      assert Damaged in u <==> u[0] == Damaged || Damaged in u[1..];
    }
  }

  /** `m` holds `s` from index `d` on, after a prefix of at least one
      spring and before a closing operational spring. */
  predicate Framed(m: seq<Spring>, d: nat, s: seq<Spring>)
  {
    d >= 1 && |m| == d + |s| + 1 && m[d..d + |s|] == s && m[|m| - 1] == Operational
  }

  /** A map holding just the overwritten mark and the closing spring has
      no room for a group. */
  lemma CountTooShort(list: seq<nat>)
    requires |list| > 0
    ensures Count([Damaged, Operational], list) == 0
  {
    var m := [Damaged, Operational];
    assert Scan(m, list, 2) == 0;
    assert !Placeable(m[1..], list[0]) && Placed(m, list, 1) == 0;
    assert Scan(m, list, 1) == 0;
    assert !Placeable(m[0..], list[0]) && Placed(m, list, 0) == 0;
  }

  lemma FramedAt(m: seq<Spring>, d: nat, s: seq<Spring>, i: nat)
    requires Framed(m, d, s) && i < |s|
    ensures m[d + i] == s[i]
  {
    assert m[d..d + |s|][i] == s[i];
  }

  /** Where the window's group cannot stand on `s`, neither side counts. */
  lemma PlacedNoRoom(m: seq<Spring>, d: nat, s: seq<Spring>, list: seq<nat>, k: nat)
    requires Framed(m, d, s) && Positive(list) && |list| > 0
    requires d - 1 <= k && k - d + 1 < |s| && m[k] != Damaged
    requires var t := s[k - d + 1..]; |t| < list[0] || Operational in t[..list[0]]
    ensures Placed(m, list, k) == 0 && Group(s[k - d + 1..], list) == 0
  {
    var t := s[k - d + 1..];
    var len := list[0];
    if |t| >= len {
      var i :| 0 <= i < len && t[..len][i] == Operational;
      FramedAt(m, d, s, k - d + 1 + i);
      assert m[k..][i + 1] == Operational;
    }
  }

  /** The group's springs, one index into the window, are those of `s`. */
  lemma WindowInterior(m: seq<Spring>, d: nat, s: seq<Spring>, len: nat, k: nat)
    requires Framed(m, d, s) && d - 1 <= k && k - d + 1 + len <= |s|
    requires Operational !in s[k - d + 1..][..len]
    ensures forall i :: 1 <= i <= len ==> m[k..][i] != Operational
  {
    var t := s[k - d + 1..];
    forall i | 1 <= i <= len
      ensures m[k..][i] != Operational
    {
      FramedAt(m, d, s, k - d + i);
      assert t[..len][i - 1] == m[k..][i];
    }
  }

  /** The group fills the rest of `s`: it counts only as the last group. */
  lemma PlacedAtEnd(m: seq<Spring>, d: nat, s: seq<Spring>, list: seq<nat>, k: nat)
    requires Framed(m, d, s) && Positive(list) && |list| > 0
    requires d - 1 <= k && k - d + 1 < |s| && m[k] != Damaged
    requires var t := s[k - d + 1..]; |t| == list[0] && Operational !in t[..list[0]]
    ensures Placed(m, list, k) == Group(s[k - d + 1..], list)
  {
    var len := list[0];
    WindowInterior(m, d, s, len, k);
    assert m[k..][len + 1] == Operational;
    assert Placeable(m[k..], len);
    if |list| > 1 {
      assert m[k + len..][0 := Damaged] == [Damaged, Operational];
      CountTooShort(list[1..]);
    } else {
      assert m[k + len + 1..] == [Operational];
    }
  }

  /** A damaged spring right after the group: neither side counts. */
  lemma PlacedOverrun(m: seq<Spring>, d: nat, s: seq<Spring>, list: seq<nat>, k: nat)
    requires Framed(m, d, s) && Positive(list) && |list| > 0
    requires d - 1 <= k && k - d + 1 < |s| && m[k] != Damaged
    requires var t := s[k - d + 1..]; |t| > list[0] && t[list[0]] == Damaged
    ensures Placed(m, list, k) == 0 && Group(s[k - d + 1..], list) == 0
  {
    var len := list[0];
    FramedAt(m, d, s, k - d + 1 + len);
    assert m[k..][len + 1] == Damaged;
  }

  /** The group fits with an operational or unknown spring after it: the
      rest of `s` holds the remaining groups. */
  lemma PlacedInside(m: seq<Spring>, d: nat, s: seq<Spring>, list: seq<nat>, k: nat)
    requires Framed(m, d, s) && Positive(list) && |list| > 0
    requires d - 1 <= k && k - d + 1 < |s| && m[k] != Damaged
    requires var t := s[k - d + 1..]; |t| > list[0] && Operational !in t[..list[0]] && t[list[0]] != Damaged
    ensures Placed(m, list, k) == Group(s[k - d + 1..], list)
    decreases |list|, 1
  {
    var sep, u := InsideSplit(m, d, s, list, k);
    if |list| > 1 {
      PlacedInsideMore(m, list, k, sep, u);
    } else {
      PlacedInsideLast(m, list, k, sep, u);
    }
  }

  /** The fitting window cut into the separator after the group and the
      springs after that. */
  lemma InsideSplit(m: seq<Spring>, d: nat, s: seq<Spring>, list: seq<nat>, k: nat) returns (sep: Spring, u: seq<Spring>)
    requires Framed(m, d, s) && Positive(list) && |list| > 0
    requires d - 1 <= k && k - d + 1 < |s| && m[k] != Damaged
    requires var t := s[k - d + 1..]; |t| > list[0] && Operational !in t[..list[0]] && t[list[0]] != Damaged
    ensures k + list[0] < |m| && Placeable(m[k..], list[0])
    ensures sep != Damaged && m[k + list[0] + 1..] == [sep] + u + [Operational]
    ensures Group(s[k - d + 1..], list) == Ways(u, list[1..])
  {
    var j := k - d + 1;
    var t := s[j..];
    var len := list[0];
    WindowInterior(m, d, s, len, k);
    FramedAt(m, d, s, j + len);
    assert m[k..][len + 1] == t[len];
    sep := t[len];
    u := s[j + len + 1..];
    assert t[len + 1..] == u;
    assert m[k + len + 1..] == [sep] + u + [Operational] by {
      assert m[d..d + |s|] == s;
    }
  }

  lemma PlacedInsideMore(m: seq<Spring>, list: seq<nat>, k: nat, sep: Spring, u: seq<Spring>)
    requires Positive(list) && |list| > 1 && k + list[0] < |m| && Placeable(m[k..], list[0])
    requires sep != Damaged && m[k + list[0] + 1..] == [sep] + u + [Operational]
    ensures Placed(m, list, k) == Ways(u, list[1..])
    decreases |list|, 0
  {
    var c := m[k + list[0]..][0 := Damaged];
    assert c == [Damaged, sep] + u + [Operational];
    assert c[2..2 + |u|] == u;
    ChildWays(c, u, list[1..]);
  }

  lemma PlacedInsideLast(m: seq<Spring>, list: seq<nat>, k: nat, sep: Spring, u: seq<Spring>)
    requires |list| == 1 && k < |m| && Placeable(m[k..], list[0])
    requires sep != Damaged && m[k + list[0] + 1..] == [sep] + u + [Operational]
    ensures Placed(m, list, k) == Ways(u, list[1..])
  {
    WaysNone(u);
    assert list[1..] == [];
    assert Damaged in [sep] + u + [Operational] <==> Damaged in u;
  }

  /** One window of the scan adds the ways in which a group starts at the
      matching spring of `s`. */
  lemma PlacedGroup(m: seq<Spring>, d: nat, s: seq<Spring>, list: seq<nat>, k: nat)
    requires Framed(m, d, s) && Positive(list) && |list| > 0
    requires d - 1 <= k && k - d + 1 < |s| && m[k] != Damaged
    ensures Placed(m, list, k) == if s[k - d + 1] != Operational then Group(s[k - d + 1..], list) else 0
    decreases |list|, 2
  {
    var t := s[k - d + 1..];
    var len := list[0];
    if |t| < len || Operational in t[..len] {
      PlacedNoRoom(m, d, s, list, k);
    } else {
      assert t[..len][0] == s[k - d + 1];
      if |t| == len {
        PlacedAtEnd(m, d, s, list, k);
      } else if t[len] == Damaged {
        PlacedOverrun(m, d, s, list, k);
      } else {
        PlacedInside(m, d, s, list, k);
      }
    }
  }

  /** The count for a map starting with the overwritten mark and a
      separator is the number of ways for the springs after them. */
  lemma ChildWays(c: seq<Spring>, u: seq<Spring>, list: seq<nat>)
    requires Framed(c, 2, u) && c[0] == Damaged && c[1] != Damaged
    requires Positive(list) && |list| > 0
    ensures Count(c, list) == Ways(u, list)
    decreases |list|, |c| + 3
  {
    assert !Placeable(c[0..], list[0]) && Placed(c, list, 0) == 0;
    ScanWays(c, 2, u, list, 1);
    assert Count(c, list) == Scan(c, list, 0) == Scan(c, list, 1);
  }

  /** The scan from window `k` on, when no damaged spring lies right
      before or at the window's separator, counts the ways for the rest of
      `s`. */
  lemma ScanWays(m: seq<Spring>, d: nat, s: seq<Spring>, list: seq<nat>, k: nat)
    requires Framed(m, d, s) && Positive(list) && |list| > 0
    requires d - 1 <= k <= d - 1 + |s|
    requires (k <= 1 || m[k - 1] != Damaged) && m[k] != Damaged
    ensures Scan(m, list, k) == Ways(s[k - d + 1..], list)
    decreases |list|, |m| - k + 2
  {
    var j := k - d + 1;
    if j == |s| {
      ScanAtEnd(m, d, s, list, k);
    } else {
      PlacedGroup(m, d, s, list, k);
      WaysAt(s, j, list);
      FramedAt(m, d, s, j);
      if s[j] == Damaged {
        ScanAfterDamaged(m, list, k);
      } else {
        ScanWays(m, d, s, list, k + 1);
      }
    }
  }

  /** The last window, on the closing spring, counts nothing. */
  lemma ScanAtEnd(m: seq<Spring>, d: nat, s: seq<Spring>, list: seq<nat>, k: nat)
    requires Framed(m, d, s) && Positive(list) && |list| > 0
    requires k == d - 1 + |s|
    ensures Scan(m, list, k) == Ways(s[k - d + 1..], list) == 0
  {
    assert s[k - d + 1..] == [];
    assert !Placeable(m[k + 1..], list[0]);
    assert Scan(m, list, k + 1) == 0;
    assert !Placeable(m[k..], list[0]);
  }

  /** Past a damaged spring the scan stops. */
  lemma ScanAfterDamaged(m: seq<Spring>, list: seq<nat>, k: nat)
    requires |list| > 0 && Positive(list) && k + 2 < |m| && m[k + 1] == Damaged
    ensures Scan(m, list, k + 1) == 0
  {
    assert !Placeable(m[k + 1..], list[0]);
    assert Scan(m, list, k + 2) == 0;
  }

  /** `Ways` of a suffix, unfolded once. */
  lemma WaysAt(s: seq<Spring>, j: nat, list: seq<nat>)
    requires j < |s|
    ensures Ways(s[j..], list) ==
      (if s[j] != Damaged then Ways(s[j + 1..], list) else 0) +
      (if s[j] != Operational then Group(s[j..], list) else 0)
  {
    assert s[j..][0] == s[j] && s[j..][1..] == s[j + 1..];
  }

  /** `arrangements` on a row padded with an operational spring on each
      side counts exactly the ways to fill in the row's unknown springs so
      that its damaged runs have the listed lengths. */
  lemma CountIsWays(s: seq<Spring>, list: seq<nat>)
    requires Positive(list) && |list| > 0
    ensures Count([Operational] + s + [Operational], list) == Ways(s, list)
  {
    var m := [Operational] + s + [Operational];
    assert m[1..1 + |s|] == s;
    ScanWays(m, 1, s, list, 0);
    assert s[0..] == s;
  }

  /** The first inline check of `arrangements`. */
  lemma ArrangementExample1()
    ensures Count([Operational, Unknown, Unknown, Unknown, Operational, Damaged, Damaged, Damaged, Operational], [1, 1, 3]) == 1
  {
    var a := [Unknown, Unknown, Unknown, Operational, Damaged, Damaged, Damaged];
    assert Ways([Operational, Damaged, Damaged, Damaged], [3]) == 1;
    assert Ways([Unknown, Operational, Damaged, Damaged, Damaged], [1, 3]) == 1;
    assert Ways([Unknown, Unknown, Operational, Damaged, Damaged, Damaged], [1, 1, 3]) == 0;
    assert Ways(a, [1, 1, 3]) == 1;
    CountIsWays(a, [1, 1, 3]);
    assert [Operational] + a + [Operational] ==
      [Operational, Unknown, Unknown, Unknown, Operational, Damaged, Damaged, Damaged, Operational];
  }

  /** The second inline check of `arrangements`. */
  lemma ArrangementExample2()
    ensures Count([Operational, Unknown, Unknown, Unknown, Operational, Damaged, Operational, Damaged, Operational], [1, 1, 1]) == 3
  {
    var b := [Unknown, Unknown, Unknown, Operational, Damaged, Operational, Damaged];
    assert Ways([Operational, Damaged, Operational, Damaged], [1, 1]) == 1;
    assert Ways([Unknown, Operational, Damaged, Operational, Damaged], [1, 1]) == 1;
    assert Ways([Unknown, Operational, Damaged, Operational, Damaged], [1, 1, 1]) == 1;
    assert Ways([Unknown, Unknown, Operational, Damaged, Operational, Damaged], [1, 1, 1]) == 2;
    assert Ways(b, [1, 1, 1]) == 3;
    CountIsWays(b, [1, 1, 1]);
    assert [Operational] + b + [Operational] ==
      [Operational, Unknown, Unknown, Unknown, Operational, Damaged, Operational, Damaged, Operational];
  }

  // ------------------------------------------------------------ puzzles

  /** One parsed line: the row of springs and the damaged group lengths. */
  datatype Record = Record(springs: seq<Spring>, groups: seq<nat>)

  /** Part 1's map: the row between two operational springs. */
  function Padded(s: seq<Spring>): seq<Spring>
  {
    [Operational] + s + [Operational]
  }

  /** Part 2's row: five copies joined by unknown springs. */
  function Joined(s: seq<Spring>): (r: seq<Spring>)
    ensures |r| == 5 * |s| + 4
  {
    s + [Unknown] + s + [Unknown] + s + [Unknown] + s + [Unknown] + s
  }

  /** `n` copies of the group list one after another. */
  function Copies(list: seq<nat>, n: nat): (r: seq<nat>)
    ensures |r| == n * |list|
  {
    if n == 0 then [] else Copies(list, n - 1) + list
  }

  /** The `for _ in 0..4` loop appending a copy of the list each time. */
  method FiveCopies(list: seq<nat>) returns (r: seq<nat>)
    ensures r == Copies(list, 5)
  {
    r := list;
    assert Copies(list, 1) == list;
    for i := 0 to 4
      invariant r == Copies(list, i + 1)
    {
      r := r + list;
    }
  }

  /** A line's count; `None` when its group list is empty (`list[0]`
      panics). Part 2 unfolds the row and the list first. */
  function LineCount(r: Record, unfold: bool): Option<nat>
  {
    if r.groups == [] then None
    else if unfold then Some(Count([Operational] + Joined(r.springs) + [Operational], Copies(r.groups, 5)))
    else Some(Count(Padded(r.springs), r.groups))
  }

  /** The answer: the line counts summed. */
  function Answer(rs: seq<Record>, unfold: bool): Option<nat>
  {
    if rs == [] then Some(0)
    else
      var init := Answer(rs[..|rs| - 1], unfold);
      var last := LineCount(rs[|rs| - 1], unfold);
      if init.None? || last.None? then None else Some(init.value + last.value)
  }

  /** The ways for every line, summed. */
  function TotalWays(rs: seq<Record>, unfold: bool): nat
  {
    if rs == [] then 0
    else
      var r := rs[|rs| - 1];
      TotalWays(rs[..|rs| - 1], unfold) +
      (if unfold then Ways(Joined(r.springs), Copies(r.groups, 5)) else Ways(r.springs, r.groups))
  }

  /** Five copies of a list of positive lengths are positive. */
  lemma {:induction false} CopiesPositive(list: seq<nat>, n: nat)
    requires Positive(list) && |list| > 0
    ensures Positive(Copies(list, n)) && (n > 0 ==> |Copies(list, n)| > 0)
  {
    if n > 0 {
      CopiesPositive(list, n - 1);
      var r := Copies(list, n);
      var c := Copies(list, n - 1);
      assert forall i :: 0 <= i < |r| ==> r[i] == if i < |c| then c[i] else list[i - |c|];
    }
  }

  /** Both parts answer the number of ways to fill in every line's unknown
      springs, summed, when every line lists positive group lengths. */
  lemma {:induction false} AnswerIsWays(rs: seq<Record>, unfold: bool)
    requires forall i :: 0 <= i < |rs| ==> Positive(rs[i].groups) && |rs[i].groups| > 0
    ensures Answer(rs, unfold) == Some(TotalWays(rs, unfold))
  {
    if rs != [] {
      var r := rs[|rs| - 1];
      AnswerIsWays(rs[..|rs| - 1], unfold);
      CountIsWays(r.springs, r.groups);
      CopiesPositive(r.groups, 5);
      CountIsWays(Joined(r.springs), Copies(r.groups, 5));
    }
  }

  /** Counting one line with the in-place `arrangements` on a fresh array. */
  method CountLine(m: seq<Spring>, list: seq<nat>) returns (n: nat)
    requires |list| > 0
    ensures n == Count(m, list)
  {
    var a := new Spring[|m|](i requires 0 <= i < |m| => m[i]);
    assert a[0..] == m;
    n := Arrangements(a, 0, list);
  }

  /** One line of either part: `None` where `list[0]` panics. */
  method SolveLine(line: Record, unfold: bool) returns (r: Option<nat>)
    ensures r == LineCount(line, unfold)
  {
    if line.groups == [] {
      return None;
    }
    var n;
    if unfold {
      var list := FiveCopies(line.groups);
      n := CountLine([Operational] + Joined(line.springs) + [Operational], list);
    } else {
      n := CountLine(Padded(line.springs), line.groups);
    }
    return Some(n);
  }

  /** `part_1::solution` and `part_2::solution` on the parsed lines. */
  method Solve(rs: seq<Record>, unfold: bool) returns (r: Option<nat>)
    ensures r == Answer(rs, unfold)
  {
    var total := 0;
    for k := 0 to |rs|
      invariant Answer(rs[..k], unfold) == Some(total)
    {
      assert rs[..k + 1][..k] == rs[..k];
      var n := SolveLine(rs[k], unfold);
      if n.None? {
        AnswerStuck(rs, unfold, k + 1);
        return None;
      }
      total := total + n.value;
    }
    assert rs[..|rs|] == rs;
    return Some(total);
  }

  /** Once a prefix has no answer, neither have all the lines. */
  lemma {:induction false} AnswerStuck(rs: seq<Record>, unfold: bool, k: nat)
    requires k <= |rs| && Answer(rs[..k], unfold).None?
    ensures Answer(rs, unfold).None?
    decreases |rs| - k
  {
    if k < |rs| {
      assert rs[..k + 1][..k] == rs[..k];
      AnswerStuck(rs, unfold, k + 1);
    } else {
      assert rs[..k] == rs;
    }
  }
}
