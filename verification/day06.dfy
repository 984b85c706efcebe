/** Boat races. Holding the button for `charge` of the race's `total`
    milliseconds gives speed `charge` for the remaining time; a race counts
    the charge times that beat the record distance, and the answer is the
    product of those counts. Part 2 calls part 1 unchanged. */
module Day06 {

  /** `distance_traveled`; the source asserts `charge_time <= total_time`. */
  function DistanceTraveled(charge: nat, total: nat): (d: nat)
    requires charge <= total
  {
    (total - charge) * charge
  }

  /** The inline test vectors of `distance_traveled`. */
  lemma DistanceExamples()
    ensures DistanceTraveled(10, 10) == 0
    ensures DistanceTraveled(0, 10) == 0
    ensures DistanceTraveled(5, 10) == 25
    ensures DistanceTraveled(4, 10) == 24
    ensures DistanceTraveled(8, 10) == 16
  {
  }

  /** Charging for `c` or for `total - c` goes equally far. */
  lemma DistanceSymmetric(c: nat, total: nat)
    requires c <= total
    ensures DistanceTraveled(c, total) == DistanceTraveled(total - c, total)
  {
  }

  /** No charge time goes further than a quarter of the total squared. */
  lemma DistanceAtMostQuarterSquare(c: nat, total: nat)
    requires c <= total
    ensures 4 * DistanceTraveled(c, total) <= total * total
  {
    var d := total - 2 * c;
    assert total * total - 4 * ((total - c) * c) == d * d;
  }

  /** The charge times below `n` that beat `record` in a race of `total`. */
  function Beating(total: nat, record: nat, n: nat): (count: nat)
    requires n <= total
    ensures count <= n
  {
    if n == 0 then 0
    else Beating(total, record, n - 1) + (if DistanceTraveled(n - 1, total) > record then 1 else 0)
  }

  /** How the distance changes between two charge times. */
  lemma DistanceDifference(x: nat, y: nat, total: nat)
    requires x <= total && y <= total
    ensures DistanceTraveled(y, total) - DistanceTraveled(x, total) == (y - x) * (total - x - y)
  {
    calc {
      DistanceTraveled(y, total) - DistanceTraveled(x, total);
      (total - y) * y - (total - x) * x;
      total * y - y * y - total * x + x * x;
      (y - x) * (total - x - y);
    }
  }

  /** The winning charge times are contiguous: any time between two winning
      times wins too, since the distance rises and then falls. */
  lemma WinnersContiguous(total: nat, record: nat, a: nat, b: nat, c: nat)
    requires a <= b <= c <= total
    requires DistanceTraveled(a, total) > record && DistanceTraveled(c, total) > record
    ensures DistanceTraveled(b, total) > record
  {
    if a + b <= total {
      DistanceDifference(a, b, total);
      SameSigns(b - a, total - a - b);
    } else {
      DistanceDifference(c, b, total);
      SameSigns(b - c, total - c - b);
    }
  }

  /** Two factors of the same sign have a non-negative product. */
  lemma SameSigns(u: int, v: int)
    requires (u >= 0 && v >= 0) || (u <= 0 && v <= 0)
    ensures u * v >= 0
  {
  }

  /** The `ways_beat` loop of one race. */
  method WaysBeat(total: nat, record: nat) returns (ways: nat)
    ensures ways == Beating(total, record, total)
    ensures ways <= total
  {
    ways := 0;
    for t := 0 to total
      invariant ways == Beating(total, record, t)
    {
      var dist := DistanceTraveled(t, total);
      if dist > record {
        ways := ways + 1;
      }
    }
  }

  function Product(s: seq<nat>): nat
  {
    if s == [] then 1 else Product(s[..|s| - 1]) * s[|s| - 1]
  }

  /** The answer is zero exactly when some race cannot be won. */
  lemma {:induction false} ProductZero(s: seq<nat>)
    ensures Product(s) == 0 <==> exists k :: 0 <= k < |s| && s[k] == 0
  {
    if s != [] {
      var init := s[..|s| - 1];
      ProductZero(init);
      if exists k :: 0 <= k < |init| && init[k] == 0 {
        var k :| 0 <= k < |init| && init[k] == 0;
        assert s[k] == 0;
      }
      if exists k :: 0 <= k < |s| && s[k] == 0 {
        var k :| 0 <= k < |s| && s[k] == 0;
        if k < |init| {
          assert init[k] == 0;
        }
      }
    }
  }

  /** The counts of the races paired by `zip`, which stops at the shorter
      list. */
  function RaceCounts(times: seq<nat>, records: seq<nat>): (counts: seq<nat>)
    ensures |counts| == if |times| < |records| then |times| else |records|
    ensures forall k :: 0 <= k < |counts| ==> counts[k] <= times[k]
  {
    seq(if |times| < |records| then |times| else |records|,
        k requires 0 <= k < |times| && k < |records| => Beating(times[k], records[k], times[k]))
  }

  /** Part 1: the product of the ways to win each race. */
  method Part1(times: seq<nat>, records: seq<nat>) returns (answer: nat)
    ensures answer == Product(RaceCounts(times, records))
  {
    var counts: seq<nat> := [];
    var n := if |times| < |records| then |times| else |records|;
    for k := 0 to n
      invariant counts == RaceCounts(times, records)[..k]
    {
      var ways := WaysBeat(times[k], records[k]);
      counts := counts + [ways];
    }
    assert counts == RaceCounts(times, records);
    answer := 1;
    for k := 0 to |counts|
      invariant answer == Product(counts[..k])
    {
      assert counts[..k + 1][..k] == counts[..k];
      answer := answer * counts[k];
    }
    assert counts[..|counts|] == counts;
  }

  /** Part 2 is part 1 on the same input. */
  method Part2(times: seq<nat>, records: seq<nat>) returns (answer: nat)
    ensures answer == Product(RaceCounts(times, records))
  {
    answer := Part1(times, records);
  }
}
