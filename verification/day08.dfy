/** Haunted Wasteland. A network maps each node to a left and a right
    successor; a cyclic string of L/R directions drives a walk. Part 1 counts
    the steps from AAA to ZZZ; part 2 walks every node ending in A at once,
    measures for each the distance between its first two visits to a node
    ending in Z, and combines those cycle lengths with `lcm`. */
module Day08 {
  import opened Common

  /** `Node([char; 3])`. */
  datatype Node = Node(c0: char, c1: char, c2: char)

  /** One input line `AAA = (BBB, CCC)`, already split into its three nodes. */
  datatype Edge = Edge(from: Node, left: Node, right: Node)

  datatype Network = Network(left: map<Node, Node>, right: map<Node, Node>)

  /** The `fold` that inserts every edge into the two hash maps; a later
      line for the same node overwrites an earlier one. */
  function BuildNetwork(edges: seq<Edge>): (net: Network)
    ensures net.left.Keys == net.right.Keys
  {
    if edges == [] then Network(map[], map[])
    else
      var net := BuildNetwork(edges[..|edges| - 1]);
      var e := edges[|edges| - 1];
      Network(net.left[e.from := e.left], net.right[e.from := e.right])
  }

  /** Some line starts with `n`. */
  predicate Listed(edges: seq<Edge>, n: Node)
  {
    exists i :: 0 <= i < |edges| && edges[i].from == n
  }

  /** Line `i` is the last line starting with `n`. */
  predicate LastLine(edges: seq<Edge>, n: Node, i: nat)
  {
    i < |edges| && edges[i].from == n && forall j :: i < j < |edges| ==> edges[j].from != n
  }

  /** A node is in the network exactly when some line starts with it, and
      its successors are those of the last such line. */
  lemma BuildNetworkLastWins(edges: seq<Edge>, n: Node)
    ensures n in BuildNetwork(edges).left <==> exists i :: 0 <= i < |edges| && edges[i].from == n
    ensures forall i :: 0 <= i < |edges| && edges[i].from == n && (forall j :: i < j < |edges| ==> edges[j].from != n) ==>
      BuildNetwork(edges).left[n] == edges[i].left && BuildNetwork(edges).right[n] == edges[i].right
  {
    BuildNetworkHas(edges, n);
    forall i | 0 <= i < |edges| && edges[i].from == n && (forall j :: i < j < |edges| ==> edges[j].from != n)
      ensures BuildNetwork(edges).left[n] == edges[i].left && BuildNetwork(edges).right[n] == edges[i].right
    {
      assert LastLine(edges, n, i);
      BuildNetworkLast(edges, n, i);
    }
  }

  lemma {:induction false} BuildNetworkHas(edges: seq<Edge>, n: Node)
    ensures n in BuildNetwork(edges).left <==> Listed(edges, n)
  {
    if edges != [] {
      var init := edges[..|edges| - 1];
      BuildNetworkHas(init, n);
      if Listed(init, n) {
        var i :| 0 <= i < |init| && init[i].from == n;
        assert edges[i].from == n;
      }
      if Listed(edges, n) && edges[|edges| - 1].from != n {
        var i :| 0 <= i < |edges| && edges[i].from == n;
        assert init[i].from == n;
      }
    }
  }

  lemma {:induction false} BuildNetworkLast(edges: seq<Edge>, n: Node, i: nat)
    requires LastLine(edges, n, i)
    ensures n in BuildNetwork(edges).left && n in BuildNetwork(edges).right
    ensures BuildNetwork(edges).left[n] == edges[i].left && BuildNetwork(edges).right[n] == edges[i].right
  {
    var init := edges[..|edges| - 1];
    if i < |edges| - 1 {
      assert LastLine(init, n, i);
      BuildNetworkLast(init, n, i);
    }
  }

  const Start := Node('A', 'A', 'A')
  const Goal := Node('Z', 'Z', 'Z')

  /** Walks stop after this many iterations (`if iter > 100000 { break }`). */
  const MaxIter: nat := 100000

  /** One step: `'L'` or `'R'` picks the map, and the node must be in it;
      any other direction or a missing node panics. */
  function Move(net: Network, dir: char, n: Node): Option<Node>
  {
    if dir == 'L' then (if n in net.left then Some(net.left[n]) else None)
    else if dir == 'R' then (if n in net.right then Some(net.right[n]) else None)
    else None
  }

  /** The node reached after `k` steps from `from`, the directions used in
      a cycle; `None` once a step panics. */
  function Walk(net: Network, dirs: seq<char>, from: Node, k: nat): Option<Node>
    requires |dirs| > 0
  {
    if k == 0 then Some(from)
    else
      var prev := Walk(net, dirs, from, k - 1);
      if prev.None? then None else Move(net, dirs[(k - 1) % |dirs|], prev.value)
  }

  /** After a panic the walk stays stuck. */
  lemma {:induction false} WalkStuck(net: Network, dirs: seq<char>, from: Node, k: nat, m: nat)
    requires |dirs| > 0
    requires k <= m
    requires Walk(net, dirs, from, k).None?
    ensures Walk(net, dirs, from, m).None?
  {
    if k < m {
      WalkStuck(net, dirs, from, k, m - 1);
    }
  }

  /** `part_1::solution`: the 1-based number of the first step that lands
      on ZZZ, or `None` when a step panics, the directions are empty or the
      iteration limit passes first. */
  method Part1(net: Network, dirs: seq<char>) returns (r: Option<nat>)
    ensures r.Some? <==> |dirs| > 0 && exists k :: 1 <= k <= MaxIter + 2 && Walk(net, dirs, Start, k) == Some(Goal)
    ensures r.Some? ==> |dirs| > 0 && 1 <= r.value <= MaxIter + 2 && Walk(net, dirs, Start, r.value) == Some(Goal)
    ensures r.Some? ==> forall k :: 1 <= k < r.value ==> Walk(net, dirs, Start, k) != Some(Goal)
  {
    if |dirs| == 0 {
      return None;
    }
    var current := Start;
    var iter: nat := 0;
    while true
      invariant iter <= MaxIter + 1
      invariant Walk(net, dirs, Start, iter) == Some(current)
      invariant forall k :: 1 <= k <= iter ==> Walk(net, dirs, Start, k) != Some(Goal)
      decreases MaxIter + 1 - iter
    {
      var next := Move(net, dirs[iter % |dirs|], current);
      if next.None? {
        forall k | iter < k <= MaxIter + 2
          ensures Walk(net, dirs, Start, k).None?
        {
          WalkStuck(net, dirs, Start, iter + 1, k);
        }
        return None;
      }
      current := next.value;
      assert Walk(net, dirs, Start, iter + 1) == Some(current);
      if current == Goal {
        return Some(iter + 1);
      }
      if iter > MaxIter {
        break;
      }
      iter := iter + 1;
    }
    return None;
  }

  // ------------------------------------------------------------- lcm

  /** `n` is a whole multiple of `d`. */
  predicate Divides(d: nat, n: nat)
  {
    d > 0 && n == d * (n / d)
  }

  lemma MulAtLeast(d: nat, m: int)
    requires d > 0
    ensures m >= 1 ==> d * m >= d
    ensures m <= -1 ==> d * m + d <= 0
  {
  }

  lemma MultipleDivides(d: nat, k: nat)
    requires d > 0
    ensures Divides(d, d * k)
    ensures (d * k) / d == k
  {
    var q, r := (d * k) / d, (d * k) % d;
    assert d * k == d * q + r;
    assert d * (k - q) == r;
    MulAtLeast(d, k - q);
  }

  /** A common divisor of `y` and `x % y` divides `x`, and conversely. */
  lemma DividesStep(d: nat, x: nat, y: nat)
    requires y > 0 && Divides(d, y)
    ensures Divides(d, x % y) <==> Divides(d, x)
  {
    var q := x / y;
    var ky := y / d;
    assert x == q * y + x % y;
    assert q * y == d * (q * ky);
    if Divides(d, x % y) {
      var kr := (x % y) / d;
      assert x == d * (q * ky + kr);
      MultipleDivides(d, q * ky + kr);
    }
    if Divides(d, x) {
      var kx := x / d;
      assert x % y == d * (kx - q * ky);
      MultipleDivides(d, kx - q * ky);
    }
  }

  /** Euclid's remainder sequence. */
  function Gcd(x: nat, y: nat): (g: nat)
    ensures x > 0 || y > 0 ==> g > 0
    decreases y
  {
    if y == 0 then x else Gcd(y, x % y)
  }

  lemma GcdSymmetric(a: nat, b: nat)
    ensures Gcd(a, b) == Gcd(b, a)
  {
    if a < b {
      ModSmall(a, b);
    } else if b < a {
      ModSmall(b, a);
    }
  }

  lemma ModSmall(a: nat, b: nat)
    requires a < b
    ensures Gcd(a, b) == Gcd(b, a)
  {
    assert a % b == a;
  }

  lemma MulMonotone(g: nat, k: nat, m: nat)
    requires g >= 1 && k <= m
    ensures k <= g * k && g * k <= g * m
  {
  }

  /** `Gcd` is a common divisor, and every common divisor divides it: it is
      the greatest common divisor. */
  lemma {:induction false} GcdIsGreatest(x: nat, y: nat, d: nat)
    requires x > 0 || y > 0
    ensures Gcd(x, y) > 0 && Divides(Gcd(x, y), x) && Divides(Gcd(x, y), y)
    ensures Divides(d, x) && Divides(d, y) ==> Divides(d, Gcd(x, y))
    decreases y
  {
    if y == 0 {
      MultipleDivides(x, 1);
      MultipleDivides(x, 0);
    } else {
      GcdIsGreatest(y, x % y, d);
      DividesStep(Gcd(y, x % y), x, y);
      if Divides(d, y) {
        DividesStep(d, x, y);
      }
    }
  }

  /** `lcm(a, b)`; `x % 0` panics when the smaller argument is zero. */
  function LcmOf(a: nat, b: nat): Option<nat>
  {
    if a == 0 || b == 0 then None else Some(Quotient(a * b, Gcd(a, b)))
  }

  function Quotient(n: nat, d: nat): nat
    requires d > 0
  {
    n / d
  }

  /** For positive arguments the result is a positive common multiple of
      both, no larger than their product. */
  lemma LcmIsCommonMultiple(a: nat, b: nat)
    requires a > 0 && b > 0
    ensures LcmOf(a, b).Some?
    ensures Divides(a, LcmOf(a, b).value) && Divides(b, LcmOf(a, b).value)
    ensures 0 < LcmOf(a, b).value <= a * b
  {
    var g := Gcd(a, b);
    GcdIsGreatest(a, b, 1);
    var ka, kb := a / g, b / g;
    var l := Quotient(a * b, g);
    Regroup(a, g, kb);
    MultipleDivides(g, a * kb);
    Regroup(b, g, ka);
    assert a * b == b * a;
    MultipleDivides(g, b * ka);
    MultipleDivides(a, kb);
    MultipleDivides(b, ka);
    assert l == a * kb == b * ka;
    MulMonotone(g, kb, kb);
    MulMonotone(a, kb, b);
  }

  /** `x * (g * k) == g * (x * k)`. */
  lemma Regroup(x: nat, g: nat, k: nat)
    ensures x * (g * k) == g * (x * k)
  {
  }

  lemma LcmExamples()
    ensures LcmOf(4, 5) == Some(20)
    ensures LcmOf(12, 16) == Some(48)
    ensures LcmOf(10, 9) == Some(90)
  {
    assert Gcd(4, 5) == 1 by {
      assert Gcd(5, 4) == Gcd(4, 1) == Gcd(1, 0) == 1;
      GcdSymmetric(4, 5);
    }
    assert Gcd(12, 16) == 4 by {
      assert Gcd(16, 12) == Gcd(12, 4) == Gcd(4, 0) == 4;
      GcdSymmetric(12, 16);
    }
    assert Gcd(10, 9) == Gcd(9, 1) == Gcd(1, 0) == 1;
    assert Quotient(20, 1) == 20 && Quotient(192, 4) == 48 && Quotient(90, 1) == 90;
  }

  /** The Euclid loop of `lcm`; the remainder strictly decreases. */
  method Lcm(a: nat, b: nat) returns (r: Option<nat>)
    ensures r == LcmOf(a, b)
  {
    var x: nat, y: nat;
    if a > b {
      x, y := a, b;
    } else {
      x, y := b, a;
    }
    if y == 0 {
      return None;
    }
    assert a > 0 && b > 0;
    GcdSymmetric(a, b);
    var rem := x % y;
    while rem != 0
      invariant y > 0 && rem == x % y
      invariant Gcd(x, y) == Gcd(a, b)
      decreases rem
    {
      x := y;
      y := rem;
      rem := x % y;
    }
    assert Gcd(x, y) == Gcd(y, 0) == y;
    r := Some(Quotient(a * b, y));
  }

  /** `reduce(lcm)`: `None` for no values (the final `unwrap` panics) or
      when one `lcm` panics. */
  function LcmFold(cs: seq<nat>): Option<nat>
  {
    if |cs| == 0 then None
    else if |cs| == 1 then Some(cs[0])
    else
      var acc := LcmFold(cs[..|cs| - 1]);
      if acc.None? then None else LcmOf(acc.value, cs[|cs| - 1])
  }

  /** Once a prefix has no `lcm`, neither has the whole sequence. */
  lemma {:induction false} LcmFoldStuck(cs: seq<nat>, k: nat)
    requires 1 <= k <= |cs|
    requires LcmFold(cs[..k]).None?
    ensures LcmFold(cs).None?
    decreases |cs| - k
  {
    if k < |cs| {
      assert cs[..k + 1][..k] == cs[..k];
      LcmFoldStuck(cs, k + 1);
    } else {
      assert cs[..k] == cs;
    }
  }

  lemma DividesTransitive(a: nat, b: nat, c: nat)
    requires Divides(a, b) && Divides(b, c)
    ensures Divides(a, c)
  {
    var kb, kc := b / a, c / b;
    assert c == a * (kb * kc);
    MultipleDivides(a, kb * kc);
  }

  /** Folding positive values with `lcm` yields a positive common multiple
      of all of them. */
  lemma {:induction false} LcmFoldCommonMultiple(cs: seq<nat>)
    requires |cs| > 0
    requires forall i :: 0 <= i < |cs| ==> cs[i] > 0
    ensures LcmFold(cs).Some? && LcmFold(cs).value > 0
    ensures forall i :: 0 <= i < |cs| ==> Divides(cs[i], LcmFold(cs).value)
  {
    if |cs| == 1 {
      MultipleDivides(cs[0], 1);
    } else {
      var init := cs[..|cs| - 1];
      LcmFoldCommonMultiple(init);
      var acc := LcmFold(init).value;
      var last := cs[|cs| - 1];
      LcmIsCommonMultiple(acc, last);
      var l := LcmFold(cs).value;
      forall i | 0 <= i < |cs|
        ensures Divides(cs[i], l)
      {
        if i < |cs| - 1 {
          assert init[i] == cs[i];
          DividesTransitive(cs[i], acc, l);
        }
      }
    }
  }

  // ------------------------------------------------------------- part 2

  /** `NodeStatus`: where a tracked walk is, the iteration of its first
      visit to a node ending in Z, and the cycle length once known. */
  datatype Status = Status(node: Node, lastZ: Option<nat>, cycle: Option<nat>)

  predicate AtZ(n: Option<Node>)
  {
    n.Some? && n.value.c2 == 'Z'
  }

  /** The update of one status at 1-based iteration `iter`; `None` when the
      step panics (an unknown direction, a missing node, or `iter - x`
      underflowing). A status whose cycle is known no longer moves. */
  function Advance(net: Network, dir: char, iter: nat, st: Status): Option<Status>
  {
    if st.cycle.Some? then Some(st)
    else
      var next := Move(net, dir, st.node);
      if next.None? then None
      else if next.value.c2 != 'Z' then Some(st.(node := next.value))
      else if st.lastZ.None? then Some(Status(next.value, Some(iter), None))
      else if st.lastZ.value <= iter then Some(Status(next.value, st.lastZ, Some(iter - st.lastZ.value)))
      else None
  }

  /** The status of the walk from `start` after iterations `1..=t`. */
  function Track(net: Network, dirs: seq<char>, start: Node, t: nat): Option<Status>
    requires |dirs| > 0
  {
    if t == 0 then Some(Status(start, None, None))
    else
      var prev := Track(net, dirs, start, t - 1);
      if prev.None? then None else Advance(net, dirs[(t - 1) % |dirs|], t, prev.value)
  }

  /** The iterations in `1..=t`, ascending, at which the plain walk from
      `start` stands on a node ending in Z. */
  function ZHits(net: Network, dirs: seq<char>, start: Node, t: nat): (hits: seq<nat>)
    requires |dirs| > 0
    ensures forall i :: 0 <= i < |hits| ==> 1 <= hits[i] <= t
    ensures forall i :: 0 < i < |hits| ==> hits[i - 1] < hits[i]
  {
    if t == 0 then []
    else ZHits(net, dirs, start, t - 1) + (if AtZ(Walk(net, dirs, start, t)) then [t] else [])
  }

  /** What a status should hold after `t` iterations, read off the walk
      alone: after two Z-hits, the node of the second, the first hit, and
      their distance; before that, the current node and the first hit if
      any. */
  function Observed(net: Network, dirs: seq<char>, start: Node, t: nat): Option<Status>
    requires |dirs| > 0
  {
    var hits := ZHits(net, dirs, start, t);
    if |hits| >= 2 then
      var second := Walk(net, dirs, start, hits[1]);
      if second.None? then None
      else Some(Status(second.value, Some(hits[0]), Some(hits[1] - hits[0])))
    else
      var here := Walk(net, dirs, start, t);
      if here.None? then None
      else Some(Status(here.value, if |hits| == 1 then Some(hits[0]) else None, None))
  }

  /** From the second Z-hit on, the observation no longer changes. */
  lemma ObservedFrozen(net: Network, dirs: seq<char>, start: Node, t: nat)
    requires |dirs| > 0 && t > 0
    requires |ZHits(net, dirs, start, t - 1)| >= 2
    ensures Observed(net, dirs, start, t - 1).None? || Observed(net, dirs, start, t - 1).value.cycle.Some?
    ensures Observed(net, dirs, start, t) == Observed(net, dirs, start, t - 1)
  {
    var before := ZHits(net, dirs, start, t - 1);
    var hits := ZHits(net, dirs, start, t);
    assert hits[0] == before[0] && hits[1] == before[1];
  }

  /** Before the second Z-hit a panicked walk stays unobserved. */
  lemma ObservedStuck(net: Network, dirs: seq<char>, start: Node, t: nat)
    requires |dirs| > 0 && t > 0
    requires |ZHits(net, dirs, start, t - 1)| < 2
    requires Walk(net, dirs, start, t - 1).None?
    ensures Observed(net, dirs, start, t - 1).None? && Observed(net, dirs, start, t).None?
  {
    assert ZHits(net, dirs, start, t) == ZHits(net, dirs, start, t - 1);
  }

  /** A step that does not land on Z leaves the hits unchanged. */
  lemma ObservedPlainStep(net: Network, dirs: seq<char>, start: Node, t: nat)
    requires |dirs| > 0 && t > 0
    requires |ZHits(net, dirs, start, t - 1)| < 2
    requires Walk(net, dirs, start, t - 1).Some? && !AtZ(Walk(net, dirs, start, t))
    ensures Observed(net, dirs, start, t - 1).Some?
    ensures Observed(net, dirs, start, t) == Advance(net, dirs[(t - 1) % |dirs|], t, Observed(net, dirs, start, t - 1).value)
  {
    assert ZHits(net, dirs, start, t) == ZHits(net, dirs, start, t - 1);
  }

  /** The first step that lands on Z records its iteration. */
  lemma ObservedFirstZ(net: Network, dirs: seq<char>, start: Node, t: nat)
    requires |dirs| > 0 && t > 0
    requires |ZHits(net, dirs, start, t - 1)| == 0
    requires Walk(net, dirs, start, t - 1).Some? && AtZ(Walk(net, dirs, start, t))
    ensures Observed(net, dirs, start, t - 1).Some?
    ensures Observed(net, dirs, start, t) == Advance(net, dirs[(t - 1) % |dirs|], t, Observed(net, dirs, start, t - 1).value)
  {
    assert ZHits(net, dirs, start, t) == [t];
  }

  /** The second step that lands on Z records the distance. */
  lemma ObservedSecondZ(net: Network, dirs: seq<char>, start: Node, t: nat)
    requires |dirs| > 0 && t > 0
    requires |ZHits(net, dirs, start, t - 1)| == 1
    requires Walk(net, dirs, start, t - 1).Some? && AtZ(Walk(net, dirs, start, t))
    ensures Observed(net, dirs, start, t - 1).Some?
    ensures Observed(net, dirs, start, t) == Advance(net, dirs[(t - 1) % |dirs|], t, Observed(net, dirs, start, t - 1).value)
  {
    var before := ZHits(net, dirs, start, t - 1);
    var hits := ZHits(net, dirs, start, t);
    assert hits == before + [t];
    assert hits[0] == before[0] && hits[1] == t;
  }

  /** The status updates record exactly the first Z-hit and the distance
      to the second, and freeze the node from the second hit on. */
  lemma {:induction false} TrackObserved(net: Network, dirs: seq<char>, start: Node, t: nat)
    requires |dirs| > 0
    ensures Track(net, dirs, start, t) == Observed(net, dirs, start, t)
  {
    if t > 0 {
      TrackObserved(net, dirs, start, t - 1);
      ObservedStep(net, dirs, start, t);
    }
  }

  /** One iteration of the status update, read off the walk. */
  lemma ObservedStep(net: Network, dirs: seq<char>, start: Node, t: nat)
    requires |dirs| > 0 && t > 0
    ensures var before := Observed(net, dirs, start, t - 1);
      Observed(net, dirs, start, t) == if before.None? then None else Advance(net, dirs[(t - 1) % |dirs|], t, before.value)
  {
    if |ZHits(net, dirs, start, t - 1)| >= 2 {
      ObservedFrozen(net, dirs, start, t);
    } else if Walk(net, dirs, start, t - 1).None? {
      ObservedStuck(net, dirs, start, t);
    } else if !AtZ(Walk(net, dirs, start, t)) {
      ObservedPlainStep(net, dirs, start, t);
    } else if |ZHits(net, dirs, start, t - 1)| == 0 {
      ObservedFirstZ(net, dirs, start, t);
    } else {
      ObservedSecondZ(net, dirs, start, t);
    }
  }

  /** The statuses of all starts after `t` iterations; `None` when one of
      them panicked. */
  function TrackAll(net: Network, dirs: seq<char>, starts: seq<Node>, t: nat): Option<seq<Status>>
    requires |dirs| > 0
  {
    if forall i :: 0 <= i < |starts| ==> Track(net, dirs, starts[i], t).Some? then
      Some(seq(|starts|, i requires 0 <= i < |starts| => Track(net, dirs, starts[i], t).value))
    else None
  }

  /** One iteration applied to every status; `None` when one panics. */
  function AdvanceAll(net: Network, dir: char, iter: nat, ss: seq<Status>): Option<seq<Status>>
  {
    if forall i :: 0 <= i < |ss| ==> Advance(net, dir, iter, ss[i]).Some? then
      Some(seq(|ss|, i requires 0 <= i < |ss| => Advance(net, dir, iter, ss[i]).value))
    else None
  }

  lemma TrackAllStep(net: Network, dirs: seq<char>, starts: seq<Node>, t: nat)
    requires |dirs| > 0 && t > 0
    ensures TrackAll(net, dirs, starts, t - 1).None? ==> TrackAll(net, dirs, starts, t).None?
    ensures TrackAll(net, dirs, starts, t - 1).Some? ==>
      TrackAll(net, dirs, starts, t) == AdvanceAll(net, dirs[(t - 1) % |dirs|], t, TrackAll(net, dirs, starts, t - 1).value)
  {
    var dir := dirs[(t - 1) % |dirs|];
    var before := TrackAll(net, dirs, starts, t - 1);
    if before.None? {
      var i :| 0 <= i < |starts| && Track(net, dirs, starts[i], t - 1).None?;
      assert Track(net, dirs, starts[i], t).None?;
    } else {
      var ss := before.value;
      assert forall i :: 0 <= i < |starts| ==> Track(net, dirs, starts[i], t) == Advance(net, dir, t, ss[i]);
      var after := AdvanceAll(net, dir, t, ss);
      if after.Some? {
        assert TrackAll(net, dirs, starts, t).value == after.value;
      } else {
        var i :| 0 <= i < |ss| && Advance(net, dir, t, ss[i]).None?;
        assert Track(net, dirs, starts[i], t).None?;
      }
    }
  }

  /** The `iter_mut` pass over all statuses at iteration `iter`. */
  method AdvanceStatuses(net: Network, dir: char, iter: nat, ss: seq<Status>) returns (r: Option<seq<Status>>)
    ensures r == AdvanceAll(net, dir, iter, ss)
  {
    var cur := ss;
    for i := 0 to |ss|
      invariant |cur| == |ss|
      invariant forall j :: 0 <= j < i ==> Advance(net, dir, iter, ss[j]).Some? && cur[j] == Advance(net, dir, iter, ss[j]).value
      invariant forall j :: i <= j < |ss| ==> cur[j] == ss[j]
    {
      var next := Advance(net, dir, iter, cur[i]);
      if next.None? {
        return None;
      }
      cur := cur[i := next.value];
    }
    assert cur == seq(|ss|, i requires 0 <= i < |ss| => Advance(net, dir, iter, ss[i]).value);
    return Some(cur);
  }

  predicate AllCycled(ss: seq<Status>)
  {
    forall i :: 0 <= i < |ss| ==> ss[i].cycle.Some?
  }

  /** The condition the final `assert_eq!` checks. */
  predicate FirstHitIsCycle(ss: seq<Status>)
  {
    forall i :: 0 <= i < |ss| ==> ss[i].lastZ == ss[i].cycle
  }

  /** The last iteration the loop body runs, searching from `t`: the first
      at which every status has a cycle length (or one panicked), and at
      most `MaxIter + 1`. */
  function LastIter(net: Network, dirs: seq<char>, starts: seq<Node>, t: nat): nat
    requires |dirs| > 0 && 1 <= t <= MaxIter + 1
    decreases MaxIter + 1 - t
  {
    var ss := TrackAll(net, dirs, starts, t);
    if ss.None? || AllCycled(ss.value) || t > MaxIter then t else LastIter(net, dirs, starts, t + 1)
  }

  function Cycles(ss: seq<Status>): seq<nat>
    requires AllCycled(ss)
  {
    seq(|ss|, i requires 0 <= i < |ss| => ss[i].cycle.value)
  }

  /** After the loop: the `assert_eq!`, the `unwrap` of every cycle length
      and `reduce(lcm).unwrap()`. */
  function Finish(ss: seq<Status>): Option<nat>
  {
    if !FirstHitIsCycle(ss) || !AllCycled(ss) then None else LcmFold(Cycles(ss))
  }

  /** The start nodes: the keys ending in A, in the map's iteration order. */
  function Starts(keys: seq<Node>): (starts: seq<Node>)
    ensures forall n :: n in starts <==> n in keys && n.c2 == 'A'
  {
    if keys == [] then []
    else
      var last := keys[|keys| - 1];
      Starts(keys[..|keys| - 1]) + (if last.c2 == 'A' then [last] else [])
  }

  /** `part_2::solution` on the start nodes `starts`. */
  function Part2Answer(net: Network, dirs: seq<char>, starts: seq<Node>): Option<nat>
  {
    if |dirs| == 0 then Finish(seq(|starts|, i requires 0 <= i < |starts| => Status(starts[i], None, None)))
    else
      var ss := TrackAll(net, dirs, starts, LastIter(net, dirs, starts, 1));
      if ss.None? then None else Finish(ss.value)
  }

  /** The final checks and the `reduce(lcm)` fold. */
  method FinishStatuses(ss: seq<Status>) returns (r: Option<nat>)
    ensures r == Finish(ss)
  {
    for i := 0 to |ss|
      invariant forall j :: 0 <= j < i ==> ss[j].lastZ == ss[j].cycle
    {
      if ss[i].lastZ != ss[i].cycle {
        return None;
      }
    }
    var cycles: seq<nat> := [];
    for i := 0 to |ss|
      invariant |cycles| == i
      invariant forall j :: 0 <= j < i ==> ss[j].cycle.Some? && cycles[j] == ss[j].cycle.value
    {
      if ss[i].cycle.None? {
        assert !AllCycled(ss);
        return None;
      }
      cycles := cycles + [ss[i].cycle.value];
    }
    assert cycles == Cycles(ss);
    if |cycles| == 0 {
      return None;
    }
    var acc := cycles[0];
    for k := 1 to |cycles|
      invariant LcmFold(cycles[..k]) == Some(acc)
    {
      assert cycles[..k + 1][..k] == cycles[..k];
      var l := Lcm(acc, cycles[k]);
      if l.None? {
        LcmFoldStuck(cycles, k + 1);
        return None;
      }
      acc := l.value;
    }
    assert cycles[..|cycles|] == cycles;
    return Some(acc);
  }

  /** `part_2::solution`; `keys` is the iteration order of the left map's
      keys. */
  method Part2(net: Network, dirs: seq<char>, keys: seq<Node>) returns (r: Option<nat>)
    requires forall n :: n in keys <==> n in net.left
    requires forall i, j :: 0 <= i < j < |keys| ==> keys[i] != keys[j]
    ensures r == Part2Answer(net, dirs, Starts(keys))
  {
    var starts := Starts(keys);
    var statuses := seq(|starts|, i requires 0 <= i < |starts| => Status(starts[i], None, None));
    if |dirs| > 0 {
      assert forall i :: 0 <= i < |starts| ==> Track(net, dirs, starts[i], 0) == Some(statuses[i]);
      assert seq(|starts|, i requires 0 <= i < |starts| => Track(net, dirs, starts[i], 0).value) == statuses;
      var iter := 1;
      while true
        invariant 1 <= iter <= MaxIter + 1
        invariant TrackAll(net, dirs, starts, iter - 1) == Some(statuses)
        invariant LastIter(net, dirs, starts, 1) == LastIter(net, dirs, starts, iter)
        decreases MaxIter + 1 - iter
      {
        TrackAllStep(net, dirs, starts, iter);
        var next := AdvanceStatuses(net, dirs[(iter - 1) % |dirs|], iter, statuses);
        if next.None? {
          return None;
        }
        statuses := next.value;
        if AllCycled(statuses) {
          break;
        }
        if iter > MaxIter {
          break;
        }
        iter := iter + 1;
      }
    }
    r := FinishStatuses(statuses);
  }

  /** With no directions the loop never runs and the answer panics. */
  lemma NoDirectionsNoAnswer(net: Network, starts: seq<Node>)
    ensures Part2Answer(net, [], starts).None?
  {
    var ss := seq(|starts|, i requires 0 <= i < |starts| => Status(starts[i], None, None));
    if |starts| > 0 {
      assert ss[0].cycle.None?;
    }
  }

  /** The first Z-hit of every start, once each has two. */
  function FirstHits(net: Network, dirs: seq<char>, starts: seq<Node>, t: nat): seq<nat>
    requires |dirs| > 0
    requires forall i :: 0 <= i < |starts| ==> |ZHits(net, dirs, starts[i], t)| >= 1
  {
    seq(|starts|, i requires 0 <= i < |starts| => ZHits(net, dirs, starts[i], t)[0])
  }

  /** An answer exists only when, by the last iteration, every walk from a
      start has hit Z twice with the second hit exactly twice as far as the
      first; the answer is then the `lcm`-fold of the first-hit iterations
      and a multiple of each. */
  lemma Part2Meaning(net: Network, dirs: seq<char>, starts: seq<Node>)
    requires Part2Answer(net, dirs, starts).Some?
    ensures |dirs| > 0 && |starts| > 0
    ensures forall i :: 0 <= i < |starts| ==>
      var hits := ZHits(net, dirs, starts[i], LastIter(net, dirs, starts, 1));
      |hits| >= 2 && hits[1] == 2 * hits[0]
    ensures Part2Answer(net, dirs, starts) == LcmFold(FirstHits(net, dirs, starts, LastIter(net, dirs, starts, 1)))
    ensures forall i :: 0 <= i < |starts| ==>
      Divides(ZHits(net, dirs, starts[i], LastIter(net, dirs, starts, 1))[0], Part2Answer(net, dirs, starts).value)
  {
    if |dirs| == 0 {
      NoDirectionsNoAnswer(net, starts);
    }
    var t := LastIter(net, dirs, starts, 1);
    var ss := TrackAll(net, dirs, starts, t).value;
    forall i | 0 <= i < |starts|
      ensures var hits := ZHits(net, dirs, starts[i], t);
        |hits| >= 2 && hits[1] == 2 * hits[0] && Cycles(ss)[i] == hits[0]
    {
      TrackObserved(net, dirs, starts[i], t);
      assert ss[i] == Track(net, dirs, starts[i], t).value;
    }
    var first := FirstHits(net, dirs, starts, t);
    assert Cycles(ss) == first;
    LcmFoldCommonMultiple(first);
  }
}
