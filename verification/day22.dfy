/** Day 22: sand slabs. Bricks are dropped, lowest bottom first, until one
    more step down would take them through the ground (z = 0) or into a
    brick that has already settled. Part 1 counts the bricks that are not
    the only support of another; part 2 removes each brick in turn and
    counts the bricks that fall with it. */
module Day22 {
  import opened Common

  datatype Pos3 = Pos3(x: nat, y: nat, z: nat)

  /** A brick: the closed box between two corners. */
  datatype Cube = Cube(lower: Pos3, upper: Pos3)

  // ---------------------------------------------------------------------
  // Intersection
  // ---------------------------------------------------------------------

  /** `intersects`: not apart along any axis. */
  predicate Intersects(a: Cube, b: Cube)
  {
    !(a.upper.z < b.lower.z || a.lower.z > b.upper.z ||
      a.upper.y < b.lower.y || a.lower.y > b.upper.y ||
      a.upper.x < b.lower.x || a.lower.x > b.upper.x)
  }

  predicate WellFormed(c: Cube)
  {
    c.lower.x <= c.upper.x && c.lower.y <= c.upper.y && c.lower.z <= c.upper.z
  }

  predicate Contains(c: Cube, p: Pos3)
  {
    c.lower.x <= p.x <= c.upper.x && c.lower.y <= p.y <= c.upper.y && c.lower.z <= p.z <= c.upper.z
  }

  function Max(a: nat, b: nat): nat
  {
    if a < b then b else a
  }

  /** Two well-formed bricks intersect exactly when they share a unit
      cube, so intersection is symmetric. */
  lemma IntersectsShared(a: Cube, b: Cube)
    requires WellFormed(a) && WellFormed(b)
    ensures Intersects(a, b) <==> exists p :: Contains(a, p) && Contains(b, p)
    ensures Intersects(a, b) <==> Intersects(b, a)
  {
    if Intersects(a, b) {
      var p := Pos3(Max(a.lower.x, b.lower.x), Max(a.lower.y, b.lower.y), Max(a.lower.z, b.lower.z));
      assert Contains(a, p) && Contains(b, p);
    }
  }

  /** The source's unit test: a box meets itself, still meets it when
      stretched down to the ground, no longer when it ends below, and again
      when it reaches through. */
  lemma IntersectsExamples()
    ensures var a := Cube(Pos3(10, 10, 10), Pos3(20, 20, 20));
      Intersects(a, a) &&
      Intersects(a, Cube(Pos3(10, 10, 0), Pos3(20, 20, 20))) &&
      !Intersects(a, Cube(Pos3(10, 10, 0), Pos3(20, 20, 5))) &&
      Intersects(a, Cube(Pos3(10, 10, 0), Pos3(20, 20, 25)))
  {
  }

  // ---------------------------------------------------------------------
  // The order of settling
  // ---------------------------------------------------------------------

  /** Inserts behind every brick whose bottom is at least as high. */
  function InsertByHeight(c: Cube, s: seq<Cube>): (r: seq<Cube>)
    ensures multiset(r) == multiset(s) + multiset{c}
  {
    if s == [] then [c]
    else if s[0].lower.z >= c.lower.z then
      assert s == [s[0]] + s[1..];
      [s[0]] + InsertByHeight(c, s[1..])
    else [c] + s
  }

  predicate Descending(s: seq<Cube>)
  {
    forall i, j :: 0 <= i < j < |s| ==> s[i].lower.z >= s[j].lower.z
  }

  predicate Ascending(s: seq<Cube>)
  {
    forall i, j :: 0 <= i < j < |s| ==> s[i].lower.z <= s[j].lower.z
  }

  lemma {:induction false} InsertKeepsDescending(c: Cube, s: seq<Cube>)
    requires Descending(s)
    ensures Descending(InsertByHeight(c, s))
  {
    if s != [] && s[0].lower.z >= c.lower.z {
      InsertKeepsDescending(c, s[1..]);
      var r := InsertByHeight(c, s[1..]);
      assert forall k :: 0 <= k < |r| ==> r[k] in multiset(r);
      assert forall k :: 0 <= k < |r| ==> r[k].lower.z <= s[0].lower.z by {
        forall k | 0 <= k < |r|
          ensures r[k].lower.z <= s[0].lower.z
        {
          assert r[k] in multiset(s[1..]) + multiset{c};
          if r[k] in multiset(s[1..]) {
            assert r[k] in s[1..];
          }
        }
      }
    }
  }

  /** `sort_by_cached_key(|cube| -lower.z)`: a stable sort, highest bottom
      first. */
  function SortByHeight(s: seq<Cube>): (r: seq<Cube>)
    ensures multiset(r) == multiset(s)
    ensures Descending(r)
  {
    if s == [] then []
    else
      assert s == s[..|s| - 1] + [s[|s| - 1]];
      InsertKeepsDescending(s[|s| - 1], SortByHeight(s[..|s| - 1]));
      InsertByHeight(s[|s| - 1], SortByHeight(s[..|s| - 1]))
  }

  function Reverse(s: seq<Cube>): (r: seq<Cube>)
    ensures |r| == |s|
    ensures forall i :: 0 <= i < |s| ==> r[i] == s[|s| - 1 - i]
  {
    if s == [] then [] else [s[|s| - 1]] + Reverse(s[..|s| - 1])
  }

  /** The bricks in the order they are dropped: sorted by descending
      bottom, then reversed. */
  function DropOrder(falling: seq<Cube>): seq<Cube>
  {
    Reverse(SortByHeight(falling))
  }

  /** The bricks are dropped lowest bottom first, each of them once. */
  lemma DropOrderSorted(falling: seq<Cube>)
    ensures Ascending(DropOrder(falling))
    ensures multiset(DropOrder(falling)) == multiset(falling)
  {
    var s := SortByHeight(falling);
    var r := DropOrder(falling);
    assert forall i, j :: 0 <= i < j < |r| ==> r[i] == s[|s| - 1 - i] && r[j] == s[|s| - 1 - j];
    ReverseMultiset(s);
  }

  lemma {:induction false} ReverseMultiset(s: seq<Cube>)
    ensures multiset(Reverse(s)) == multiset(s)
  {
    if s != [] {
      ReverseMultiset(s[..|s| - 1]);
      assert s == s[..|s| - 1] + [s[|s| - 1]];
    }
  }

  // ---------------------------------------------------------------------
  // Settling one brick
  // ---------------------------------------------------------------------

  /** The settled bricks `c` intersects, newest first, as
      `settled.iter().rev().filter(..)` lists them. */
  function Supporters(settled: seq<Cube>, c: Cube): (r: seq<Cube>)
    ensures forall s :: s in r <==> s in settled && Intersects(c, s)
  {
    if settled == [] then []
    else
      (if Intersects(c, settled[|settled| - 1]) then [settled[|settled| - 1]] else [])
      + Supporters(settled[..|settled| - 1], c)
  }

  /** The brick moved `k` levels down. */
  function Lowered(c: Cube, k: nat): (d: Cube)
    requires k <= c.lower.z <= c.upper.z
    ensures d.lower.z <= d.upper.z
  {
    Cube(Pos3(c.lower.x, c.lower.y, c.lower.z - k), Pos3(c.upper.x, c.upper.y, c.upper.z - k))
  }

  /** One more step down would reach the ground or a settled brick. */
  predicate Blocked(settled: seq<Cube>, c: Cube)
  {
    c.lower.z == 0 || Supporters(settled, c) != []
  }

  /** Where a brick comes to rest: it moves down while the level below is
      free. */
  function Fall(settled: seq<Cube>, c: Cube): (r: Cube)
    requires 1 <= c.lower.z <= c.upper.z
    ensures 1 <= r.lower.z <= c.lower.z && r.lower.z <= r.upper.z
    ensures r == Lowered(c, c.lower.z - r.lower.z)
    decreases c.lower.z
  {
    var d := Lowered(c, 1);
    if Blocked(settled, d) then c else Fall(settled, d)
  }

  /** Settling moves a brick straight down: one step lower is blocked, and
      every level it passed was free. */
  lemma {:induction false} FallStops(settled: seq<Cube>, c: Cube)
    requires 1 <= c.lower.z <= c.upper.z
    ensures Blocked(settled, Lowered(Fall(settled, c), 1))
    ensures forall k :: 1 <= k <= c.lower.z - Fall(settled, c).lower.z ==> !Blocked(settled, Lowered(c, k))
    decreases c.lower.z
  {
    var d := Lowered(c, 1);
    if !Blocked(settled, d) {
      FallStops(settled, d);
      forall k | 1 <= k <= c.lower.z - Fall(settled, c).lower.z
        ensures !Blocked(settled, Lowered(c, k))
      {
        if k > 1 {
          assert Lowered(c, k) == Lowered(d, k - 1);
        }
      }
    }
  }

  /** One brick of the `map` closure: moves it down a level at a time and
      stops where the level below is blocked, returning its supporters. */
  method Drop(settled: seq<Cube>, cube: Cube) returns (rest: Cube, supports: seq<Cube>)
    requires 1 <= cube.lower.z <= cube.upper.z
    ensures rest == Fall(settled, cube)
    ensures supports == Supporters(settled, Lowered(rest, 1))
  {
    var c := cube;
    while true
      invariant 1 <= c.lower.z <= c.upper.z
      invariant Fall(settled, c) == Fall(settled, cube)
      decreases c.lower.z
    {
      var down := Lowered(c, 1);
      supports := Supporters(settled, down);
      if down.lower.z == 0 || supports != [] {
        return c, supports;
      }
      c := down;
    }
  }

  // ---------------------------------------------------------------------
  // Settling the whole stack
  // ---------------------------------------------------------------------

  predicate Droppable(s: seq<Cube>)
  {
    forall i :: 0 <= i < |s| ==> 1 <= s[i].lower.z <= s[i].upper.z
  }

  /** The settled bricks in the order they came to rest, and for each the
      bricks it rests on. */
  function Settle(order: seq<Cube>): (r: (seq<Cube>, seq<seq<Cube>>))
    requires Droppable(order)
    ensures |r.0| == |order| && |r.1| == |order|
  {
    if order == [] then ([], [])
    else
      var prev := Settle(order[..|order| - 1]);
      var rest := Fall(prev.0, order[|order| - 1]);
      (prev.0 + [rest], prev.1 + [Supporters(prev.0, Lowered(rest, 1))])
  }

  /** Each brick settles on top of the bricks settled before it; its
      supporters are exactly the earlier bricks it would intersect one
      level lower, and a brick with none rests on the ground. */
  lemma {:induction false} SettleAt(order: seq<Cube>, i: nat)
    requires Droppable(order) && i < |order|
    ensures Settle(order).0[..i] == Settle(order[..i]).0
    ensures Settle(order).0[i] == Fall(Settle(order[..i]).0, order[i])
    ensures Settle(order).1[i] == Supporters(Settle(order[..i]).0, Lowered(Settle(order).0[i], 1))
    ensures Settle(order).1[i] == [] ==> Settle(order).0[i].lower.z == 1
  {
    var n := |order| - 1;
    if i < n {
      SettleAt(order[..n], i);
      assert order[..n][..i] == order[..i];
    } else {
      assert order[..i] == order[..n];
    }
    FallStops(Settle(order[..i]).0, order[i]);
  }

  /** Settling keeps each brick's footprint and height; only z changes. */
  lemma SettleKeepsShape(order: seq<Cube>, i: nat)
    requires Droppable(order) && i < |order|
    ensures var c := Settle(order).0[i];
      c.lower.x == order[i].lower.x && c.lower.y == order[i].lower.y &&
      c.upper.x == order[i].upper.x && c.upper.y == order[i].upper.y &&
      c.upper.z - c.lower.z == order[i].upper.z - order[i].lower.z &&
      1 <= c.lower.z <= order[i].lower.z
  {
    SettleAt(order, i);
  }

  /** Every supporter is a settled brick. */
  lemma {:induction false} SupportersSettled(order: seq<Cube>)
    requires Droppable(order)
    ensures forall i, s :: 0 <= i < |order| && s in Settle(order).1[i] ==> s in Settle(order).0
  {
    if order != [] {
      SupportersSettled(order[..|order| - 1]);
    }
  }

  /** The settling loop: drops the bricks in order and collects, for each,
      the bricks it rests on. */
  method SettleAll(order: seq<Cube>) returns (settled: seq<Cube>, supportedBy: seq<seq<Cube>>)
    requires Droppable(order)
    ensures (settled, supportedBy) == Settle(order)
  {
    settled, supportedBy := [], [];
    for i := 0 to |order|
      invariant (settled, supportedBy) == Settle(order[..i])
    {
      assert order[..i + 1][..i] == order[..i];
      var rest, supports := Drop(settled, order[i]);
      settled, supportedBy := settled + [rest], supportedBy + [supports];
    }
    assert order[..|order|] == order;
  }

  // ---------------------------------------------------------------------
  // Part 1
  // ---------------------------------------------------------------------

  /** The bricks that are the only support of some brick. */
  function KeyCubes(supportedBy: seq<seq<Cube>>): (r: set<Cube>)
    ensures forall s :: s in r <==> exists i :: 0 <= i < |supportedBy| && supportedBy[i] == [s]
  {
    var r := set i | 0 <= i < |supportedBy| && |supportedBy[i]| == 1 :: supportedBy[i][0];
    assert forall i :: 0 <= i < |supportedBy| && |supportedBy[i]| == 1 ==> supportedBy[i] == [supportedBy[i][0]];
    r
  }

  function Elements(s: seq<Cube>): set<Cube>
  {
    set c | c in s
  }

  lemma {:induction false} ElementsBound(s: seq<Cube>)
    ensures |Elements(s)| <= |s|
    ensures (forall i, j :: 0 <= i < j < |s| ==> s[i] != s[j]) ==> |Elements(s)| == |s|
  {
    if s != [] {
      var init := s[..|s| - 1];
      ElementsBound(init);
      assert Elements(s) == Elements(init) + {s[|s| - 1]};
      if forall i, j :: 0 <= i < j < |s| ==> s[i] != s[j] {
        assert s[|s| - 1] !in Elements(init);
      }
    }
  }

  /** No more bricks are anyone's only support than there are bricks. */
  lemma KeyCubesBound(order: seq<Cube>)
    requires Droppable(order)
    ensures KeyCubes(Settle(order).1) <= Elements(Settle(order).0)
    ensures |KeyCubes(Settle(order).1)| <= |order|
  {
    var settled := Settle(order).0;
    var sups := Settle(order).1;
    SupportersSettled(order);
    forall s | s in KeyCubes(sups)
      ensures s in Elements(settled)
    {
      var i :| 0 <= i < |sups| && sups[i] == [s];
      assert s in sups[i];
    }
    ElementsBound(settled);
    SubsetSize(KeyCubes(sups), Elements(settled));
  }

  lemma {:induction false} SubsetSize(a: set<Cube>, b: set<Cube>)
    requires a <= b
    ensures |a| <= |b|
    decreases b
  {
    if a != {} {
      var x :| x in a;
      SubsetSize(a - {x}, b - {x});
    }
  }

  /** With distinct settled bricks, the answer counts exactly the settled
      bricks that are nobody's only support: those that can be taken out
      without anything falling. */
  lemma SafeBricks(order: seq<Cube>)
    requires Droppable(order)
    requires forall i, j :: 0 <= i < j < |order| ==> Settle(order).0[i] != Settle(order).0[j]
    ensures |order| - |KeyCubes(Settle(order).1)|
      == |Elements(Settle(order).0) - KeyCubes(Settle(order).1)|
  {
    KeyCubesBound(order);
    ElementsBound(Settle(order).0);
  }

  /** Part 1 on the parsed bricks, each at least one level up and with its
      bottom not above its top. */
  method Part1(falling: seq<Cube>) returns (r: nat)
    requires Droppable(falling)
    ensures Droppable(DropOrder(falling))
    ensures r == |falling| - |KeyCubes(Settle(DropOrder(falling)).1)|
  {
    var order := DropOrder(falling);
    DroppableOrder(falling);
    var settled, supportedBy := SettleAll(order);
    KeyCubesBound(order);
    assert |multiset(order)| == |multiset(falling)|;
    r := |falling| - |KeyCubes(supportedBy)|;
  }

  lemma DroppableOrder(falling: seq<Cube>)
    requires Droppable(falling)
    ensures Droppable(DropOrder(falling))
  {
    DropOrderSorted(falling);
    var order := DropOrder(falling);
    forall i | 0 <= i < |order|
      ensures 1 <= order[i].lower.z <= order[i].upper.z
    {
      assert order[i] in multiset(falling);
    }
  }

  // ---------------------------------------------------------------------
  // Part 2: what rests on what
  // ---------------------------------------------------------------------

  type Supports = map<Cube, set<Cube>>

  /** The box that stands for the ground in part 2. */
  const Ground := Cube(Pos3(0, 0, 0), Pos3(1000, 1000, 0))

  /** What a settled brick rests on in part 2: the ground when it lies at
      z = 1, whatever it touches below otherwise. */
  function Rests(c: Cube, supports: seq<Cube>): set<Cube>
  {
    if c.lower.z == 1 then {Ground} else Elements(supports)
  }

  /** `supported_by`, collected by `HashMap::from_iter`: a later copy of a
      brick overwrites an earlier one. */
  function SupportMap(settled: seq<Cube>, sups: seq<seq<Cube>>): (m: Supports)
    requires |settled| == |sups|
    ensures m.Keys == Elements(settled)
  {
    if settled == [] then map[]
    else
      var n := |settled| - 1;
      assert Elements(settled) == Elements(settled[..n]) + {settled[n]};
      SupportMap(settled[..n], sups[..n])[settled[n] := Rests(settled[n], sups[n])]
  }

  /** The support map of a settled stack. */
  function Stack(order: seq<Cube>): Supports
    requires Droppable(order)
  {
    SupportMap(Settle(order).0, Settle(order).1)
  }

  predicate Grounded(supp: Supports)
  {
    forall c :: c in supp ==> supp[c] != {}
  }

  /** Every brick rests on something: another brick or the ground. */
  lemma StackGrounded(order: seq<Cube>)
    requires Droppable(order)
    ensures Grounded(Stack(order))
  {
    var settled := Settle(order).0;
    var sups := Settle(order).1;
    forall i | 0 <= i < |order|
      ensures Rests(settled[i], sups[i]) != {}
    {
      SettleAt(order, i);
      if settled[i].lower.z != 1 {
        assert sups[i][0] in Elements(sups[i]);
      }
    }
    SupportMapValues(settled, sups);
  }

  lemma {:induction false} SupportMapValues(settled: seq<Cube>, sups: seq<seq<Cube>>)
    requires |settled| == |sups|
    ensures forall c :: c in SupportMap(settled, sups) ==>
      exists i :: 0 <= i < |settled| && SupportMap(settled, sups)[c] == Rests(settled[i], sups[i])
  {
    if settled != [] {
      var n := |settled| - 1;
      SupportMapValues(settled[..n], sups[..n]);
    }
  }

  /** Every brick any brick rests on. */
  function AllSupporters(supp: Supports): set<Cube>
  {
    set c, s | c in supp && s in supp[c] :: s
  }

  /** `is_supporting`: for each supporter, the bricks resting on it. */
  function Inverse(supp: Supports): (inv: Supports)
    ensures forall s, c :: s in inv && c in inv[s] <==> c in supp && s in supp[c]
  {
    map s | s in AllSupporters(supp) :: set c | c in supp && s in supp[c]
  }

  lemma InInverse(supp: Supports, c: Cube, s: Cube)
    requires c in supp && s in supp[c]
    ensures s in Inverse(supp) && c in Inverse(supp)[s]
  {
    assert s in AllSupporters(supp);
  }

  /** `inv` with `c` recorded as resting on each of `done`. */
  function With(inv: Supports, c: Cube, done: set<Cube>): Supports
  {
    map s | s in inv.Keys + done :: (if s in inv then inv[s] else {}) + (if s in done then {c} else {})
  }

  /** The inner `for_each` of the fold: records `c` as resting on each of
      `supports`. */
  method AddSupported(inv: Supports, c: Cube, supports: set<Cube>) returns (r: Supports)
    ensures r == With(inv, c, supports)
  {
    r := inv;
    var rest := supports;
    ghost var done: set<Cube> := {};
    WithNothing(inv, c);
    while rest != {}
      invariant done + rest == supports && done !! rest
      invariant r == With(inv, c, done)
      decreases |rest|
    {
      var s :| s in rest;
      ghost var before := r;
      if s in r {
        r := r[s := r[s] + {c}];
      } else {
        r := r[s := {c}];
      }
      WithStep(inv, c, done, s, before, r);
      MoveOne(supports, done, rest, s);
      done := done + {s};
      rest := rest - {s};
    }
  }

  /** Moving one element from the to-do part of a split to the done part. */
  lemma MoveOne(all: set<Cube>, done: set<Cube>, rest: set<Cube>, s: Cube)
    requires done + rest == all && done !! rest && s in rest
    ensures (done + {s}) + (rest - {s}) == all && (done + {s}) !! (rest - {s})
  {
  }

  lemma WithNothing(inv: Supports, c: Cube)
    ensures With(inv, c, {}) == inv
  {
    var w := With(inv, c, {});
    assert w.Keys == inv.Keys;
    forall t | t in w
      ensures w[t] == inv[t]
    {
      assert w[t] == inv[t] + {};
    }
  }

  lemma WithStep(inv: Supports, c: Cube, done: set<Cube>, s: Cube, w: Supports, r: Supports)
    requires s !in done && w == With(inv, c, done)
    requires r == w[s := if s in w then w[s] + {c} else {c}]
    ensures r == With(inv, c, done + {s})
  {
    var w2 := With(inv, c, done + {s});
    var u := r;
    assert w2.Keys == u.Keys;
    forall t | t in w2
      ensures w2[t] == u[t]
    {
      if t != s {
        assert w2[t] == w[t];
      }
    }
  }

  /** Adding one brick to the support map adds it under each of its
      supporters in the inverse. */
  lemma InverseAdd(supp: Supports, c: Cube, supports: set<Cube>)
    requires c !in supp
    ensures With(Inverse(supp), c, supports) == Inverse(supp[c := supports])
  {
    var inv := Inverse(supp);
    var r := With(inv, c, supports);
    var m := supp[c := supports];
    var inv' := Inverse(m);
    forall s | s in inv'
      ensures s in r
    {
      var x :| x in inv'[s];
      if x != c {
        InInverse(supp, x, s);
      }
    }
    forall s | s in r
      ensures s in inv' && r[s] == inv'[s]
    {
      if s in supports {
        InInverse(m, c, s);
      } else {
        var x :| x in inv[s];
        InInverse(m, x, s);
      }
      forall x | x in r[s]
        ensures x in inv'[s]
      {
        InInverse(m, x, s);
      }
    }
  }

  /** The fold that builds `is_supporting` from `supported_by`. */
  method BuildIsSupporting(supp: Supports) returns (inv: Supports)
    ensures inv == Inverse(supp)
  {
    inv := map[];
    var todo := supp.Keys;
    Restricted(supp, todo);
    while todo != {}
      invariant todo <= supp.Keys
      invariant inv == Inverse(supp - todo)
      decreases |todo|
    {
      var c :| c in todo;
      inv := AddSupported(inv, c, supp[c]);
      InverseAdd(supp - todo, c, supp[c]);
      Regained(supp, todo, c);
      todo := todo - {c};
    }
    Restricted(supp, todo);
  }

  lemma Restricted(supp: Supports, todo: set<Cube>)
    ensures todo == supp.Keys ==> supp - todo == map[]
    ensures todo == {} ==> supp - todo == supp
  {
  }

  lemma Regained(supp: Supports, todo: set<Cube>, c: Cube)
    requires c in todo && todo <= supp.Keys
    ensures c !in supp - todo
    ensures supp - (todo - {c}) == (supp - todo)[c := supp[c]]
  {
  }

  // ---------------------------------------------------------------------
  // Part 2: the chain reaction
  // ---------------------------------------------------------------------

  /** Every brick all of whose supports are in `down` is in `down` too. */
  ghost predicate Closed(supp: Supports, down: set<Cube>)
  {
    forall c :: c in supp && supp[c] <= down ==> c in down
  }

  /** `c` is in every closed set holding `top`. */
  ghost predicate Falls(supp: Supports, top: Cube, c: Cube)
  {
    forall down: set<Cube> :: top in down && Closed(supp, down) ==> c in down
  }

  /** The bricks that come down when `top` is taken out: the least set
      holding `top` and every brick whose supports have all come down. */
  ghost function FallSet(supp: Supports, top: Cube): (f: set<Cube>)
    ensures top in f
  {
    set c | c in supp.Keys + {top} && Falls(supp, top, c)
  }

  lemma FallSetLeast(supp: Supports, top: Cube, down: set<Cube>)
    requires top in down && Closed(supp, down)
    ensures FallSet(supp, top) <= down
  {
  }

  /** A brick whose supports have all come down comes down as well. */
  lemma FallSetClosed(supp: Supports, top: Cube, c: Cube)
    requires c in supp && supp[c] <= FallSet(supp, top)
    ensures c in FallSet(supp, top)
  {
    forall down | top in down && Closed(supp, down)
      ensures c in down
    {
      FallSetLeast(supp, top, down);
    }
  }

  predicate AllSupported(sb: Supports)
  {
    forall c :: c in sb ==> sb[c] != {}
  }

  /** The state in the middle of the chain reaction started by taking out
      `top`: `down` holds the bricks taken out so far, `queued` those found
      without support and not yet taken out. The supports left to each
      brick are its original ones minus what is down, and the supporters
      that are down have lost their `is_supporting` entry. */
  ghost predicate Cascade(cubes: set<Cube>, sb: Supports, isSupporting: Supports,
                          supp: Supports, top: Cube, down: set<Cube>, queued: set<Cube>)
  {
    && top in supp
    && down <= supp.Keys
    && cubes == supp.Keys - down
    && sb.Keys == supp.Keys - (down - {top}) - queued
    && (forall c :: c in sb ==> sb[c] == supp[c] - down)
    && isSupporting == Inverse(supp) - down
    && down <= FallSet(supp, top)
    && queued <= FallSet(supp, top)
    && down !! queued
    && top !in queued
    && (down != {} ==> top in down)
    && (forall d :: d in down && d != top ==> supp[d] <= down)
    && (forall q :: q in queued ==> q in supp && supp[q] <= down)
  }

  /** The loop over `supporting`: `cube` is taken out of the supports of
      every brick resting on it. */
  method Strip(sb: Supports, supporting: set<Cube>, cube: Cube) returns (r: Supports)
    requires supporting <= sb.Keys
    ensures r.Keys == sb.Keys
    ensures forall c :: c in sb ==> r[c] == if c in supporting then sb[c] - {cube} else sb[c]
  {
    r := sb;
    var rest := supporting;
    ghost var done: set<Cube> := {};
    while rest != {}
      invariant done + rest == supporting && done !! rest
      invariant r.Keys == sb.Keys
      invariant forall c :: c in sb ==> r[c] == if c in done then sb[c] - {cube} else sb[c]
      decreases |rest|
    {
      var d :| d in rest;
      StripOne(sb, r, done, d, cube);
      r := r[d := r[d] - {cube}];
      MoveOne(supporting, done, rest, d);
      done := done + {d};
      rest := rest - {d};
    }
  }

  lemma StripOne(sb: Supports, r: Supports, done: set<Cube>, d: Cube, cube: Cube)
    requires d in sb && d !in done
    requires r.Keys == sb.Keys
    requires forall c :: c in sb ==> r[c] == if c in done then sb[c] - {cube} else sb[c]
    ensures r[d := r[d] - {cube}].Keys == sb.Keys
    ensures forall c :: c in sb ==> r[d := r[d] - {cube}][c] == if c in done + {d} then sb[c] - {cube} else sb[c]
  {
  }

  /** The first half of `disintegrate`: `cube` is taken out of `cubes`,
      its `is_supporting` entry is removed, it is stripped from the supports
      of the bricks resting on it, and the bricks left without support are
      collected and removed from `supported_by`. */
  method Release(cubes: set<Cube>, supportedBy: Supports, isSupporting: Supports, cube: Cube,
                 ghost supp: Supports, ghost top: Cube, ghost down: set<Cube>, ghost queued: set<Cube>)
    returns (cubes': set<Cube>, supportedBy': Supports, isSupporting': Supports, unsupported: set<Cube>)
    requires cube in cubes && cube !in queued
    requires cube == top ==> down == {}
    requires Cascade(cubes, supportedBy, isSupporting, supp, top, down, if cube == top then queued else queued + {cube})
    ensures cubes' == cubes - {cube}
    ensures isSupporting' == Inverse(supp) - (down + {cube})
    ensures unsupported == set c | c in supportedBy && supp[c] <= down + {cube}
    ensures supportedBy'.Keys == supportedBy.Keys - unsupported
    ensures forall c :: c in supportedBy' ==> supportedBy'[c] == supp[c] - (down + {cube})
  {
    cubes' := cubes - {cube};
    supportedBy' := supportedBy;
    isSupporting' := isSupporting;
    if cube in isSupporting {
      var supporting := isSupporting[cube];
      isSupporting' := isSupporting - {cube};
      RestingOnKept(cubes, supportedBy, isSupporting, cube, supp, top, down, queued);
      supportedBy' := Strip(supportedBy, supporting, cube);
    }
    StrippedSupports(supportedBy, supportedBy', isSupporting, cube, supp, down);
    unsupported := set c | c in supportedBy' && supportedBy'[c] == {};
    Emptied(supportedBy, supportedBy', supp, down + {cube}, unsupported);
    supportedBy' := supportedBy' - unsupported;
    DropKey(Inverse(supp), down, cube);
  }

  /** The bricks whose stripped supports are empty are those all of whose
      original supports are gone; removing them leaves the rest as they
      were. */
  lemma Emptied(supportedBy: Supports, stripped: Supports, supp: Supports, gone: set<Cube>, unsupported: set<Cube>)
    requires supportedBy.Keys <= supp.Keys
    requires stripped.Keys == supportedBy.Keys
    requires forall c :: c in stripped ==> stripped[c] == supp[c] - gone
    requires unsupported == set c | c in stripped && stripped[c] == {}
    ensures unsupported == set c | c in supportedBy && supp[c] <= gone
    ensures (stripped - unsupported).Keys == supportedBy.Keys - unsupported
    ensures forall c :: c in stripped - unsupported ==> (stripped - unsupported)[c] == supp[c] - gone
  {
    forall c | c in supportedBy
      ensures c in unsupported <==> supp[c] <= gone
    {
      if supp[c] <= gone {
        assert stripped[c] == {};
      } else {
        var e :| e in supp[c] && e !in gone;
        assert e in stripped[c];
      }
    }
  }

  lemma DropKey(m: Supports, down: set<Cube>, cube: Cube)
    ensures (m - down) - {cube} == m - (down + {cube})
    ensures cube !in m - down ==> m - down == m - (down + {cube})
  {
  }

  /** The bricks resting on a brick that is still in place have not been
      taken out or queued, so the source's `expect` on their
      `supported_by` entry holds. */
  lemma RestingOnKept(cubes: set<Cube>, supportedBy: Supports, isSupporting: Supports, cube: Cube,
                      supp: Supports, top: Cube, down: set<Cube>, queued: set<Cube>)
    requires cube in cubes && cube in isSupporting
    requires Cascade(cubes, supportedBy, isSupporting, supp, top, down, if cube == top then queued else queued + {cube})
    ensures isSupporting[cube] <= supportedBy.Keys
  {
    forall d | d in isSupporting[cube]
      ensures d in supportedBy
    {
      assert d in supp && cube in supp[d];
      assert cube !in down;
    }
  }

  /** After stripping, each brick keeps exactly its original supports that
      are not down. */
  lemma StrippedSupports(supportedBy: Supports, stripped: Supports, isSupporting: Supports, cube: Cube,
                         supp: Supports, down: set<Cube>)
    requires cube !in down
    requires supportedBy.Keys <= supp.Keys
    requires forall c :: c in supportedBy ==> supportedBy[c] == supp[c] - down
    requires isSupporting == Inverse(supp) - down
    requires cube in isSupporting ==> (stripped.Keys == supportedBy.Keys &&
      forall c :: c in supportedBy ==> stripped[c] == if c in isSupporting[cube] then supportedBy[c] - {cube} else supportedBy[c])
    requires cube !in isSupporting ==> stripped == supportedBy
    ensures stripped.Keys == supportedBy.Keys
    ensures forall c :: c in stripped ==> stripped[c] == supp[c] - (down + {cube})
  {
    forall c | c in stripped
      ensures stripped[c] == supp[c] - (down + {cube})
    {
      if cube in supp[c] {
        InInverse(supp, c, cube);
      }
    }
  }

  /** After `Release`, either the bricks found without support can all
      still be taken out and the chain reaction goes on with them queued,
      or one of them is `top` itself, all of whose supports have come down. */
  lemma Released(cubes: set<Cube>, supportedBy: Supports, isSupporting: Supports, cube: Cube,
                 supp: Supports, top: Cube, down: set<Cube>, queued: set<Cube>,
                 cubes': set<Cube>, supportedBy': Supports, isSupporting': Supports, unsupported: set<Cube>)
    requires cube in cubes && cube !in queued
    requires cube == top ==> down == {}
    requires cube != top ==> top in down
    requires Cascade(cubes, supportedBy, isSupporting, supp, top, down, if cube == top then queued else queued + {cube})
    requires cubes' == cubes - {cube}
    requires isSupporting' == Inverse(supp) - (down + {cube})
    requires unsupported == set c | c in supportedBy && supp[c] <= down + {cube}
    requires supportedBy'.Keys == supportedBy.Keys - unsupported
    requires forall c :: c in supportedBy' ==> supportedBy'[c] == supp[c] - (down + {cube})
    ensures AllSupported(supportedBy')
    ensures unsupported <= cubes' ==>
      Cascade(cubes', supportedBy', isSupporting', supp, top, down + {cube}, queued + unsupported) && unsupported !! queued
    ensures !(unsupported <= cubes') ==> supp[top] <= FallSet(supp, top)
  {
    var down1 := down + {cube};
    forall c | c in supportedBy'
      ensures supportedBy'[c] != {}
    {
      var x :| x in supp[c] && x !in down1;
    }
    forall u | u in unsupported
      ensures u in FallSet(supp, top)
    {
      FallSetClosed(supp, top, u);
    }
    forall u | u in unsupported && u !in cubes'
      ensures u == top
    {
    }
  }

  /** `disintegrate`: takes `cube` out, then (recursively) every brick left
      without support, and returns what came down, `cube` included. `ok` is
      false where the source's `assert!(cubes.remove(..))` would fail, that
      is, where a brick found without support has already been taken out:
      this happens only to `top`, once all its supports have come down. The
      source fails there after taking out some of the other unsupported
      bricks; the model stops at once. */
  method Disintegrate(cubes: set<Cube>, supportedBy: Supports, isSupporting: Supports, cube: Cube,
                      ghost supp: Supports, ghost top: Cube, ghost down: set<Cube>, ghost queued: set<Cube>)
    returns (ok: bool, cubes': set<Cube>, supportedBy': Supports, isSupporting': Supports, fallen: set<Cube>,
             ghost down': set<Cube>)
    requires cube in cubes && cube !in queued
    requires cube == top ==> down == {}
    requires cube != top ==> top in down
    requires Cascade(cubes, supportedBy, isSupporting, supp, top, down, if cube == top then queued else queued + {cube})
    ensures cubes' <= cubes
    ensures ok ==> cube in fallen && fallen !! down && down' == down + fallen
    ensures ok ==> Cascade(cubes', supportedBy', isSupporting', supp, top, down', queued)
    ensures ok ==> AllSupported(supportedBy')
    ensures !ok ==> supp[top] <= FallSet(supp, top)
    decreases |cubes|, 1
  {
    var unsupported;
    cubes', supportedBy', isSupporting', unsupported := TakeOut(cubes, supportedBy, isSupporting, cube, supp, top, down, queued);
    if !(unsupported <= cubes') {
      return false, cubes', supportedBy', isSupporting', {}, down;
    }
    ok, cubes', supportedBy', isSupporting', fallen, down' :=
      DisintegrateAll(cubes', supportedBy', isSupporting', unsupported, supp, top, down + {cube}, queued);
    if ok {
      Joined(down, {cube}, fallen, down');
    }
    fallen := fallen + {cube};
  }

  /** Bookkeeping for joining what came down in two steps. */
  lemma Joined(down: set<Cube>, first: set<Cube>, more: set<Cube>, now: set<Cube>)
    requires first !! down && more !! down + first && now == (down + first) + more
    ensures (more + first) !! down && (first + more) !! down && now == down + (more + first) && now == down + (first + more)
    ensures down != {} ==> now != {}
  {
  }

  /** Bookkeeping at the two ends of the loop over the unsupported bricks. */
  lemma Unchanged(down: set<Cube>, queued: set<Cube>, rest: set<Cube>)
    ensures down == down + {} && down <= down
    ensures rest == {} ==> queued + rest == queued
  {
  }

  lemma SubsetTrans(a: set<Cube>, b: set<Cube>, c: set<Cube>)
    requires a <= b && b <= c
    ensures a <= c
  {
  }

  /** `Release` seen from the chain reaction. */
  method TakeOut(cubes: set<Cube>, supportedBy: Supports, isSupporting: Supports, cube: Cube,
                 ghost supp: Supports, ghost top: Cube, ghost down: set<Cube>, ghost queued: set<Cube>)
    returns (cubes': set<Cube>, supportedBy': Supports, isSupporting': Supports, unsupported: set<Cube>)
    requires cube in cubes && cube !in queued
    requires cube == top ==> down == {}
    requires cube != top ==> top in down
    requires Cascade(cubes, supportedBy, isSupporting, supp, top, down, if cube == top then queued else queued + {cube})
    ensures cubes' == cubes - {cube}
    ensures AllSupported(supportedBy')
    ensures unsupported <= cubes' ==>
      Cascade(cubes', supportedBy', isSupporting', supp, top, down + {cube}, queued + unsupported) && unsupported !! queued
    ensures !(unsupported <= cubes') ==> supp[top] <= FallSet(supp, top)
  {
    cubes', supportedBy', isSupporting', unsupported := Release(cubes, supportedBy, isSupporting, cube, supp, top, down, queued);
    Released(cubes, supportedBy, isSupporting, cube, supp, top, down, queued, cubes', supportedBy', isSupporting', unsupported);
  }

  /** The fold over the unsupported bricks: each is disintegrated in turn,
      in whatever order, and the results are joined. */
  method DisintegrateAll(cubes: set<Cube>, supportedBy: Supports, isSupporting: Supports, unsupported: set<Cube>,
                         ghost supp: Supports, ghost top: Cube, ghost down: set<Cube>, ghost queued: set<Cube>)
    returns (ok: bool, cubes': set<Cube>, supportedBy': Supports, isSupporting': Supports, fallen: set<Cube>,
             ghost down': set<Cube>)
    requires unsupported !! queued && down != {}
    requires Cascade(cubes, supportedBy, isSupporting, supp, top, down, queued + unsupported)
    requires AllSupported(supportedBy)
    ensures cubes' <= cubes
    ensures ok ==> fallen !! down && down' == down + fallen
    ensures ok ==> Cascade(cubes', supportedBy', isSupporting', supp, top, down', queued)
    ensures ok ==> AllSupported(supportedBy')
    ensures !ok ==> supp[top] <= FallSet(supp, top)
    decreases |cubes|, 2
  {
    cubes', supportedBy', isSupporting' := cubes, supportedBy, isSupporting;
    fallen, down' := {}, down;
    var rest := unsupported;
    Unchanged(down, queued, rest);
    while rest != {}
      invariant rest !! queued && down' != {}
      invariant fallen !! down && down' == down + fallen
      invariant Cascade(cubes', supportedBy', isSupporting', supp, top, down', queued + rest)
      invariant AllSupported(supportedBy')
      invariant cubes' <= cubes
      decreases |rest|
    {
      var u :| u in rest;
      QueueNext(cubes', supportedBy', isSupporting', supp, top, down', queued, rest, u);
      rest := rest - {u};
      SubsetSize(cubes', cubes);
      var done, c1, sb1, is1, f1, d1 := Disintegrate(cubes', supportedBy', isSupporting', u, supp, top, down', queued + rest);
      if !done {
        return false, c1, sb1, is1, {}, d1;
      }
      Joined(down, fallen, f1, d1);
      SubsetTrans(c1, cubes', cubes);
      cubes', supportedBy', isSupporting', fallen, down' := c1, sb1, is1, fallen + f1, d1;
    }
    Unchanged(down, queued, rest);
    ok := true;
  }

  /** Taking the next queued brick: it is still in place and not `top`. */
  lemma QueueNext(cubes: set<Cube>, supportedBy: Supports, isSupporting: Supports,
                  supp: Supports, top: Cube, down: set<Cube>, queued: set<Cube>, rest: set<Cube>, u: Cube)
    requires u in rest && rest !! queued && down != {}
    requires Cascade(cubes, supportedBy, isSupporting, supp, top, down, queued + rest)
    ensures u in cubes && u != top && top in down && u !in queued + (rest - {u})
    ensures (rest - {u}) !! queued
    ensures Cascade(cubes, supportedBy, isSupporting, supp, top, down, (queued + (rest - {u})) + {u})
  {
    assert (queued + (rest - {u})) + {u} == queued + rest;
  }

  /** The chain reaction starts with nothing down and nothing queued. */
  lemma CascadeStart(cubes: set<Cube>, supp: Supports, isSupporting: Supports, top: Cube)
    requires top in cubes && cubes == supp.Keys && isSupporting == Inverse(supp)
    ensures Cascade(cubes, supp, isSupporting, supp, top, {}, if top == top then {} else {} + {top})
  {
    assert Inverse(supp) - {} == Inverse(supp);
    assert supp.Keys - ({} - {top}) - {} == supp.Keys;
  }

  /** When the chain reaction ends with every remaining brick still
      supported, what came down is exactly `FallSet`, and `top` kept a
      support that did not come down. */
  lemma CascadeDone(cubes: set<Cube>, sb: Supports, isSupporting: Supports,
                    supp: Supports, top: Cube, down: set<Cube>)
    requires Cascade(cubes, sb, isSupporting, supp, top, down, {}) && AllSupported(sb) && top in down
    ensures down == FallSet(supp, top)
    ensures !(supp[top] <= down)
  {
    forall c | c in supp && c !in down
      ensures !(supp[c] <= down)
    {
      assert c in sb;
      var x :| x in sb[c];
    }
    assert Closed(supp, down);
    FallSetLeast(supp, top, down);
    assert top in sb;
    var x :| x in sb[top];
  }

  lemma NothingBefore(fallen: set<Cube>, down: set<Cube>)
    requires down == {} + fallen
    ensures down == fallen
  {
  }

  /** Whether `top` is left standing by its own chain reaction: some brick
      under it does not come down. */
  ghost predicate Stands(supp: Supports, top: Cube)
    requires top in supp
  {
    !(supp[top] <= FallSet(supp, top))
  }

  /** One run of `disintegrate` on fresh copies of the three collections,
      as part 2 does for each brick. It fails exactly when `top` does not
      stand; otherwise it returns exactly the bricks that come down. */
  method Collapse(cubes: set<Cube>, supp: Supports, isSupporting: Supports, top: Cube) returns (ok: bool, fallen: set<Cube>)
    requires top in cubes && cubes == supp.Keys && isSupporting == Inverse(supp)
    ensures ok <==> Stands(supp, top)
    ensures ok ==> fallen == FallSet(supp, top)
  {
    CascadeStart(cubes, supp, isSupporting, top);
    var cubes', supportedBy', isSupporting';
    ghost var down';
    ok, cubes', supportedBy', isSupporting', fallen, down' := Disintegrate(cubes, supp, isSupporting, top, supp, top, {}, {});
    if ok {
      NothingBefore(fallen, down');
      CascadeDone(cubes', supportedBy', isSupporting', supp, top, down');
    }
  }

  /** Every brick rests on bricks strictly lower than itself. */
  ghost predicate Ranked(supp: Supports)
  {
    forall c, s :: c in supp && s in supp[c] ==> s.lower.z < c.lower.z
  }

  /** In a stack where every brick rests on something strictly lower, no
      chain reaction reaches back under the brick that started it, so
      `disintegrate` never fails. */
  lemma RankedStands(supp: Supports, top: Cube)
    requires top in supp && Ranked(supp) && Grounded(supp)
    ensures Stands(supp, top)
  {
    var higher := set c | c in supp.Keys && c.lower.z > top.lower.z;
    var down := higher + {top};
    forall c | c in supp && c !in down
      ensures !(supp[c] <= down)
    {
      var x :| x in supp[c];
      assert x.lower.z < c.lower.z <= top.lower.z;
    }
    assert Closed(supp, down);
    FallSetLeast(supp, top, down);
    var x :| x in supp[top];
    assert x !in down;
  }

  /** The number of other bricks that come down, summed over the bricks
      of `bricks`. */
  ghost function FallCount(supp: Supports, bricks: set<Cube>): nat
  {
    if bricks == {} then 0
    else
      var c :| c in bricks;
      |FallSet(supp, c)| - 1 + FallCount(supp, bricks - {c})
  }

  /** The sum does not depend on the order the bricks are taken in. */
  lemma {:induction false} FallCountTake(supp: Supports, bricks: set<Cube>, y: Cube)
    requires y in bricks
    ensures FallCount(supp, bricks) == |FallSet(supp, y)| - 1 + FallCount(supp, bricks - {y})
    decreases |bricks|
  {
    var c :| c in bricks && FallCount(supp, bricks) == |FallSet(supp, c)| - 1 + FallCount(supp, bricks - {c});
    if c != y {
      FallCountTake(supp, bricks - {c}, y);
      FallCountTake(supp, bricks - {y}, c);
      assert bricks - {c} - {y} == bricks - {y} - {c};
    }
  }

  lemma Counted(all: set<Cube>, todo: set<Cube>, c: Cube)
    requires c in todo && todo <= all
    ensures c in (all - todo) + {c}
    ensures ((all - todo) + {c}) - {c} == all - todo
    ensures all - (todo - {c}) == (all - todo) + {c}
  {
  }

  lemma Ends(all: set<Cube>, todo: set<Cube>)
    ensures all - all == {}
    ensures todo == {} ==> all - todo == all
  {
  }

  /** The fold over all bricks of part 2: `None` as soon as one brick does
      not stand, else the number of other bricks that fall, summed. */
  method SumCollapses(supp: Supports, isSupporting: Supports) returns (r: Option<nat>)
    requires isSupporting == Inverse(supp)
    ensures r.Some? <==> forall c :: c in supp ==> Stands(supp, c)
    ensures r.Some? ==> r.value == FallCount(supp, supp.Keys)
  {
    var cubes := supp.Keys;
    var total := 0;
    var todo := cubes;
    Ends(cubes, todo);
    while todo != {}
      invariant todo <= cubes
      invariant forall c :: c in cubes - todo ==> Stands(supp, c)
      invariant total == FallCount(supp, cubes - todo)
      decreases |todo|
    {
      var c :| c in todo;
      var ok, fallen := Collapse(cubes, supp, isSupporting, c);
      if !ok {
        return None;
      }
      Counted(cubes, todo, c);
      FallCountTake(supp, (cubes - todo) + {c}, c);
      total := total + |fallen| - 1;
      todo := todo - {c};
    }
    Ends(cubes, todo);
    return Some(total);
  }

  /** Part 2 on the parsed bricks: for every brick, the number of other
      bricks that come down when it alone is taken out, summed. `None`
      where the source's assertion fails, which happens exactly when some
      brick does not stand. */
  method Part2(falling: seq<Cube>) returns (r: Option<nat>)
    requires Droppable(falling)
    ensures Droppable(DropOrder(falling))
    ensures var supp := Stack(DropOrder(falling));
      r.Some? <==> forall c :: c in supp ==> Stands(supp, c)
    ensures var supp := Stack(DropOrder(falling));
      r.Some? ==> r.value == FallCount(supp, supp.Keys)
  {
    var order := DropOrder(falling);
    DroppableOrder(falling);
    var settled, supports := SettleAll(order);
    var supportedBy := SupportMap(settled, supports);
    assert supportedBy == Stack(order);
    var isSupporting := BuildIsSupporting(supportedBy);
    r := SumCollapses(supportedBy, isSupporting);
  }
}
