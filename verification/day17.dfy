/** Day 17: "Clumsy Crucible". A crucible crosses a square grid of heat-loss
    digits from the top-left to the bottom-right cell. It moves in straight
    jumps, turning ninety degrees after each; entering a cell costs its
    digit. A search state is a cell plus the axis of the next jump, and a
    Dijkstra search over those states (a min-heap fringe in which each
    state appears at most once, and a map of finalised costs) finds the
    least heat loss. Part 1 jumps 1 to 3 cells, part 2 jumps 4 to 10 cells. */
module Day17 {
  import opened Common

  /** The axis of the next jump. */
  datatype Axis = UpDown | LeftRight

  datatype State = State(y: nat, x: nat, next: Axis)

  datatype Dir = North | South | West | East

  /** Heat-loss digits, row by row. */
  type Grid = seq<seq<nat>>

  /** The grid is treated as `|grid|` by `|grid|`: both coordinates are
      bounded by the number of rows, so every row must be at least that
      wide, and the down and right bound checks compute `|grid| - jump`,
      which must not underflow for the longest jump. */
  predicate Fits(grid: Grid, hi: nat)
  {
    |grid| >= hi && forall r :: 0 <= r < |grid| ==> |grid[r]| >= |grid|
  }

  predicate InBounds(grid: Grid, s: State)
  {
    s.y < |grid| && s.x < |grid|
  }

  function Flip(a: Axis): Axis
  {
    match a
    case UpDown => LeftRight
    case LeftRight => UpDown
  }

  /** The two directions of an axis, in the order the search tries them. */
  function Dirs(a: Axis): seq<Dir>
  {
    match a
    case UpDown => [North, South]
    case LeftRight => [West, East]
  }

  /** The bound check before a jump of `j` cells (the source's guards). */
  predicate Lands(grid: Grid, s: State, d: Dir, j: nat)
  {
    match d
    case North => s.y >= j
    case South => s.y < |grid| - j
    case West => s.x >= j
    case East => s.x < |grid| - j
  }

  /** Where a jump of `j` cells lands; the next jump turns. */
  function Moved(s: State, d: Dir, j: nat): State
  {
    match d
    case North => State(if s.y >= j then s.y - j else 0, s.x, Flip(s.next))
    case South => State(s.y + j, s.x, Flip(s.next))
    case West => State(s.y, if s.x >= j then s.x - j else 0, Flip(s.next))
    case East => State(s.y, s.x + j, Flip(s.next))
  }

  /** The heat loss of one cell (zero off the grid). */
  function At(grid: Grid, y: nat, x: nat): nat
  {
    if y < |grid| && x < |grid[y]| then grid[y][x] else 0
  }

  /** The heat lost entering the cells 1 to `j` steps away. */
  function LineCost(grid: Grid, s: State, d: Dir, j: nat): nat
  {
    if j == 0 then 0
    else LineCost(grid, s, d, j - 1) + At(grid, Moved(s, d, j).y, Moved(s, d, j).x)
  }

  function Gap(a: nat, b: nat): nat
  {
    if a < b then b - a else a - b
  }

  /** A single jump of `lo` to `hi` cells along the state's axis, staying
      on the grid. */
  predicate Edge(grid: Grid, lo: nat, hi: nat, u: State, v: State)
  {
    InBounds(grid, u) && InBounds(grid, v) && v.next == Flip(u.next) &&
    match u.next
    case UpDown => v.x == u.x && lo <= Gap(u.y, v.y) <= hi
    case LeftRight => v.y == u.y && lo <= Gap(u.x, v.x) <= hi
  }

  /** The direction from `u` to `v` along `u`'s axis. */
  function Toward(u: State, v: State): Dir
  {
    match u.next
    case UpDown => if v.y < u.y then North else South
    case LeftRight => if v.x < u.x then West else East
  }

  function Length(u: State, v: State): nat
  {
    match u.next
    case UpDown => Gap(u.y, v.y)
    case LeftRight => Gap(u.x, v.x)
  }

  /** The heat lost on the jump from `u` to `v`. */
  function Weight(grid: Grid, u: State, v: State): nat
  {
    LineCost(grid, u, Toward(u, v), Length(u, v))
  }

  /** A jump the search makes is an edge, and costs the cells it enters. */
  lemma MoveIsEdge(grid: Grid, lo: nat, hi: nat, u: State, d: Dir, j: nat)
    requires InBounds(grid, u) && d in Dirs(u.next) && lo <= j <= hi && j >= 1
    requires Lands(grid, u, d, j)
    ensures Edge(grid, lo, hi, u, Moved(u, d, j))
    ensures Weight(grid, u, Moved(u, d, j)) == LineCost(grid, u, d, j)
  {
    var v := Moved(u, d, j);
    match d {
      case North => assert Toward(u, v) == North && Length(u, v) == j;
      case South => assert Toward(u, v) == South && Length(u, v) == j;
      case West => assert Toward(u, v) == West && Length(u, v) == j;
      case East => assert Toward(u, v) == East && Length(u, v) == j;
    }
  }

  /** Every edge is a jump the search makes. */
  lemma EdgeIsMove(grid: Grid, lo: nat, hi: nat, u: State, v: State)
    requires Edge(grid, lo, hi, u, v) && lo >= 1
    ensures Toward(u, v) in Dirs(u.next) && Lands(grid, u, Toward(u, v), Length(u, v))
    ensures lo <= Length(u, v) <= hi && v == Moved(u, Toward(u, v), Length(u, v))
  {
  }

  // ---------------------------------------------------------------------
  // Paths: the reference definition of the least heat loss
  // ---------------------------------------------------------------------

  /** The search starts at the top-left cell, with either axis. */
  predicate IsStart(s: State)
  {
    s.y == 0 && s.x == 0
  }

  /** A sequence of states from a start, each a jump from the one before. */
  ghost predicate IsPath(grid: Grid, lo: nat, hi: nat, p: seq<State>)
  {
    if |p| <= 1 then |p| == 1 && IsStart(p[0]) && InBounds(grid, p[0])
    else IsPath(grid, lo, hi, p[..|p| - 1]) && Edge(grid, lo, hi, p[|p| - 2], p[|p| - 1])
  }

  /** The heat lost along a path. */
  function PathCost(grid: Grid, p: seq<State>): nat
  {
    if |p| <= 1 then 0
    else PathCost(grid, p[..|p| - 1]) + Weight(grid, p[|p| - 2], p[|p| - 1])
  }

  /** Some path to `s` loses `c`. */
  ghost predicate Witnessed(grid: Grid, lo: nat, hi: nat, s: State, c: nat)
  {
    exists p :: IsPath(grid, lo, hi, p) && p[|p| - 1] == s && PathCost(grid, p) == c
  }

  /** No path to `s` loses less than `c`. */
  ghost predicate Optimal(grid: Grid, lo: nat, hi: nat, s: State, c: nat)
  {
    forall p :: IsPath(grid, lo, hi, p) && p[|p| - 1] == s ==> PathCost(grid, p) >= c
  }

  ghost predicate Reachable(grid: Grid, lo: nat, hi: nat, s: State)
  {
    exists p :: IsPath(grid, lo, hi, p) && p[|p| - 1] == s
  }

  lemma StartPath(grid: Grid, lo: nat, hi: nat, s: State)
    requires IsStart(s) && InBounds(grid, s)
    ensures Witnessed(grid, lo, hi, s, 0)
  {
    assert IsPath(grid, lo, hi, [s]) && PathCost(grid, [s]) == 0;
  }

  /** A path followed by one more jump is a path, losing that jump's
      heat on top. */
  lemma ExtendPath(grid: Grid, lo: nat, hi: nat, p: seq<State>, v: State)
    requires IsPath(grid, lo, hi, p) && Edge(grid, lo, hi, p[|p| - 1], v)
    ensures IsPath(grid, lo, hi, p + [v])
    ensures PathCost(grid, p + [v]) == PathCost(grid, p) + Weight(grid, p[|p| - 1], v)
  {
    var q := p + [v];
    assert q[..|q| - 1] == p;
  }

  lemma ExtendWitness(grid: Grid, lo: nat, hi: nat, u: State, c: nat, v: State)
    requires Witnessed(grid, lo, hi, u, c) && Edge(grid, lo, hi, u, v)
    ensures Witnessed(grid, lo, hi, v, c + Weight(grid, u, v))
  {
    var p :| IsPath(grid, lo, hi, p) && p[|p| - 1] == u && PathCost(grid, p) == c;
    ExtendPath(grid, lo, hi, p, v);
    assert (p + [v])[|p + [v]| - 1] == v;
  }

  /** Dropping the last jump of a path leaves a path. */
  lemma PathPrefix(grid: Grid, lo: nat, hi: nat, p: seq<State>)
    requires IsPath(grid, lo, hi, p) && |p| >= 2
    ensures IsPath(grid, lo, hi, p[..|p| - 1])
    ensures Edge(grid, lo, hi, p[|p| - 2], p[|p| - 1])
  {
  }

  // ---------------------------------------------------------------------
  // The fringe: a min-heap of (cost, state) with each state at most once
  // ---------------------------------------------------------------------

  type Entry = (nat, State)

  /** No state appears twice. */
  predicate Distinct(f: seq<Entry>)
  {
    forall i, j :: 0 <= i < j < |f| ==> f[i].1 != f[j].1
  }

  /** The fringe read as a map from state to cost. */
  function AsMap(f: seq<Entry>): map<State, nat>
  {
    if f == [] then map[]
    else AsMap(f[..|f| - 1])[f[|f| - 1].1 := f[|f| - 1].0]
  }

  /** Every state of the map has an entry. */
  lemma {:induction false} IndexOf(f: seq<Entry>, s: State) returns (i: nat)
    requires s in AsMap(f)
    ensures i < |f| && f[i].1 == s
  {
    if f[|f| - 1].1 == s {
      i := |f| - 1;
    } else {
      i := IndexOf(f[..|f| - 1], s);
    }
  }

  /** A state without an entry is not in the map. */
  lemma {:induction false} NotInAsMap(f: seq<Entry>, s: State)
    requires forall i :: 0 <= i < |f| ==> f[i].1 != s
    ensures s !in AsMap(f)
  {
    if f != [] {
      NotInAsMap(f[..|f| - 1], s);
    }
  }

  /** The last entry's state is not among the earlier ones. */
  lemma LastIsNew(f: seq<Entry>)
    requires Distinct(f) && f != []
    ensures f[|f| - 1].1 !in AsMap(f[..|f| - 1])
  {
    NotInAsMap(f[..|f| - 1], f[|f| - 1].1);
  }

  lemma {:induction false} AsMapAt(f: seq<Entry>, i: nat)
    requires Distinct(f) && i < |f|
    ensures f[i].1 in AsMap(f) && AsMap(f)[f[i].1] == f[i].0
  {
    if i < |f| - 1 {
      AsMapAt(f[..|f| - 1], i);
    }
  }

  /** Lowering `v`'s cost to at most `c`, or adding `v` at cost `c`. */
  function Relax(m: map<State, nat>, v: State, c: nat): map<State, nat>
  {
    if v in m then m[v := Min(m[v], c)] else m[v := c]
  }

  function Min(a: nat, b: nat): nat
  {
    if a <= b then a else b
  }

  /** The source's rebuilt heap: the entry for `v`, if any, gets the smaller
      of its cost and `c`. */
  function Lowered(f: seq<Entry>, v: State, c: nat): (g: seq<Entry>)
    ensures |g| == |f|
    ensures forall i :: 0 <= i < |f| ==> g[i].1 == f[i].1
  {
    seq(|f|, i requires 0 <= i < |f| => if f[i].1 == v then (Min(f[i].0, c), v) else f[i])
  }

  lemma {:induction false} AsMapLowered(f: seq<Entry>, v: State, c: nat)
    requires Distinct(f) && v in AsMap(f)
    ensures Distinct(Lowered(f, v, c))
    ensures AsMap(Lowered(f, v, c)) == Relax(AsMap(f), v, c)
  {
    var g := Lowered(f, v, c);
    if f != [] {
      var init := f[..|f| - 1];
      var e := f[|f| - 1];
      assert g[..|g| - 1] == Lowered(init, v, c);
      if e.1 == v {
        LastIsNew(f);
        LoweredMissing(init, v, c);
        assert AsMap(g) == AsMap(init)[v := Min(e.0, c)];
      } else {
        AsMapLowered(init, v, c);
        assert AsMap(g) == Relax(AsMap(init), v, c)[e.1 := e.0];
      }
    }
  }

  lemma LoweredMissing(f: seq<Entry>, v: State, c: nat)
    requires v !in AsMap(f)
    ensures Lowered(f, v, c) == f
  {
  }

  /** Taking out one entry keeps the states distinct and removes exactly
      that entry's state. */
  lemma {:induction false} AsMapRemove(f: seq<Entry>, i: nat)
    requires Distinct(f) && i < |f|
    ensures Distinct(f[..i] + f[i + 1..])
    ensures AsMap(f[..i] + f[i + 1..]) == AsMap(f) - {f[i].1}
  {
    var r := f[..i] + f[i + 1..];
    var init := f[..|f| - 1];
    if i == |f| - 1 {
      assert r == init;
      LastIsNew(f);
    } else {
      AsMapRemove(init, i);
      assert r == (init[..i] + init[i + 1..]) + [f[|f| - 1]];
      assert r[..|r| - 1] == init[..i] + init[i + 1..];
    }
  }

  // ---------------------------------------------------------------------
  // What the search keeps true
  // ---------------------------------------------------------------------

  /** Light from `u` to `v` has been taken into account: `v` is final, or
      waits in the fringe at no more than going through `u`. */
  ghost predicate RelaxedFrom(grid: Grid, V: map<State, nat>, F: map<State, nat>, u: State, v: State)
    requires u in V
  {
    v in V || (v in F && F[v] <= V[u] + Weight(grid, u, v))
  }

  /** Every jump from a final state other than `skip` has been relaxed. */
  ghost predicate FrontierExcept(grid: Grid, lo: nat, hi: nat, V: map<State, nat>, F: map<State, nat>, skip: Option<State>)
  {
    forall w, v :: w in V && Some(w) != skip && Edge(grid, lo, hi, w, v) ==> RelaxedFrom(grid, V, F, w, v)
  }

  /** The search's invariant, but for the jumps of `skip`:
      - final and waiting states are apart;
      - a final cost is the least cost of any path to its state;
      - a waiting cost is the cost of some path to its state;
      - the jumps from final states have been relaxed;
      - both start states are final or wait at cost 0. */
  ghost predicate InvExcept(grid: Grid, lo: nat, hi: nat, V: map<State, nat>, F: map<State, nat>, skip: Option<State>)
  {
    (forall s :: s in F ==> s !in V) &&
    (forall s :: s in V ==> InBounds(grid, s) && Witnessed(grid, lo, hi, s, V[s]) && Optimal(grid, lo, hi, s, V[s])) &&
    (forall s :: s in F ==> InBounds(grid, s) && Witnessed(grid, lo, hi, s, F[s])) &&
    FrontierExcept(grid, lo, hi, V, F, skip) &&
    (forall s :: IsStart(s) && InBounds(grid, s) ==> s in V || (s in F && F[s] == 0))
  }

  ghost predicate Inv(grid: Grid, lo: nat, hi: nat, V: map<State, nat>, F: map<State, nat>)
  {
    InvExcept(grid, lo, hi, V, F, None)
  }

  /** A cost some path achieves is no less than a least cost. */
  lemma OptimalBelow(grid: Grid, lo: nat, hi: nat, s: State, a: nat, b: nat)
    requires Optimal(grid, lo, hi, s, a) && Witnessed(grid, lo, hi, s, b)
    ensures a <= b
  {
    var p :| IsPath(grid, lo, hi, p) && p[|p| - 1] == s && PathCost(grid, p) == b;
  }

  /** Any path to a state that is not final passes a waiting state whose
      cost is at most the path's. */
  lemma {:induction false} FrontierBound(grid: Grid, lo: nat, hi: nat, V: map<State, nat>, F: map<State, nat>, p: seq<State>)
    returns (s: State)
    requires forall s :: s in V ==> Optimal(grid, lo, hi, s, V[s])
    requires FrontierExcept(grid, lo, hi, V, F, None)
    requires forall s :: IsStart(s) && InBounds(grid, s) ==> s in V || (s in F && F[s] == 0)
    requires IsPath(grid, lo, hi, p) && p[|p| - 1] !in V
    ensures s in F && F[s] <= PathCost(grid, p)
  {
    if |p| == 1 {
      s := p[0];
    } else {
      var q := p[..|p| - 1];
      PathPrefix(grid, lo, hi, p);
      var w := p[|p| - 2];
      assert q[|q| - 1] == w;
      if w in V {
        assert Optimal(grid, lo, hi, w, V[w]);
        assert RelaxedFrom(grid, V, F, w, p[|p| - 1]);
        s := p[|p| - 1];
      } else {
        s := FrontierBound(grid, lo, hi, V, F, q);
      }
    }
  }

  /** The cheapest waiting state's cost is the least cost of reaching it
      (the heart of Dijkstra's algorithm). */
  lemma PopOptimal(grid: Grid, lo: nat, hi: nat, V: map<State, nat>, F: map<State, nat>, u: State)
    requires Inv(grid, lo, hi, V, F) && u in F
    requires forall s :: s in F ==> F[u] <= F[s]
    ensures Optimal(grid, lo, hi, u, F[u])
  {
    forall p | IsPath(grid, lo, hi, p) && p[|p| - 1] == u
      ensures PathCost(grid, p) >= F[u]
    {
      var s := FrontierBound(grid, lo, hi, V, F, p);
    }
  }

  /** Popping the cheapest waiting state and making it final keeps the
      invariant, but for that state's own jumps. */
  lemma PopStep(grid: Grid, lo: nat, hi: nat, V: map<State, nat>, F: map<State, nat>, u: State)
    requires Inv(grid, lo, hi, V, F) && u in F
    requires forall s :: s in F ==> F[u] <= F[s]
    ensures InvExcept(grid, lo, hi, V[u := F[u]], F - {u}, Some(u))
  {
    PopOptimal(grid, lo, hi, V, F, u);
    PopFinal(grid, lo, hi, V, F, u);
    PopFrontier(grid, lo, hi, V, F, u);
  }

  lemma PopFinal(grid: Grid, lo: nat, hi: nat, V: map<State, nat>, F: map<State, nat>, u: State)
    requires Inv(grid, lo, hi, V, F) && u in F && Optimal(grid, lo, hi, u, F[u])
    ensures forall s :: s in V[u := F[u]] ==>
      InBounds(grid, s) && Witnessed(grid, lo, hi, s, V[u := F[u]][s]) && Optimal(grid, lo, hi, s, V[u := F[u]][s])
  {
  }

  lemma PopFrontier(grid: Grid, lo: nat, hi: nat, V: map<State, nat>, F: map<State, nat>, u: State)
    requires Inv(grid, lo, hi, V, F) && u in F
    ensures FrontierExcept(grid, lo, hi, V[u := F[u]], F - {u}, Some(u))
  {
    var V' := V[u := F[u]];
    var F' := F - {u};
    forall w, v | w in V' && Some(w) != Some(u) && Edge(grid, lo, hi, w, v)
      ensures RelaxedFrom(grid, V', F', w, v)
    {
      assert w in V;
      assert RelaxedFrom(grid, V, F, w, v);
    }
  }

  /** With nothing left waiting, every reachable state is final. */
  lemma {:induction false} PathsEndFinal(grid: Grid, lo: nat, hi: nat, V: map<State, nat>, p: seq<State>)
    requires FrontierExcept(grid, lo, hi, V, map[], None)
    requires forall s :: IsStart(s) && InBounds(grid, s) ==> s in V
    requires IsPath(grid, lo, hi, p)
    ensures p[|p| - 1] in V
  {
    if |p| > 1 {
      PathPrefix(grid, lo, hi, p);
      var q := p[..|p| - 1];
      PathsEndFinal(grid, lo, hi, V, q);
      assert q[|q| - 1] == p[|p| - 2];
      assert RelaxedFrom(grid, V, map[], p[|p| - 2], p[|p| - 1]);
    }
  }

  /** The waiting costs never rise and no state stops waiting. */
  ghost predicate Below(F: map<State, nat>, F': map<State, nat>)
  {
    forall s :: s in F ==> s in F' && F'[s] <= F[s]
  }

  /** Every jump from `u` in direction `d` has been relaxed. */
  ghost predicate RelaxedDir(grid: Grid, lo: nat, hi: nat, V: map<State, nat>, F: map<State, nat>, u: State, d: Dir)
    requires u in V
  {
    forall j {:trigger Lands(grid, u, d, j)} :: lo <= j <= hi && Lands(grid, u, d, j) ==> RelaxedFrom(grid, V, F, u, Moved(u, d, j))
  }

  lemma BelowKeepsRelaxedDir(grid: Grid, lo: nat, hi: nat, V: map<State, nat>, F: map<State, nat>, F': map<State, nat>, u: State, d: Dir)
    requires u in V && Below(F, F') && RelaxedDir(grid, lo, hi, V, F, u, d)
    ensures RelaxedDir(grid, lo, hi, V, F', u, d)
  {
    forall j | lo <= j <= hi && Lands(grid, u, d, j)
      ensures RelaxedFrom(grid, V, F', u, Moved(u, d, j))
    {
      assert RelaxedFrom(grid, V, F, u, Moved(u, d, j));
    }
  }

  /** Lowering or adding a waiting state at the cost of a real path keeps
      the invariant. */
  lemma RelaxKeeps(grid: Grid, lo: nat, hi: nat, V: map<State, nat>, F: map<State, nat>, u: State, v: State, c: nat)
    requires InvExcept(grid, lo, hi, V, F, Some(u))
    requires v !in V && InBounds(grid, v) && Witnessed(grid, lo, hi, v, c)
    ensures InvExcept(grid, lo, hi, V, Relax(F, v, c), Some(u))
    ensures Below(F, Relax(F, v, c)) && v in Relax(F, v, c) && Relax(F, v, c)[v] <= c
  {
    RelaxWaiting(grid, lo, hi, V, F, v, c);
    RelaxFrontier(grid, lo, hi, V, F, u, v, c);
  }

  lemma RelaxWaiting(grid: Grid, lo: nat, hi: nat, V: map<State, nat>, F: map<State, nat>, v: State, c: nat)
    requires forall s :: s in F ==> s !in V && InBounds(grid, s) && Witnessed(grid, lo, hi, s, F[s])
    requires v !in V && InBounds(grid, v) && Witnessed(grid, lo, hi, v, c)
    ensures forall s :: s in Relax(F, v, c) ==> s !in V
    ensures forall s :: s in Relax(F, v, c) ==> InBounds(grid, s) && Witnessed(grid, lo, hi, s, Relax(F, v, c)[s])
  {
  }

  lemma RelaxFrontier(grid: Grid, lo: nat, hi: nat, V: map<State, nat>, F: map<State, nat>, u: State, v: State, c: nat)
    requires FrontierExcept(grid, lo, hi, V, F, Some(u))
    ensures FrontierExcept(grid, lo, hi, V, Relax(F, v, c), Some(u))
    ensures Below(F, Relax(F, v, c))
  {
    var F' := Relax(F, v, c);
    forall w, x | w in V && Some(w) != Some(u) && Edge(grid, lo, hi, w, x)
      ensures RelaxedFrom(grid, V, F', w, x)
    {
      assert RelaxedFrom(grid, V, F, w, x);
    }
  }

  // ---------------------------------------------------------------------
  // The search, step by step
  // ---------------------------------------------------------------------

  function AxisRank(a: Axis): nat
  {
    match a
    case UpDown => 0
    case LeftRight => 1
  }

  /** The heap order: by cost, then row, column and axis (the derived
      ordering of the state). */
  predicate Before(a: Entry, b: Entry)
  {
    a.0 < b.0 ||
    (a.0 == b.0 && (a.1.y < b.1.y ||
    (a.1.y == b.1.y && (a.1.x < b.1.x ||
    (a.1.x == b.1.x && AxisRank(a.1.next) < AxisRank(b.1.next))))))
  }

  /** Distinct entries are always ordered one way or the other, so the
      heap's minimum is unique. */
  lemma BeforeTotal(a: Entry, b: Entry)
    requires a.1 != b.1
    ensures Before(a, b) != Before(b, a)
  {
  }

  /** The heap's `pop`: take out the least entry. */
  method PopMin(fringe: seq<Entry>) returns (entry: Entry, rest: seq<Entry>, ghost i: nat)
    requires |fringe| > 0
    ensures i < |fringe| && entry == fringe[i] && rest == fringe[..i] + fringe[i + 1..]
    ensures forall k :: 0 <= k < |fringe| ==> !Before(fringe[k], entry)
  {
    var least := 0;
    for k := 1 to |fringe|
      invariant least < k
      invariant forall m :: 0 <= m < k ==> !Before(fringe[m], fringe[least])
    {
      if Before(fringe[k], fringe[least]) {
        least := k;
      }
    }
    entry, rest, i := fringe[least], fringe[..least] + fringe[least + 1..], least;
  }

  /** The popped entry is the cheapest waiting state. */
  lemma PopIsCheapest(fringe: seq<Entry>, i: nat)
    requires Distinct(fringe) && i < |fringe|
    requires forall k :: 0 <= k < |fringe| ==> !Before(fringe[k], fringe[i])
    ensures fringe[i].1 in AsMap(fringe) && AsMap(fringe)[fringe[i].1] == fringe[i].0
    ensures forall s :: s in AsMap(fringe) ==> AsMap(fringe)[fringe[i].1] <= AsMap(fringe)[s]
  {
    AsMapAt(fringe, i);
    forall s | s in AsMap(fringe)
      ensures AsMap(fringe)[fringe[i].1] <= AsMap(fringe)[s]
    {
      var k := IndexOf(fringe, s);
      AsMapAt(fringe, k);
    }
  }

  /** The heap rebuilt through `map`: the entry for `v`, if any, gets the
      smaller cost, and `found` records whether there was one. */
  method LowerIn(fringe: seq<Entry>, v: State, c: nat) returns (g: seq<Entry>, found: bool)
    ensures g == Lowered(fringe, v, c)
    ensures found == (v in AsMap(fringe))
  {
    g, found := [], false;
    for i := 0 to |fringe|
      invariant g == Lowered(fringe[..i], v, c)
      invariant found == (v in AsMap(fringe[..i]))
    {
      var e := fringe[i];
      assert fringe[..i + 1][..i] == fringe[..i];
      if e.1 == v {
        found := true;
        g := g + [(Min(e.0, c), e.1)];
      } else {
        g := g + [e];
      }
    }
    assert fringe[..|fringe|] == fringe;
  }

  /** A jump from the final state `u` lands on `v` at cost `cand`: a final
      `v` is never improved on (the source asserts it), otherwise `v`
      waits at the smaller of its old cost and `cand`, or is added. */
  method Offer(grid: Grid, lo: nat, hi: nat, V: map<State, nat>, fringe: seq<Entry>, u: State, v: State, cand: nat)
    returns (fringe': seq<Entry>)
    requires Distinct(fringe) && InvExcept(grid, lo, hi, V, AsMap(fringe), Some(u))
    requires u in V && Edge(grid, lo, hi, u, v) && cand == V[u] + Weight(grid, u, v)
    ensures Distinct(fringe') && InvExcept(grid, lo, hi, V, AsMap(fringe'), Some(u))
    ensures AsMap(fringe') == if v in V then AsMap(fringe) else Relax(AsMap(fringe), v, cand)
    ensures Below(AsMap(fringe), AsMap(fringe')) && RelaxedFrom(grid, V, AsMap(fringe'), u, v)
  {
    ExtendWitness(grid, lo, hi, u, V[u], v);
    if v in V {
      OptimalBelow(grid, lo, hi, v, V[v], cand);
      assert V[v] <= cand;
      fringe' := fringe;
    } else {
      RelaxKeeps(grid, lo, hi, V, AsMap(fringe), u, v, cand);
      var lowered, found := LowerIn(fringe, v, cand);
      if found {
        AsMapLowered(fringe, v, cand);
        fringe' := lowered;
      } else {
        LoweredMissing(fringe, v, cand);
        forall k | 0 <= k < |fringe|
          ensures fringe[k].1 != v
        {
          AsMapAt(fringe, k);
        }
        fringe' := fringe + [(cand, v)];
        assert fringe'[..|fringe'| - 1] == fringe;
      }
    }
  }

  /** One direction's jumps from the popped state (one `for jump` loop of
      the source): every jump pays for each cell it enters, and those of at
      least `lo` cells are offered. */
  method Expand(grid: Grid, lo: nat, hi: nat, V: map<State, nat>, fringe: seq<Entry>, u: State, d: Dir)
    returns (fringe': seq<Entry>)
    requires 1 <= lo <= hi && Fits(grid, hi) && u in V && d in Dirs(u.next)
    requires Distinct(fringe) && InvExcept(grid, lo, hi, V, AsMap(fringe), Some(u))
    ensures Distinct(fringe') && InvExcept(grid, lo, hi, V, AsMap(fringe'), Some(u))
    ensures Below(AsMap(fringe), AsMap(fringe'))
    ensures RelaxedDir(grid, lo, hi, V, AsMap(fringe'), u, d)
  {
    var acc := V[u];
    fringe' := fringe;
    JumpedStart(grid, lo, hi, V, fringe, u, d);
    for jump := 1 to hi + 1
      invariant Jumped(grid, lo, hi, V, fringe, fringe', u, d, jump, acc)
    {
      fringe', acc := Jump(grid, lo, hi, V, fringe, fringe', u, d, jump, acc);
    }
    JumpedDone(grid, lo, hi, V, fringe, fringe', u, d, acc);
  }

  lemma JumpedStart(grid: Grid, lo: nat, hi: nat, V: map<State, nat>, fringe: seq<Entry>, u: State, d: Dir)
    requires 1 <= lo && u in V
    requires Distinct(fringe) && InvExcept(grid, lo, hi, V, AsMap(fringe), Some(u))
    ensures Jumped(grid, lo, hi, V, fringe, fringe, u, d, 1, V[u])
  {
  }

  lemma JumpedDone(grid: Grid, lo: nat, hi: nat, V: map<State, nat>, fringe: seq<Entry>, fringe': seq<Entry>,
                   u: State, d: Dir, acc: nat)
    requires u in V && Jumped(grid, lo, hi, V, fringe, fringe', u, d, hi + 1, acc)
    ensures Distinct(fringe') && InvExcept(grid, lo, hi, V, AsMap(fringe'), Some(u))
    ensures Below(AsMap(fringe), AsMap(fringe'))
    ensures RelaxedDir(grid, lo, hi, V, AsMap(fringe'), u, d)
  {
    RelaxedUpToDone(grid, lo, hi, V, AsMap(fringe'), u, d);
  }

  /** What holds after the jumps shorter than `jump`: the invariant (but
      for `u`), a fringe only lowered since `fringe0`, the cost paid so far,
      and the long enough landings relaxed. */
  ghost predicate Jumped(grid: Grid, lo: nat, hi: nat, V: map<State, nat>, fringe0: seq<Entry>, fringe: seq<Entry>,
                         u: State, d: Dir, jump: nat, acc: nat)
    requires u in V
  {
    Distinct(fringe) && InvExcept(grid, lo, hi, V, AsMap(fringe), Some(u)) &&
    Below(AsMap(fringe0), AsMap(fringe)) &&
    (jump >= 1 && Lands(grid, u, d, jump - 1) ==> acc == V[u] + LineCost(grid, u, d, jump - 1)) &&
    RelaxedUpTo(grid, lo, V, AsMap(fringe), u, d, jump)
  }

  lemma BelowTrans(a: map<State, nat>, b: map<State, nat>, c: map<State, nat>)
    requires Below(a, b) && Below(b, c)
    ensures Below(a, c)
  {
  }

  /** One jump: if it stays on the grid, pay for the cell entered, and
      offer the landing state when the jump is long enough. */
  method Jump(grid: Grid, lo: nat, hi: nat, V: map<State, nat>, fringe0: seq<Entry>, fringe: seq<Entry>,
              u: State, d: Dir, jump: nat, acc: nat)
    returns (fringe': seq<Entry>, acc': nat)
    requires 1 <= lo <= hi && Fits(grid, hi) && u in V && d in Dirs(u.next) && 1 <= jump <= hi
    requires Jumped(grid, lo, hi, V, fringe0, fringe, u, d, jump, acc)
    ensures Jumped(grid, lo, hi, V, fringe0, fringe', u, d, jump + 1, acc')
  {
    fringe', acc' := fringe, acc;
    if Lands(grid, u, d, jump) {
      var t := Moved(u, d, jump);
      LineCostStep(grid, hi, u, d, jump);
      acc' := acc + grid[t.y][t.x];
      if jump >= lo {
        MoveIsEdge(grid, lo, hi, u, d, jump);
        fringe' := Offer(grid, lo, hi, V, fringe, u, t, acc');
        BelowKeepsUpTo(grid, lo, V, AsMap(fringe), AsMap(fringe'), u, d, jump);
        BelowTrans(AsMap(fringe0), AsMap(fringe), AsMap(fringe'));
      }
    }
    RelaxedUpToStep(grid, lo, V, AsMap(fringe'), u, d, jump);
  }

  /** The jumps of `lo` to `jump - 1` cells from `u` in direction `d` have
      been relaxed. */
  ghost predicate RelaxedUpTo(grid: Grid, lo: nat, V: map<State, nat>, F: map<State, nat>, u: State, d: Dir, jump: nat)
    requires u in V
  {
    forall j {:trigger Lands(grid, u, d, j)} :: lo <= j < jump && Lands(grid, u, d, j) ==> RelaxedFrom(grid, V, F, u, Moved(u, d, j))
  }

  lemma RelaxedUpToStep(grid: Grid, lo: nat, V: map<State, nat>, F: map<State, nat>, u: State, d: Dir, jump: nat)
    requires u in V && RelaxedUpTo(grid, lo, V, F, u, d, jump)
    requires lo <= jump && Lands(grid, u, d, jump) ==> RelaxedFrom(grid, V, F, u, Moved(u, d, jump))
    ensures RelaxedUpTo(grid, lo, V, F, u, d, jump + 1)
  {
  }

  lemma RelaxedUpToDone(grid: Grid, lo: nat, hi: nat, V: map<State, nat>, F: map<State, nat>, u: State, d: Dir)
    requires u in V && RelaxedUpTo(grid, lo, V, F, u, d, hi + 1)
    ensures RelaxedDir(grid, lo, hi, V, F, u, d)
  {
  }

  /** A jump that lands follows one that lands, and pays one more cell. */
  lemma LineCostStep(grid: Grid, hi: nat, u: State, d: Dir, j: nat)
    requires Fits(grid, hi) && InBounds(grid, u) && j >= 1 && Lands(grid, u, d, j)
    ensures Lands(grid, u, d, j - 1)
    ensures Moved(u, d, j).y < |grid| && Moved(u, d, j).x < |grid[Moved(u, d, j).y]|
    ensures LineCost(grid, u, d, j) == LineCost(grid, u, d, j - 1) + grid[Moved(u, d, j).y][Moved(u, d, j).x]
  {
  }

  lemma BelowKeepsUpTo(grid: Grid, lo: nat, V: map<State, nat>, F: map<State, nat>, F': map<State, nat>, u: State, d: Dir, jump: nat)
    requires u in V && Below(F, F')
    requires RelaxedUpTo(grid, lo, V, F, u, d, jump)
    ensures RelaxedUpTo(grid, lo, V, F', u, d, jump)
  {
    forall j | lo <= j < jump && Lands(grid, u, d, j)
      ensures RelaxedFrom(grid, V, F', u, Moved(u, d, j))
    {
      assert RelaxedFrom(grid, V, F, u, Moved(u, d, j));
    }
  }

  /** The `match` on the popped state's axis: both directions of it. */
  method ExpandState(grid: Grid, lo: nat, hi: nat, V: map<State, nat>, fringe: seq<Entry>, u: State)
    returns (fringe': seq<Entry>)
    requires 1 <= lo <= hi && Fits(grid, hi) && u in V
    requires Distinct(fringe) && InvExcept(grid, lo, hi, V, AsMap(fringe), Some(u))
    ensures Distinct(fringe') && Inv(grid, lo, hi, V, AsMap(fringe'))
  {
    var dirs := Dirs(u.next);
    var first := Expand(grid, lo, hi, V, fringe, u, dirs[0]);
    fringe' := Expand(grid, lo, hi, V, first, u, dirs[1]);
    BelowKeepsRelaxedDir(grid, lo, hi, V, AsMap(first), AsMap(fringe'), u, dirs[0]);
    AllJumpsRelaxed(grid, lo, hi, V, AsMap(fringe'), u);
  }

  /** Relaxing both directions of `u` relaxes every jump from it. */
  lemma AllJumpsRelaxed(grid: Grid, lo: nat, hi: nat, V: map<State, nat>, F: map<State, nat>, u: State)
    requires lo >= 1 && u in V && InvExcept(grid, lo, hi, V, F, Some(u))
    requires RelaxedDir(grid, lo, hi, V, F, u, Dirs(u.next)[0]) && RelaxedDir(grid, lo, hi, V, F, u, Dirs(u.next)[1])
    ensures Inv(grid, lo, hi, V, F)
  {
    forall w, v | w in V && Some(w) != None && Edge(grid, lo, hi, w, v)
      ensures RelaxedFrom(grid, V, F, w, v)
    {
      if w == u {
        EdgeIsMove(grid, lo, hi, u, v);
        var d := Toward(u, v);
        assert d == Dirs(u.next)[0] || d == Dirs(u.next)[1];
      }
    }
  }

  /** Every state the search can be in. */
  ghost function Universe(grid: Grid): set<State>
  {
    set y: nat, x: nat, a: Axis | y < |grid| && x < |grid| && a in {UpDown, LeftRight} :: State(y, x, a)
  }

  lemma InUniverse(grid: Grid, s: State)
    requires InBounds(grid, s)
    ensures s in Universe(grid)
  {
    assert s.next == UpDown || s.next == LeftRight;
    assert s == State(s.y, s.x, s.next);
  }

  /** Both start states wait at cost 0 and nothing is final. */
  lemma InitialInv(grid: Grid, lo: nat, hi: nat)
    requires |grid| > 0
    ensures Distinct([(0, State(0, 0, LeftRight)), (0, State(0, 0, UpDown))])
    ensures Inv(grid, lo, hi, map[], AsMap([(0, State(0, 0, LeftRight)), (0, State(0, 0, UpDown))]))
  {
    var f: seq<Entry> := [(0, State(0, 0, LeftRight)), (0, State(0, 0, UpDown))];
    StartPath(grid, lo, hi, State(0, 0, LeftRight));
    StartPath(grid, lo, hi, State(0, 0, UpDown));
    assert f[..1][..0] == [];
    assert AsMap(f[..1]) == map[State(0, 0, LeftRight) := 0];
    var F := AsMap(f);
    assert F == map[State(0, 0, LeftRight) := 0][State(0, 0, UpDown) := 0];
    forall s | IsStart(s) && InBounds(grid, s)
      ensures s in F && F[s] == 0
    {
      assert s == State(0, 0, s.next);
      assert s.next == UpDown || s.next == LeftRight;
    }
    forall s | s in F
      ensures InBounds(grid, s) && Witnessed(grid, lo, hi, s, F[s])
    {
    }
  }

  /** The whole search: both start states wait at cost 0; the cheapest
      waiting state is popped, made final and its jumps offered, until
      nothing waits. The final states are exactly the reachable ones, each
      at the least heat loss of any path to it. */
  method Search(grid: Grid, lo: nat, hi: nat) returns (visited: map<State, nat>)
    requires 1 <= lo <= hi && Fits(grid, hi)
    ensures forall s :: s in visited <==> Reachable(grid, lo, hi, s)
    ensures forall s :: s in visited ==> Witnessed(grid, lo, hi, s, visited[s]) && Optimal(grid, lo, hi, s, visited[s])
  {
    visited := map[];
    var fringe: seq<Entry> := [(0, State(0, 0, LeftRight)), (0, State(0, 0, UpDown))];
    InitialInv(grid, lo, hi);
    while fringe != []
      invariant Distinct(fringe) && Inv(grid, lo, hi, visited, AsMap(fringe))
      invariant visited.Keys <= Universe(grid)
      decreases |Universe(grid) - visited.Keys|
    {
      ghost var F := AsMap(fringe);
      var entry, rest, i := PopMin(fringe);
      var (cost, state) := entry;
      PopIsCheapest(fringe, i);
      AsMapRemove(fringe, i);
      PopStep(grid, lo, hi, visited, F, state);
      InUniverse(grid, state);
      visited := visited[state := cost];
      fringe := rest;
      fringe := ExpandState(grid, lo, hi, visited, fringe, state);
    }
    forall s | Reachable(grid, lo, hi, s)
      ensures s in visited
    {
      var p :| IsPath(grid, lo, hi, p) && p[|p| - 1] == s;
      PathsEndFinal(grid, lo, hi, visited, p);
    }
  }

  // ---------------------------------------------------------------------
  // The answer
  // ---------------------------------------------------------------------

  /** Rust orders `None` below every `Some`, so the smaller of two optional
      costs is missing as soon as either one is. */
  function OptionMin(a: Option<nat>, b: Option<nat>): (r: Option<nat>)
    ensures r.Some? <==> a.Some? && b.Some?
    ensures r.Some? ==> r.value <= a.value && r.value <= b.value
    ensures r.Some? ==> r.value == a.value || r.value == b.value
  {
    match (a, b)
    case (Some(x), Some(y)) => Some(if x <= y then x else y)
    case _ => None
  }

  function Lookup(m: map<State, nat>, s: State): (r: Option<nat>)
    ensures r.Some? <==> s in m
    ensures r.Some? ==> r.value == m[s]
  {
    if s in m then Some(m[s]) else None
  }

  /** The bottom-right cell, arriving with either axis next. */
  predicate AtCorner(grid: Grid, s: State)
  {
    s.y == |grid| - 1 && s.x == |grid| - 1
  }

  /** The least heat loss of reaching the bottom-right cell, or `None` where
      the source's final `unwrap` panics: one of the two corner states was
      never reached. */
  method Solve(grid: Grid, lo: nat, hi: nat) returns (r: Option<nat>)
    requires 1 <= lo <= hi && Fits(grid, hi)
    ensures r.Some? <==>
      Reachable(grid, lo, hi, State(|grid| - 1, |grid| - 1, LeftRight)) &&
      Reachable(grid, lo, hi, State(|grid| - 1, |grid| - 1, UpDown))
    ensures r.Some? ==> exists s :: AtCorner(grid, s) && Witnessed(grid, lo, hi, s, r.value)
    ensures r.Some? ==> forall p :: IsPath(grid, lo, hi, p) && AtCorner(grid, p[|p| - 1]) ==> PathCost(grid, p) >= r.value
  {
    var visited := Search(grid, lo, hi);
    var n := |grid|;
    var lr := State(n - 1, n - 1, LeftRight);
    var ud := State(n - 1, n - 1, UpDown);
    r := OptionMin(Lookup(visited, lr), Lookup(visited, ud));
    if r.Some? {
      assert Witnessed(grid, lo, hi, lr, visited[lr]) && Witnessed(grid, lo, hi, ud, visited[ud]);
      forall p | IsPath(grid, lo, hi, p) && AtCorner(grid, p[|p| - 1])
        ensures PathCost(grid, p) >= r.value
      {
        var s := p[|p| - 1];
        assert s == lr || s == ud by {
          assert s.next == UpDown || s.next == LeftRight;
        }
      }
    }
  }

  /** Part 1: the crucible moves one to three cells per turn. */
  method Part1(grid: Grid) returns (r: Option<nat>)
    requires Fits(grid, 3)
    ensures r.Some? <==>
      Reachable(grid, 1, 3, State(|grid| - 1, |grid| - 1, LeftRight)) &&
      Reachable(grid, 1, 3, State(|grid| - 1, |grid| - 1, UpDown))
    ensures r.Some? ==> exists s :: AtCorner(grid, s) && Witnessed(grid, 1, 3, s, r.value)
    ensures r.Some? ==> forall p :: IsPath(grid, 1, 3, p) && AtCorner(grid, p[|p| - 1]) ==> PathCost(grid, p) >= r.value
  {
    r := Solve(grid, 1, 3);
  }

  /** Part 2: the ultra crucible moves four to ten cells per turn, paying for
      every cell it passes. */
  method Part2(grid: Grid) returns (r: Option<nat>)
    requires Fits(grid, 10)
    ensures r.Some? <==>
      Reachable(grid, 4, 10, State(|grid| - 1, |grid| - 1, LeftRight)) &&
      Reachable(grid, 4, 10, State(|grid| - 1, |grid| - 1, UpDown))
    ensures r.Some? ==> exists s :: AtCorner(grid, s) && Witnessed(grid, 4, 10, s, r.value)
    ensures r.Some? ==> forall p :: IsPath(grid, 4, 10, p) && AtCorner(grid, p[|p| - 1]) ==> PathCost(grid, p) >= r.value
  {
    r := Solve(grid, 4, 10);
  }
}
