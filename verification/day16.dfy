/** Day 16: "The Floor Will Be Lava". A beam of light enters a grid of
    mirrors and splitters and bounces around; every cell it passes through
    is energised. Each cell records the directions in which light leaves
    it; cells that gain a direction become the heads of the next round,
    until no head is left. */
module Day16 {
  import opened Common

  datatype Mirror = Empty | RisingMirror | FallingMirror | VerticalSplitter | HorizontalSplitter

  datatype Dir = Up | Down | Right | Left

  /** The directions in which light leaves one cell. */
  datatype Beam = Beam(up: bool, down: bool, right: bool, left: bool)

  type Grid = seq<seq<Mirror>>
  type Beams = seq<seq<Beam>>
  type Cell = (nat, nat)

  const NoBeam := Beam(false, false, false, false)

  function Has(b: Beam, d: Dir): bool
  {
    match d
    case Up => b.up
    case Down => b.down
    case Right => b.right
    case Left => b.left
  }

  /** `b` with every direction of `ds` set as well. */
  function With(b: Beam, ds: set<Dir>): (r: Beam)
    ensures forall e :: Has(r, e) == (Has(b, e) || e in ds)
  {
    Beam(b.up || Up in ds, b.down || Down in ds, b.right || Right in ds, b.left || Left in ds)
  }

  predicate Covers(b: Beam, ds: set<Dir>)
  {
    forall e :: e in ds ==> Has(b, e)
  }

  predicate Energised(b: Beam)
  {
    b.up || b.down || b.right || b.left
  }

  function Opposite(d: Dir): Dir
  {
    match d
    case Up => Down
    case Down => Up
    case Right => Left
    case Left => Right
  }

  /** Where light entering a cell while moving in direction `d` leaves it. */
  function Out(m: Mirror, d: Dir): (ds: set<Dir>)
    ensures ds != {}
  {
    match m
    case Empty => {d}
    case RisingMirror =>
      (match d case Right => {Up} case Left => {Down} case Up => {Right} case Down => {Left})
    case FallingMirror =>
      (match d case Right => {Down} case Left => {Up} case Up => {Left} case Down => {Right})
    case VerticalSplitter =>
      (match d case Right => {Up, Down} case Left => {Up, Down} case Up => {Up} case Down => {Down})
    case HorizontalSplitter =>
      (match d case Right => {Right} case Left => {Left} case Up => {Right, Left} case Down => {Right, Left})
  }

  /** Mirrors and empty cells send light on exactly one way, and the way
      back: light sent back along the outgoing direction comes out where the
      original light came from. */
  lemma MirrorsReversible(m: Mirror, d: Dir, e: Dir)
    requires m == Empty || m == RisingMirror || m == FallingMirror
    requires e in Out(m, d)
    ensures Out(m, d) == {e} && Out(m, Opposite(e)) == {Opposite(d)}
  {
  }

  /** A splitter passes light hitting its pointed end straight through,
      and splits light hitting its flat side into its two ends. */
  lemma Splitters(d: Dir)
    ensures d == Up || d == Down ==> Out(VerticalSplitter, d) == {d} && Out(HorizontalSplitter, d) == {Right, Left}
    ensures d == Right || d == Left ==> Out(HorizontalSplitter, d) == {d} && Out(VerticalSplitter, d) == {Up, Down}
  {
  }

  /** Every row has the width of the first, and there is at least one cell. */
  predicate WellFormed(grid: Grid)
  {
    |grid| > 0 && |grid[0]| > 0 && forall r :: 0 <= r < |grid| ==> |grid[r]| == |grid[0]|
  }

  predicate Shaped(beams: Beams, rows: nat, cols: nat)
  {
    |beams| == rows && forall r :: 0 <= r < rows ==> |beams[r]| == cols
  }

  predicate InGrid(grid: Grid, p: Cell)
    requires WellFormed(grid)
  {
    p.0 < |grid| && p.1 < |grid[0]|
  }

  /** The neighbour in direction `d`, when the move stays on the grid. */
  function Step(grid: Grid, p: Cell, d: Dir): (n: Option<Cell>)
    requires WellFormed(grid) && InGrid(grid, p)
    ensures n.Some? ==> InGrid(grid, n.value) && n.value != p
  {
    match d
    case Right => if p.1 < |grid[0]| - 1 then Some((p.0, p.1 + 1)) else None
    case Left => if p.1 > 0 then Some((p.0, p.1 - 1)) else None
    case Up => if p.0 > 0 then Some((p.0 - 1, p.1)) else None
    case Down => if p.0 < |grid| - 1 then Some((p.0 + 1, p.1)) else None
  }

  function MirrorAt(grid: Grid, p: Cell): Mirror
    requires WellFormed(grid) && InGrid(grid, p)
  {
    grid[p.0][p.1]
  }

  // ---------------------------------------------------------------------
  // Where light goes: the reference definition
  // ---------------------------------------------------------------------

  /** Light leaving `p` in direction `d` leaves `q` in direction `e`
      next. */
  predicate Next(grid: Grid, p: Cell, d: Dir, q: Cell, e: Dir)
    requires WellFormed(grid) && InGrid(grid, p)
  {
    Step(grid, p, d) == Some(q) && e in Out(MirrorAt(grid, q), d)
  }

  /** Light leaves `q` in direction `e` within `k` moves of the start,
      where it leaves `s` in the directions of `sb`. */
  ghost predicate LitWithin(grid: Grid, s: Cell, sb: Beam, k: nat, q: Cell, e: Dir)
    requires WellFormed(grid) && InGrid(grid, q)
  {
    if k == 0 then q == s && Has(sb, e)
    else LitWithin(grid, s, sb, k - 1, q, e) ||
         exists p: Cell, d :: InGrid(grid, p) && LitWithin(grid, s, sb, k - 1, p, d) && Next(grid, p, d, q, e)
  }

  /** Light from the start ever leaves `q` in direction `e`. */
  ghost predicate Reached(grid: Grid, s: Cell, sb: Beam, q: Cell, e: Dir)
    requires WellFormed(grid) && InGrid(grid, q)
  {
    exists k: nat :: LitWithin(grid, s, sb, k, q, e)
  }

  lemma ReachedStart(grid: Grid, s: Cell, sb: Beam, e: Dir)
    requires WellFormed(grid) && InGrid(grid, s) && Has(sb, e)
    ensures Reached(grid, s, sb, s, e)
  {
    assert LitWithin(grid, s, sb, 0, s, e);
  }

  lemma ReachedNext(grid: Grid, s: Cell, sb: Beam, p: Cell, d: Dir, q: Cell, e: Dir)
    requires WellFormed(grid) && InGrid(grid, p) && InGrid(grid, q)
    requires Reached(grid, s, sb, p, d) && Next(grid, p, d, q, e)
    ensures Reached(grid, s, sb, q, e)
  {
    var k: nat :| LitWithin(grid, s, sb, k, p, d);
    assert LitWithin(grid, s, sb, k + 1, q, e);
  }

  /** What the beams light, if every cell is on the grid. */
  predicate IsLit(grid: Grid, beams: Beams, q: Cell, e: Dir)
    requires WellFormed(grid) && Shaped(beams, |grid|, |grid[0]|) && InGrid(grid, q)
  {
    Has(beams[q.0][q.1], e)
  }

  /** The light leaving `p` in direction `d` has been followed one cell on:
      the next cell already sends it on wherever it goes. */
  predicate Followed(grid: Grid, beams: Beams, p: Cell, d: Dir)
    requires WellFormed(grid) && Shaped(beams, |grid|, |grid[0]|) && InGrid(grid, p)
  {
    match Step(grid, p, d)
    case None => true
    case Some(q) => Covers(beams[q.0][q.1], Out(MirrorAt(grid, q), d))
  }

  /** Every lit direction outside the pending cells has been followed. */
  ghost predicate FollowedExcept(grid: Grid, beams: Beams, pending: seq<Cell>)
    requires WellFormed(grid) && Shaped(beams, |grid|, |grid[0]|)
  {
    forall p: Cell, d :: InGrid(grid, p) && IsLit(grid, beams, p, d) && p !in pending ==> Followed(grid, beams, p, d)
  }

  /** Everything the beams light is reached from the start. */
  ghost predicate Sound(grid: Grid, s: Cell, sb: Beam, beams: Beams)
    requires WellFormed(grid) && Shaped(beams, |grid|, |grid[0]|)
  {
    forall q: Cell, e :: InGrid(grid, q) && IsLit(grid, beams, q, e) ==> Reached(grid, s, sb, q, e)
  }

  /** Once every lit direction is followed and the start is lit, all light
      from the start is lit. */
  lemma {:induction false} Complete(grid: Grid, s: Cell, sb: Beam, beams: Beams, k: nat, q: Cell, e: Dir)
    requires WellFormed(grid) && Shaped(beams, |grid|, |grid[0]|) && InGrid(grid, s) && InGrid(grid, q)
    requires FollowedExcept(grid, beams, [])
    requires forall d :: Has(sb, d) ==> Has(beams[s.0][s.1], d)
    requires LitWithin(grid, s, sb, k, q, e)
    ensures IsLit(grid, beams, q, e)
  {
    if k == 0 {
    } else if LitWithin(grid, s, sb, k - 1, q, e) {
      Complete(grid, s, sb, beams, k - 1, q, e);
    } else {
      var p: Cell, d :| InGrid(grid, p) && LitWithin(grid, s, sb, k - 1, p, d) && Next(grid, p, d, q, e);
      Complete(grid, s, sb, beams, k - 1, p, d);
      assert Followed(grid, beams, p, d);
    }
  }

  /** The beams every light path from the start produces. */
  ghost function ReachBeams(grid: Grid, s: Cell, sb: Beam): (beams: Beams)
    requires WellFormed(grid)
    ensures Shaped(beams, |grid|, |grid[0]|)
  {
    seq(|grid|, r requires 0 <= r < |grid| =>
      seq(|grid[0]|, c requires 0 <= c < |grid[0]| =>
        Beam(Reached(grid, s, sb, (r, c), Up), Reached(grid, s, sb, (r, c), Down),
             Reached(grid, s, sb, (r, c), Right), Reached(grid, s, sb, (r, c), Left))))
  }

  /** Beams that light exactly what is reached are `ReachBeams`. */
  lemma ReachBeamsUnique(grid: Grid, s: Cell, sb: Beam, beams: Beams)
    requires WellFormed(grid) && Shaped(beams, |grid|, |grid[0]|)
    requires forall q: Cell, e :: InGrid(grid, q) ==> (IsLit(grid, beams, q, e) <==> Reached(grid, s, sb, q, e))
    ensures beams == ReachBeams(grid, s, sb)
  {
    var rb := ReachBeams(grid, s, sb);
    forall r | 0 <= r < |grid|
      ensures beams[r] == rb[r]
    {
      forall c | 0 <= c < |grid[0]|
        ensures beams[r][c] == rb[r][c]
      {
        var q: Cell := (r, c);
        assert IsLit(grid, beams, q, Up) <==> Reached(grid, s, sb, q, Up);
        assert IsLit(grid, beams, q, Down) <==> Reached(grid, s, sb, q, Down);
        assert IsLit(grid, beams, q, Right) <==> Reached(grid, s, sb, q, Right);
        assert IsLit(grid, beams, q, Left) <==> Reached(grid, s, sb, q, Left);
      }
    }
  }

  // ---------------------------------------------------------------------
  // Following the light: the source's loop
  // ---------------------------------------------------------------------

  const AllDirs: set<Dir> := {Up, Down, Right, Left}

  /** Every direction a cell of the grid can be lit in. */
  ghost function Universe(grid: Grid): set<(Cell, Dir)>
    requires WellFormed(grid)
  {
    set r: nat, c: nat, d | r < |grid| && c < |grid[0]| && d in AllDirs :: ((r, c), d)
  }

  /** What the beams light, as a set. */
  ghost function LitSet(grid: Grid, beams: Beams): (lit: set<(Cell, Dir)>)
    requires WellFormed(grid) && Shaped(beams, |grid|, |grid[0]|)
    ensures lit <= Universe(grid)
  {
    set r: nat, c: nat, d | r < |grid| && c < |grid[0]| && d in AllDirs && Has(beams[r][c], d) :: ((r, c), d)
  }

  /** Lit directions stay lit. */
  ghost predicate Grows(grid: Grid, a: Beams, b: Beams)
    requires WellFormed(grid) && Shaped(a, |grid|, |grid[0]|) && Shaped(b, |grid|, |grid[0]|)
  {
    forall q: Cell, e :: InGrid(grid, q) && IsLit(grid, a, q, e) ==> IsLit(grid, b, q, e)
  }

  lemma GrowsLitSet(grid: Grid, a: Beams, b: Beams)
    requires WellFormed(grid) && Shaped(a, |grid|, |grid[0]|) && Shaped(b, |grid|, |grid[0]|)
    requires Grows(grid, a, b)
    ensures LitSet(grid, a) <= LitSet(grid, b)
  {
    forall x | x in LitSet(grid, a)
      ensures x in LitSet(grid, b)
    {
      assert IsLit(grid, a, x.0, x.1);
    }
  }

  lemma GrowsTrans(grid: Grid, a: Beams, b: Beams, c: Beams)
    requires WellFormed(grid) && Shaped(a, |grid|, |grid[0]|) && Shaped(b, |grid|, |grid[0]|) && Shaped(c, |grid|, |grid[0]|)
    requires Grows(grid, a, b) && Grows(grid, b, c)
    ensures Grows(grid, a, c)
  {
  }

  lemma FollowedGrows(grid: Grid, a: Beams, b: Beams, p: Cell, d: Dir)
    requires WellFormed(grid) && Shaped(a, |grid|, |grid[0]|) && Shaped(b, |grid|, |grid[0]|) && InGrid(grid, p)
    requires Grows(grid, a, b) && Followed(grid, a, p, d)
    ensures Followed(grid, b, p, d)
  {
    match Step(grid, p, d)
    case None =>
    case Some(q) =>
      forall e | e in Out(MirrorAt(grid, q), d)
        ensures Has(b[q.0][q.1], e)
      {
        assert IsLit(grid, a, q, e);
      }
  }

  /** Light the directions `ds` in cell `q`. */
  function Light(beams: Beams, q: Cell, ds: set<Dir>): Beams
    requires q.0 < |beams| && q.1 < |beams[q.0]|
  {
    beams[q.0 := beams[q.0][q.1 := With(beams[q.0][q.1], ds)]]
  }

  /** Lighting new directions in `q`: everything lit stays lit, the set of
      lit directions grows strictly, and every other cell is untouched. */
  lemma LightGrows(grid: Grid, beams: Beams, q: Cell, ds: set<Dir>)
    requires WellFormed(grid) && Shaped(beams, |grid|, |grid[0]|) && InGrid(grid, q)
    requires !Covers(beams[q.0][q.1], ds)
    ensures Shaped(Light(beams, q, ds), |grid|, |grid[0]|)
    ensures Grows(grid, beams, Light(beams, q, ds))
    ensures LitSet(grid, beams) < LitSet(grid, Light(beams, q, ds))
  {
    var after := Light(beams, q, ds);
    GrowsLitSet(grid, beams, after);
    var e :| e in ds && !Has(beams[q.0][q.1], e);
    assert e in AllDirs;
    assert (q, e) in LitSet(grid, after);
    assert (q, e) !in LitSet(grid, beams);
  }

  /** Lighting what light from a reached direction goes on to keeps
      everything lit reached. */
  lemma LightSound(grid: Grid, s: Cell, sb: Beam, beams: Beams, p: Cell, d: Dir, q: Cell)
    requires WellFormed(grid) && Shaped(beams, |grid|, |grid[0]|) && InGrid(grid, p) && InGrid(grid, q)
    requires Sound(grid, s, sb, beams) && IsLit(grid, beams, p, d) && Step(grid, p, d) == Some(q)
    ensures Sound(grid, s, sb, Light(beams, q, Out(MirrorAt(grid, q), d)))
  {
    var outs := Out(MirrorAt(grid, q), d);
    var after := Light(beams, q, outs);
    forall x: Cell, e | InGrid(grid, x) && IsLit(grid, after, x, e)
      ensures Reached(grid, s, sb, x, e)
    {
      if x == q && e in outs {
        ReachedNext(grid, s, sb, p, d, q, e);
      } else {
        assert IsLit(grid, beams, x, e);
      }
    }
  }

  /** One direction of a head (one of the four blocks of the loop body):
      if the cell's light goes that way and stays on the grid, the next cell
      gets the directions its mirror sends that light in; it becomes a new
      head when one of them was not lit yet. */
  method Follow(grid: Grid, ghost s: Cell, ghost sb: Beam, beams: Beams, p: Cell, b: Beam, d: Dir)
    returns (after: Beams, pushes: seq<Cell>)
    requires WellFormed(grid) && Shaped(beams, |grid|, |grid[0]|) && InGrid(grid, p)
    requires b == beams[p.0][p.1] && Sound(grid, s, sb, beams)
    ensures Shaped(after, |grid|, |grid[0]|) && Grows(grid, beams, after) && Sound(grid, s, sb, after)
    ensures Has(b, d) ==> Followed(grid, after, p, d)
    ensures after[p.0][p.1] == b
    ensures |pushes| <= 1 && forall q :: q in pushes ==> InGrid(grid, q)
    ensures forall q: Cell :: InGrid(grid, q) && q !in pushes ==> after[q.0][q.1] == beams[q.0][q.1]
    ensures pushes == [] ==> after == beams
    ensures pushes != [] ==> LitSet(grid, beams) < LitSet(grid, after)
  {
    after, pushes := beams, [];
    if Has(b, d) {
      var next := Step(grid, p, d);
      if next.Some? {
        var q := next.value;
        var outs := Out(MirrorAt(grid, q), d);
        if !Covers(beams[q.0][q.1], outs) {
          LightGrows(grid, beams, q, outs);
          LightSound(grid, s, sb, beams, p, d, q);
          after := Light(beams, q, outs);
          pushes := [q];
        }
      }
    }
  }

  /** Every lit direction of `h` has been followed. */
  ghost predicate HeadFollowed(grid: Grid, beams: Beams, h: Cell)
    requires WellFormed(grid) && Shaped(beams, |grid|, |grid[0]|) && InGrid(grid, h)
  {
    forall d :: IsLit(grid, beams, h, d) ==> Followed(grid, beams, h, d)
  }

  /** The loop body for one head: right, left, up, down, in the source's
      order, all from the head's lights as they were when it was taken. */
  method ProcessHead(grid: Grid, ghost s: Cell, ghost sb: Beam, beams: Beams, h: Cell)
    returns (after: Beams, pushes: seq<Cell>)
    requires WellFormed(grid) && Shaped(beams, |grid|, |grid[0]|) && InGrid(grid, h)
    requires Sound(grid, s, sb, beams)
    ensures Shaped(after, |grid|, |grid[0]|) && Grows(grid, beams, after) && Sound(grid, s, sb, after)
    ensures HeadFollowed(grid, after, h)
    ensures forall q :: q in pushes ==> InGrid(grid, q)
    ensures forall q: Cell :: InGrid(grid, q) && q !in pushes ==> after[q.0][q.1] == beams[q.0][q.1]
    ensures pushes == [] ==> after == beams
    ensures pushes != [] ==> LitSet(grid, beams) < LitSet(grid, after)
  {
    var b := beams[h.0][h.1];
    var a1, p1 := Follow(grid, s, sb, beams, h, b, Right);
    var a2, p2 := Follow(grid, s, sb, a1, h, b, Left);
    var a3, p3 := Follow(grid, s, sb, a2, h, b, Up);
    var a4, p4 := Follow(grid, s, sb, a3, h, b, Down);
    after, pushes := a4, p1 + p2 + p3 + p4;
    ProcessHeadFacts(grid, beams, a1, a2, a3, a4, p1, p2, p3, p4, h, b);
  }

  lemma ProcessHeadFacts(grid: Grid, a0: Beams, a1: Beams, a2: Beams, a3: Beams, a4: Beams,
                         p1: seq<Cell>, p2: seq<Cell>, p3: seq<Cell>, p4: seq<Cell>, h: Cell, b: Beam)
    requires WellFormed(grid) && InGrid(grid, h)
    requires Shaped(a0, |grid|, |grid[0]|) && Shaped(a1, |grid|, |grid[0]|) && Shaped(a2, |grid|, |grid[0]|)
    requires Shaped(a3, |grid|, |grid[0]|) && Shaped(a4, |grid|, |grid[0]|)
    requires b == a0[h.0][h.1] && a1[h.0][h.1] == b && a2[h.0][h.1] == b && a3[h.0][h.1] == b && a4[h.0][h.1] == b
    requires Grows(grid, a0, a1) && Grows(grid, a1, a2) && Grows(grid, a2, a3) && Grows(grid, a3, a4)
    requires Has(b, Right) ==> Followed(grid, a1, h, Right)
    requires Has(b, Left) ==> Followed(grid, a2, h, Left)
    requires Has(b, Up) ==> Followed(grid, a3, h, Up)
    requires Has(b, Down) ==> Followed(grid, a4, h, Down)
    requires forall q: Cell :: InGrid(grid, q) && q !in p1 ==> a1[q.0][q.1] == a0[q.0][q.1]
    requires forall q: Cell :: InGrid(grid, q) && q !in p2 ==> a2[q.0][q.1] == a1[q.0][q.1]
    requires forall q: Cell :: InGrid(grid, q) && q !in p3 ==> a3[q.0][q.1] == a2[q.0][q.1]
    requires forall q: Cell :: InGrid(grid, q) && q !in p4 ==> a4[q.0][q.1] == a3[q.0][q.1]
    requires p1 == [] ==> a1 == a0
    requires p2 == [] ==> a2 == a1
    requires p3 == [] ==> a3 == a2
    requires p4 == [] ==> a4 == a3
    requires p1 != [] ==> LitSet(grid, a0) < LitSet(grid, a1)
    requires p2 != [] ==> LitSet(grid, a1) < LitSet(grid, a2)
    requires p3 != [] ==> LitSet(grid, a2) < LitSet(grid, a3)
    requires p4 != [] ==> LitSet(grid, a3) < LitSet(grid, a4)
    ensures Grows(grid, a0, a4) && HeadFollowed(grid, a4, h)
    ensures forall q: Cell :: InGrid(grid, q) && q !in p1 + p2 + p3 + p4 ==> a4[q.0][q.1] == a0[q.0][q.1]
    ensures p1 + p2 + p3 + p4 == [] ==> a4 == a0
    ensures p1 + p2 + p3 + p4 != [] ==> LitSet(grid, a0) < LitSet(grid, a4)
  {
    GrowsTrans(grid, a0, a1, a2);
    GrowsTrans(grid, a0, a2, a3);
    GrowsTrans(grid, a0, a3, a4);
    GrowsLitSet(grid, a0, a1);
    GrowsLitSet(grid, a1, a2);
    GrowsLitSet(grid, a2, a3);
    GrowsLitSet(grid, a3, a4);
    forall d | IsLit(grid, a4, h, d)
      ensures Followed(grid, a4, h, d)
    {
      match d
      case Right => FollowedGrows(grid, a1, a4, h, d);
      case Left => FollowedGrows(grid, a2, a4, h, d);
      case Up => FollowedGrows(grid, a3, a4, h, d);
      case Down =>
    }
  }

  /** A head's lights all followed, the other cells untouched but for the
      new heads: everything lit is followed but at the remaining heads and
      the new ones. */
  lemma FollowedExceptStep(grid: Grid, b: Beams, a: Beams, h: Cell, rest: seq<Cell>, acc: seq<Cell>, pushes: seq<Cell>)
    requires WellFormed(grid) && Shaped(b, |grid|, |grid[0]|) && Shaped(a, |grid|, |grid[0]|) && InGrid(grid, h)
    requires FollowedExcept(grid, b, [h] + rest + acc)
    requires Grows(grid, b, a) && HeadFollowed(grid, a, h)
    requires forall q: Cell :: InGrid(grid, q) && q !in pushes ==> a[q.0][q.1] == b[q.0][q.1]
    ensures FollowedExcept(grid, a, rest + (acc + pushes))
  {
    forall p: Cell, d | InGrid(grid, p) && IsLit(grid, a, p, d) && p !in rest + (acc + pushes)
      ensures Followed(grid, a, p, d)
    {
      if p != h {
        assert p !in [h] + rest + acc;
        assert IsLit(grid, b, p, d);
        FollowedGrows(grid, b, a, p, d);
      }
    }
  }

  /** One pass over the heads (the `flat_map` of the loop), collecting the
      new heads in order. */
  method Round(grid: Grid, ghost s: Cell, ghost sb: Beam, beams: Beams, heads: seq<Cell>)
    returns (after: Beams, next: seq<Cell>)
    requires WellFormed(grid) && Shaped(beams, |grid|, |grid[0]|)
    requires forall q :: q in heads ==> InGrid(grid, q)
    requires Sound(grid, s, sb, beams) && FollowedExcept(grid, beams, heads)
    ensures Shaped(after, |grid|, |grid[0]|) && Sound(grid, s, sb, after)
    ensures Grows(grid, beams, after) && FollowedExcept(grid, after, next)
    ensures forall q :: q in next ==> InGrid(grid, q)
    ensures next != [] ==> LitSet(grid, beams) < LitSet(grid, after)
  {
    after, next := beams, [];
    for i := 0 to |heads|
      invariant Shaped(after, |grid|, |grid[0]|) && Sound(grid, s, sb, after)
      invariant Grows(grid, beams, after) && FollowedExcept(grid, after, heads[i..] + next)
      invariant forall q :: q in next ==> InGrid(grid, q)
      invariant next != [] ==> LitSet(grid, beams) < LitSet(grid, after)
    {
      var a, pushes := ProcessHead(grid, s, sb, after, heads[i]);
      assert heads[i..] == [heads[i]] + heads[i + 1..];
      FollowedExceptStep(grid, after, a, heads[i], heads[i + 1..], next, pushes);
      GrowsTrans(grid, beams, after, a);
      GrowsLitSet(grid, beams, after);
      GrowsLitSet(grid, after, a);
      after, next := a, next + pushes;
    }
  }

  lemma Shrinks<T>(u: set<T>, a: set<T>, b: set<T>)
    requires a <= b <= u
    ensures |u - b| <= |u - a|
    ensures a < b ==> |u - b| < |u - a|
  {
    assert u - a == (u - b) + (b - a);
    assert (u - b) * (b - a) == {};
    if a < b {
      var x :| x in b && x !in a;
      assert x in b - a;
    }
  }

  /** No beams but `sb` leaving `s`. */
  function Initial(grid: Grid, s: Cell, sb: Beam): (beams: Beams)
    requires WellFormed(grid) && InGrid(grid, s)
    ensures Shaped(beams, |grid|, |grid[0]|)
    ensures forall q: Cell :: InGrid(grid, q) ==> beams[q.0][q.1] == if q == s then sb else NoBeam
  {
    var empty := seq(|grid|, _ => seq(|grid[0]|, _ => NoBeam));
    empty[s.0 := empty[s.0][s.1 := sb]]
  }

  /** The `while` loop: rounds until no head is left. Once it stops every
      lit direction has been followed. */
  method Propagate(grid: Grid, ghost s: Cell, ghost sb: Beam, start: Beams, starts: seq<Cell>)
    returns (beams: Beams)
    requires WellFormed(grid) && Shaped(start, |grid|, |grid[0]|)
    requires forall q :: q in starts ==> InGrid(grid, q)
    requires Sound(grid, s, sb, start) && FollowedExcept(grid, start, starts)
    ensures Shaped(beams, |grid|, |grid[0]|) && Sound(grid, s, sb, beams)
    ensures FollowedExcept(grid, beams, []) && Grows(grid, start, beams)
  {
    beams := start;
    var heads := starts;
    while heads != []
      invariant Shaped(beams, |grid|, |grid[0]|) && Sound(grid, s, sb, beams)
      invariant FollowedExcept(grid, beams, heads) && Grows(grid, start, beams)
      invariant forall q :: q in heads ==> InGrid(grid, q)
      decreases |Universe(grid) - LitSet(grid, beams)|, |heads|
    {
      var after, next := Round(grid, s, sb, beams, heads);
      GrowsTrans(grid, start, beams, after);
      GrowsLitSet(grid, beams, after);
      Shrinks(Universe(grid), LitSet(grid, beams), LitSet(grid, after));
      beams, heads := after, next;
    }
  }

  /** Beams that light only what is reached, with every lit direction
      followed and the start lit, are exactly the reached beams. */
  lemma Settled(grid: Grid, s: Cell, sb: Beam, beams: Beams)
    requires WellFormed(grid) && Shaped(beams, |grid|, |grid[0]|) && InGrid(grid, s)
    requires Sound(grid, s, sb, beams) && FollowedExcept(grid, beams, [])
    requires forall d :: Has(sb, d) ==> Has(beams[s.0][s.1], d)
    ensures beams == ReachBeams(grid, s, sb)
  {
    forall q: Cell, e | InGrid(grid, q)
      ensures IsLit(grid, beams, q, e) <==> Reached(grid, s, sb, q, e)
    {
      if Reached(grid, s, sb, q, e) {
        var k: nat :| LitWithin(grid, s, sb, k, q, e);
        Complete(grid, s, sb, beams, k, q, e);
      }
    }
    ReachBeamsUnique(grid, s, sb, beams);
  }

  /** The whole loop: start with `sb` leaving `s` and `s` as the only head,
      and run rounds until no head is left. What is then lit is exactly
      what light from the start reaches. */
  method Energise(grid: Grid, s: Cell, sb: Beam) returns (beams: Beams)
    requires WellFormed(grid) && InGrid(grid, s)
    ensures beams == ReachBeams(grid, s, sb)
  {
    var start := Initial(grid, s, sb);
    forall q: Cell, e | InGrid(grid, q) && IsLit(grid, start, q, e)
      ensures Reached(grid, s, sb, q, e)
    {
      ReachedStart(grid, s, sb, e);
    }
    beams := Propagate(grid, s, sb, start, [s]);
    forall d | Has(sb, d)
      ensures Has(beams[s.0][s.1], d)
    {
      assert IsLit(grid, start, s, d);
    }
    Settled(grid, s, sb, beams);
  }

  // ---------------------------------------------------------------------
  // Counting energised cells
  // ---------------------------------------------------------------------

  /** The energised cells of one row. */
  function CountRow(row: seq<Beam>): (n: nat)
    ensures n <= |row|
    ensures n == 0 <==> forall c :: 0 <= c < |row| ==> !Energised(row[c])
    ensures n == |row| <==> forall c :: 0 <= c < |row| ==> Energised(row[c])
  {
    if row == [] then 0
    else CountRow(row[..|row| - 1]) + (if Energised(row[|row| - 1]) then 1 else 0)
  }

  /** The energised cells of the whole grid. */
  function CountEnergised(beams: Beams): nat
  {
    if beams == [] then 0
    else CountEnergised(beams[..|beams| - 1]) + CountRow(beams[|beams| - 1])
  }

  /** At most every cell is energised. */
  lemma {:induction false} CountBound(beams: Beams, rows: nat, cols: nat)
    requires Shaped(beams, rows, cols)
    ensures CountEnergised(beams) <= rows * cols
  {
    if beams != [] {
      CountBound(beams[..|beams| - 1], rows - 1, cols);
      MulSucc(rows - 1, cols);
    }
  }

  /** Nothing is energised when no beam is lit. */
  lemma {:induction false} CountDark(beams: Beams)
    requires forall r, c :: 0 <= r < |beams| && 0 <= c < |beams[r]| ==> beams[r][c] == NoBeam
    ensures CountEnergised(beams) == 0
  {
    if beams != [] {
      CountDark(beams[..|beams| - 1]);
    }
  }

  // ---------------------------------------------------------------------
  // Part 1 and part 2
  // ---------------------------------------------------------------------

  /** The directions light entering a cell with mirror `m`, moving in
      direction `d`, leaves it in. */
  function Entering(m: Mirror, d: Dir): (b: Beam)
    ensures Energised(b)
    ensures forall e :: Has(b, e) <==> e in Out(m, d)
  {
    With(NoBeam, Out(m, d))
  }

  /** How many cells light entering at `s` energises. */
  ghost function Score(grid: Grid, s: Cell, d: Dir): nat
    requires WellFormed(grid) && InGrid(grid, s)
  {
    CountEnergised(ReachBeams(grid, s, Entering(MirrorAt(grid, s), d)))
  }

  /** Light enters the top-left cell moving right; count the energised
      cells once it has gone everywhere it can. */
  method Part1(grid: Grid) returns (n: nat)
    requires WellFormed(grid)
    ensures n == Score(grid, (0, 0), Right)
    ensures 1 <= n <= |grid| * |grid[0]|
  {
    var sb := NoBeam;
    match grid[0][0] {
      case Empty => sb := sb.(right := true);
      case RisingMirror => sb := sb.(up := true);
      case FallingMirror => sb := sb.(down := true);
      case VerticalSplitter => sb := sb.(down := true, up := true);
      case HorizontalSplitter => sb := sb.(right := true);
    }
    assert sb == Entering(grid[0][0], Right);
    var beams := Energise(grid, (0, 0), sb);
    n := CountEnergised(beams);
    CountBound(beams, |grid|, |grid[0]|);
    EnergisedStart(grid, (0, 0), Right);
  }

  /** The entry cell is always energised. */
  lemma EnergisedStart(grid: Grid, s: Cell, d: Dir)
    requires WellFormed(grid) && InGrid(grid, s)
    ensures Score(grid, s, d) >= 1
  {
    var sb := Entering(MirrorAt(grid, s), d);
    var beams := ReachBeams(grid, s, sb);
    var e :| e in Out(MirrorAt(grid, s), d);
    ReachedStart(grid, s, sb, e);
    assert Energised(beams[s.0][s.1]);
    CountAtLeastOne(beams, s.0, s.1);
  }

  lemma {:induction false} CountAtLeastOne(beams: Beams, r: nat, c: nat)
    requires r < |beams| && c < |beams[r]| && Energised(beams[r][c])
    ensures CountEnergised(beams) >= 1
  {
    if r < |beams| - 1 {
      CountAtLeastOne(beams[..|beams| - 1], r, c);
    }
  }

  /** Every edge entry, in the source's order: moving left into each row's
      last cell, up into each column's bottom cell, right into each row's
      first cell and down into each column's top cell. */
  function EdgeEntries(grid: Grid): (entries: seq<(Cell, Dir)>)
    requires WellFormed(grid)
    ensures |entries| == 2 * |grid| + 2 * |grid[0]|
  {
    var rows := |grid|;
    var cols := |grid[0]|;
    seq(rows, y => ((y, cols - 1), Left)) + seq(cols, x => ((rows - 1, x), Up)) +
    seq(rows, y => ((y, 0), Right)) + seq(cols, x => ((0, x), Down))
  }

  /** Each edge entry is a cell of the grid, and light reaches it moving in
      its direction from outside the grid. The rightward entry into the top
      row is the one of part 1. */
  lemma EdgeEntriesFromOutside(grid: Grid)
    requires WellFormed(grid)
    ensures forall k :: 0 <= k < |EdgeEntries(grid)| ==>
      InGrid(grid, EdgeEntries(grid)[k].0) &&
      Step(grid, EdgeEntries(grid)[k].0, Opposite(EdgeEntries(grid)[k].1)) == None
    ensures EdgeEntries(grid)[|grid| + |grid[0]|] == ((0, 0), Right)
  {
  }

  /** The beam each edge entry starts with, as the source writes it out
      for each side. */
  function LeftStart(m: Mirror): Beam
  {
    Beam(m == FallingMirror || m == VerticalSplitter, m == RisingMirror || m == VerticalSplitter,
         false, m == Empty || m == HorizontalSplitter)
  }

  function UpStart(m: Mirror): Beam
  {
    Beam(m == Empty || m == VerticalSplitter, false,
         m == RisingMirror || m == HorizontalSplitter, m == FallingMirror || m == HorizontalSplitter)
  }

  function RightStart(m: Mirror): Beam
  {
    Beam(m == RisingMirror || m == VerticalSplitter, m == FallingMirror || m == VerticalSplitter,
         m == Empty || m == HorizontalSplitter, false)
  }

  function DownStart(m: Mirror): Beam
  {
    Beam(false, m == Empty || m == VerticalSplitter,
         m == FallingMirror || m == HorizontalSplitter, m == RisingMirror || m == HorizontalSplitter)
  }

  /** Each side's written-out start beam is the beam of light entering the
      cell from that side. */
  lemma StartsAreEntering(m: Mirror)
    ensures LeftStart(m) == Entering(m, Left)
    ensures UpStart(m) == Entering(m, Up)
    ensures RightStart(m) == Entering(m, Right)
    ensures DownStart(m) == Entering(m, Down)
  {
  }

  /** The start beam of an entry by the side formulas. */
  function StartOf(grid: Grid, entry: (Cell, Dir)): Beam
    requires WellFormed(grid) && InGrid(grid, entry.0)
  {
    var m := MirrorAt(grid, entry.0);
    match entry.1
    case Left => LeftStart(m)
    case Up => UpStart(m)
    case Right => RightStart(m)
    case Down => DownStart(m)
  }

  /** One run of the loop for an edge entry, counted. */
  method EntryScore(grid: Grid, entry: (Cell, Dir)) returns (n: nat)
    requires WellFormed(grid) && InGrid(grid, entry.0)
    ensures n == Score(grid, entry.0, entry.1)
  {
    var sb := StartOf(grid, entry);
    StartsAreEntering(MirrorAt(grid, entry.0));
    assert sb == Entering(MirrorAt(grid, entry.0), entry.1);
    var beams := Energise(grid, entry.0, sb);
    n := CountEnergised(beams);
  }

  /** The count of every entry, in order (the `map` over the entries). */
  method Scores(grid: Grid, entries: seq<(Cell, Dir)>) returns (ns: seq<nat>)
    requires WellFormed(grid) && forall k :: 0 <= k < |entries| ==> InGrid(grid, entries[k].0)
    ensures |ns| == |entries|
    ensures forall k :: 0 <= k < |entries| ==> ns[k] == Score(grid, entries[k].0, entries[k].1)
  {
    ns := [];
    for i := 0 to |entries|
      invariant |ns| == i
      invariant forall k :: 0 <= k < i ==> ns[k] == Score(grid, entries[k].0, entries[k].1)
    {
      var n := EntryScore(grid, entries[i]);
      ns := ns + [n];
    }
  }

  /** The largest of a non-empty sequence (the final `max`). */
  method MaxOf(ns: seq<nat>) returns (best: nat)
    requires |ns| > 0
    ensures forall k :: 0 <= k < |ns| ==> ns[k] <= best
    ensures exists k :: 0 <= k < |ns| && best == ns[k]
  {
    best := ns[0];
    for i := 1 to |ns|
      invariant forall k :: 0 <= k < i ==> ns[k] <= best
      invariant exists k :: 0 <= k < i && best == ns[k]
    {
      if ns[i] > best {
        best := ns[i];
      }
    }
  }

  /** Try every edge entry and keep the largest count. */
  method Part2(grid: Grid) returns (best: nat)
    requires WellFormed(grid)
    ensures forall k :: 0 <= k < |EdgeEntries(grid)| ==>
      Score(grid, EdgeEntries(grid)[k].0, EdgeEntries(grid)[k].1) <= best
    ensures exists k :: (0 <= k < |EdgeEntries(grid)| &&
      best == Score(grid, EdgeEntries(grid)[k].0, EdgeEntries(grid)[k].1))
    ensures best >= Score(grid, (0, 0), Right)
  {
    var entries := EdgeEntries(grid);
    EdgeEntriesFromOutside(grid);
    var ns := Scores(grid, entries);
    best := MaxOf(ns);
    assert ns[|grid| + |grid[0]|] == Score(grid, (0, 0), Right);
  }
}
