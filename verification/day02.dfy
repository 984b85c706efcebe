/** Cube games: each game is a list of rounds, each round a handful of red,
    green and blue cubes drawn from a bag. Part 1 keeps the games possible
    with 12 red, 13 green and 14 blue cubes; part 2 multiplies the fewest
    cubes of each colour every game needs. */
module Day02 {
  import opened Common

  datatype Colour = Red | Green | Blue

  /** One parsed "n colour" entry of a round. */
  datatype Cubes = Cubes(count: nat, colour: Colour)

  datatype Round = Round(red: nat, green: nat, blue: nat)

  datatype Game = Game(id: nat, rounds: seq<Round>)

  function Get(r: Round, c: Colour): nat
  {
    match c
    case Red => r.red
    case Green => r.green
    case Blue => r.blue
  }

  /** Total number of cubes of colour `c` named in `cubes`. */
  function ColourTotal(cubes: seq<Cubes>, c: Colour): nat
  {
    if cubes == [] then 0
    else ColourTotal(cubes[..|cubes| - 1], c)
         + (if cubes[|cubes| - 1].colour == c then cubes[|cubes| - 1].count else 0)
  }

  /** Entries naming the same colour accumulate: the total over two runs of
      entries is the sum of their totals. */
  lemma {:induction false} ColourTotalAppend(a: seq<Cubes>, b: seq<Cubes>, c: Colour)
    ensures ColourTotal(a + b, c) == ColourTotal(a, c) + ColourTotal(b, c)
  {
    if b == [] {
      assert a + b == a;
    } else {
      assert (a + b)[..|a + b| - 1] == a + b[..|b| - 1];
      ColourTotalAppend(a, b[..|b| - 1], c);
    }
  }

  /** A colour that no entry names counts 0. */
  lemma {:induction false} ColourTotalAbsent(cubes: seq<Cubes>, c: Colour)
    requires forall i :: 0 <= i < |cubes| ==> cubes[i].colour != c
    ensures ColourTotal(cubes, c) == 0
  {
    if cubes != [] {
      ColourTotalAbsent(cubes[..|cubes| - 1], c);
    }
  }

  /** `parse_round` after the entries are parsed: every colour starts at 0
      and each entry adds its count to its own colour. */
  method TallyRound(cubes: seq<Cubes>) returns (round: Round)
    ensures forall c: Colour :: Get(round, c) == ColourTotal(cubes, c)
  {
    round := Round(0, 0, 0);
    for i := 0 to |cubes|
      invariant forall c: Colour :: Get(round, c) == ColourTotal(cubes[..i], c)
    {
      assert cubes[..i + 1][..i] == cubes[..i];
      match cubes[i].colour
      case Red => round := round.(red := round.red + cubes[i].count);
      case Green => round := round.(green := round.green + cubes[i].count);
      case Blue => round := round.(blue := round.blue + cubes[i].count);
    }
    assert cubes[..|cubes|] == cubes;
  }

  // ---------------------------------------------------------------- part 1

  const Bag := Round(12, 13, 14)

  predicate Fits(r: Round)
  {
    r.red <= Bag.red && r.green <= Bag.green && r.blue <= Bag.blue
  }

  predicate Possible(g: Game)
  {
    forall k :: 0 <= k < |g.rounds| ==> Fits(g.rounds[k])
  }

  /** The `filter_map` of part 1: the ids of the possible games, in order. */
  function PossibleIds(games: seq<Game>): (ids: seq<nat>)
    ensures |ids| <= |games|
    ensures forall g :: g in games && Possible(g) ==> g.id in ids
    ensures forall x :: x in ids ==> exists g :: g in games && Possible(g) && g.id == x
    ensures (forall g :: g in games ==> Possible(g)) ==> |ids| == |games|
  {
    if games == [] then []
    else
      var rest := PossibleIds(games[1..]);
      assert forall g :: g in games[1..] ==> g in games;
      if Possible(games[0]) then [games[0].id] + rest else rest
  }

  /** Part 1: the sum of the ids of the possible games. */
  function Part1(games: seq<Game>): int
  {
    Sum(PossibleIds(games))
  }

  /** A game with a round beyond the bag's contents contributes nothing. */
  lemma {:induction false} ImpossibleGameIgnored(games: seq<Game>, g: Game)
    requires !Possible(g)
    ensures Part1(games + [g]) == Part1(games)
  {
    PossibleIdsAppend(games, [g]);
    SumAppend(PossibleIds(games), PossibleIds([g]));
    assert PossibleIds([g]) == [] by {
      assert [g][1..] == [];
    }
  }

  lemma {:induction false} PossibleIdsAppend(a: seq<Game>, b: seq<Game>)
    ensures PossibleIds(a + b) == PossibleIds(a) + PossibleIds(b)
  {
    if a == [] {
      assert a + b == b;
    } else {
      assert (a + b)[1..] == a[1..] + b;
      PossibleIdsAppend(a[1..], b);
    }
  }

  // ---------------------------------------------------------------- part 2

  function Max(a: nat, b: nat): nat { if a < b then b else a }

  /** Componentwise maximum of the rounds, starting from all zeros. */
  function MaxRound(rounds: seq<Round>): Round
  {
    if rounds == [] then Round(0, 0, 0)
    else
      var m := MaxRound(rounds[..|rounds| - 1]);
      var r := rounds[|rounds| - 1];
      Round(Max(m.red, r.red), Max(m.green, r.green), Max(m.blue, r.blue))
  }

  /** The fewest cubes that make every round possible: no round needs more
      of a colour, and each colour's count is 0 or some round's count. */
  lemma {:induction false} MaxRoundIsLeastBound(rounds: seq<Round>, c: Colour)
    ensures forall k :: 0 <= k < |rounds| ==> Get(rounds[k], c) <= Get(MaxRound(rounds), c)
    ensures Get(MaxRound(rounds), c) == 0
            || exists k :: 0 <= k < |rounds| && Get(rounds[k], c) == Get(MaxRound(rounds), c)
  {
    if rounds != [] {
      var init := rounds[..|rounds| - 1];
      MaxRoundIsLeastBound(init, c);
      assert forall k :: 0 <= k < |init| ==> rounds[k] == init[k];
    }
  }

  /** The `min_required` loop of part 2. */
  method MinRequired(rounds: seq<Round>) returns (m: Round)
    ensures m == MaxRound(rounds)
    ensures forall k, c: Colour :: 0 <= k < |rounds| ==> Get(rounds[k], c) <= Get(m, c)
  {
    m := Round(0, 0, 0);
    for i := 0 to |rounds|
      invariant m == MaxRound(rounds[..i])
    {
      assert rounds[..i + 1][..i] == rounds[..i];
      m := Round(Max(m.red, rounds[i].red), Max(m.green, rounds[i].green), Max(m.blue, rounds[i].blue));
    }
    assert rounds[..|rounds|] == rounds;
    forall c: Colour {
      MaxRoundIsLeastBound(rounds, c);
    }
  }

  function Power(r: Round): nat
  {
    r.red * r.green * r.blue
  }

  /** Part 2: the sum over games of the power of the fewest cubes needed. */
  method Part2(games: seq<Game>) returns (total: nat)
    ensures total == Sum(seq(|games|, i requires 0 <= i < |games| => Power(MaxRound(games[i].rounds)) as int))
  {
    ghost var powers := seq(|games|, i requires 0 <= i < |games| => Power(MaxRound(games[i].rounds)) as int);
    total := 0;
    for i := 0 to |games|
      invariant total == Sum(powers[..i])
    {
      var m := MinRequired(games[i].rounds);
      assert powers[..i + 1][..i] == powers[..i];
      total := total + Power(m);
    }
    assert powers[..|games|] == powers;
  }
}
