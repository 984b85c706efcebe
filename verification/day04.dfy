/** Scratchcards. Each card has an id, a set of winning numbers and a set of
    numbers it shows. Part 1 scores a card 0 with no matches and 2^(m-1) with
    m >= 1 matches; part 2 lets each card win copies of the next cards and
    counts all cards held. */
module Day04 {
  import opened Common

  datatype Card = Card(id: nat, winning: set<nat>, given: set<nat>)

  /** `HashSet::from_iter` over a parsed list of numbers. */
  function ToSet(xs: seq<nat>): (s: set<nat>)
    ensures forall x :: x in s <==> x in xs
  {
    set x | x in xs
  }

  /** A repeated number in the input list does not change the set. */
  lemma DuplicateIgnored(xs: seq<nat>, x: nat)
    requires x in xs
    ensures ToSet(xs + [x]) == ToSet(xs)
  {
    assert forall y :: y in xs + [x] <==> y in xs;
  }

  /** Number of given numbers that are also winning numbers. */
  function Matches(card: Card): (m: nat)
    ensures m <= |card.winning| && m <= |card.given|
  {
    IntersectionBound(card.winning, card.given);
    |card.winning * card.given|
  }

  lemma IntersectionBound(a: set<nat>, b: set<nat>)
    ensures |a * b| <= |a| && |a * b| <= |b|
  {
    SubsetSize(a * b, a);
    SubsetSize(a * b, b);
  }

  lemma {:induction false} SubsetSize(a: set<nat>, b: set<nat>)
    requires a <= b
    ensures |a| <= |b|
    decreases |a|
  {
    if a != {} {
      var x :| x in a;
      SubsetSize(a - {x}, b - {x});
    }
  }

  function Pow2(e: nat): (p: nat)
    ensures p >= 1
  {
    if e == 0 then 1 else 2 * Pow2(e - 1)
  }

  /** Card score: 0 without matches, else 2^(m-1). */
  function Score(m: nat): nat
  {
    if m == 0 then 0 else Pow2(m - 1)
  }

  /** The first match scores one point and every further match doubles it. */
  lemma ScoreDoubles(m: nat)
    ensures Score(0) == 0 && Score(1) == 1
    ensures m >= 1 ==> Score(m + 1) == 2 * Score(m)
    ensures Score(m) >= 1 <==> m >= 1
  {
  }

  /** A card's score is below 2^m. */
  lemma {:induction false} ScoreBelowPow2(m: nat)
    ensures Score(m) < Pow2(m)
  {
    if m > 0 {
      ScoreBelowPow2(m - 1);
    }
  }

  /** Part 1: the sum of the card scores; it is zero exactly when no card
      has a match. */
  function Part1(cards: seq<Card>): (total: int)
    ensures total >= 0
    ensures total == 0 <==> forall k :: 0 <= k < |cards| ==> Matches(cards[k]) == 0
  {
    var scores := seq(|cards|, k requires 0 <= k < |cards| => Score(Matches(cards[k])));
    assert forall k :: 0 <= k < |cards| ==> scores[k] == Score(Matches(cards[k]));
    SumZero(scores);
    Sum(scores)
  }

  // ---------------------------------------------------------------- part 2

  /** Every card with matches wins copies of cards that exist: the indexing
      `games[card_id]` never goes past the end. */
  predicate Fits(cards: seq<Card>)
  {
    forall i :: 0 <= i < |cards| ==> Matches(cards[i]) == 0 || cards[i].id + Matches(cards[i]) <= |cards|
  }

  /** Card `q` wins a copy of the card at index `k`. */
  predicate Covers(cards: seq<Card>, q: nat, k: nat)
    requires q < |cards|
  {
    cards[q].id <= k < cards[q].id + Matches(cards[q])
  }

  /** Cards are numbered 1, 2, 3, ... in order, as in the puzzle input. */
  predicate WellNumbered(cards: seq<Card>)
  {
    forall i :: 0 <= i < |cards| ==> cards[i].id == i + 1
  }

  /** With ids 1, 2, 3, ..., a card only wins copies of later cards. */
  lemma CoversOnlyLater(cards: seq<Card>, q: nat, k: nat)
    requires WellNumbered(cards) && q < |cards| && Covers(cards, q, k)
    ensures q < k
  {
  }

  /** Reference count of copies of card `k`: the original plus one copy for
      each copy of every earlier card that covers it. */
  function Copies(cards: seq<Card>, k: nat): (c: nat)
    requires k < |cards|
    ensures c >= 1
    decreases k, 1
  {
    1 + Inflow(cards, k, k)
  }

  /** Copies of card `k` won by the cards before index `p`. */
  function Inflow(cards: seq<Card>, k: nat, p: nat): nat
    requires p <= k < |cards|
    decreases p, 0
  {
    if p == 0 then 0
    else Inflow(cards, k, p - 1) + (if Covers(cards, p - 1, k) then Copies(cards, p - 1) else 0)
  }

  /** Total number of copies of the cards before index `k`. */
  function TotalCopies(cards: seq<Card>, k: nat): (t: nat)
    requires k <= |cards|
    ensures t >= k
  {
    if k == 0 then 0 else TotalCopies(cards, k - 1) + Copies(cards, k - 1)
  }

  /** Adds `num` copies to the cards of `[from, to)`, failing on the first
      index past the end of the list. */
  method AddCopies(counts: seq<nat>, from: nat, m: nat, num: nat) returns (r: Option<seq<nat>>)
    ensures r.Some? <==> m == 0 || from + m <= |counts|
    ensures r.Some? ==> |r.value| == |counts|
    ensures r.Some? ==> forall k :: 0 <= k < |counts| ==>
                          r.value[k] == counts[k] + (if from <= k < from + m then num else 0)
  {
    var cs := counts;
    for c := from to from + m
      invariant |cs| == |counts| && (from < c ==> c <= |counts|)
      invariant forall k :: 0 <= k < |counts| ==> cs[k] == counts[k] + (if from <= k < c then num else 0)
    {
      if c >= |cs| {
        return None;
      }
      cs := cs[c := cs[c] + num];
    }
    return Some(cs);
  }

  /** Part 2: every card starts with one copy; card i adds its copy count to
      the cards of ids `id .. id + m`, then its count is added to the total.
      The total is the number of cards held at the end. */
  method Part2(cards: seq<Card>) returns (r: Option<nat>)
    ensures r.Some? <==> Fits(cards)
    ensures r.Some? ==> r.value >= |cards|
    ensures r.Some? && WellNumbered(cards) ==> r.value == TotalCopies(cards, |cards|)
  {
    var n := |cards|;
    var counts := seq(n, _ => 1);
    var sum := 0;
    for i := 0 to n
      invariant |counts| == n
      invariant forall k :: 0 <= k < n ==> counts[k] >= 1
      invariant sum >= i
      invariant forall q :: 0 <= q < i ==> Matches(cards[q]) == 0 || cards[q].id + Matches(cards[q]) <= n
      invariant WellNumbered(cards) ==> sum == TotalCopies(cards, i)
      invariant WellNumbered(cards) ==> forall k :: i <= k < n ==> counts[k] == 1 + Inflow(cards, k, i)
    {
      var num := counts[i];
      var m := Matches(cards[i]);
      var next := AddCopies(counts, cards[i].id, m, num);
      if next.None? {
        return None;
      }
      if WellNumbered(cards) {
        assert num == Copies(cards, i);
        forall k | i + 1 <= k < n
          ensures next.value[k] == 1 + Inflow(cards, k, i + 1)
        {
          assert Covers(cards, i, k) <==> cards[i].id <= k < cards[i].id + m;
        }
      }
      counts := next.value;
      sum := sum + num;
    }
    return Some(sum);
  }
}
