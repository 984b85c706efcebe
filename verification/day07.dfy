/** Camel Cards. A hand of five cards is typed by the sizes of its groups of
    equal labels; hands compare by type strength and then card by card.
    Part 2 reads 'J' as a joker, which counts as a singleton group for the
    plain type and then upgrades it. The answer sums rank times bid over the
    hands sorted from weakest to strongest. */
module Day07 {
  import opened Common

  datatype Card = Ace | King | Queen | Jack | Ten | Nine | Eight | Seven | Six | Five | Four | Three | Two | Joker

  /** `impl From<char> for Card`; any other character panics. */
  function CardFromChar(c: char): Option<Card>
  {
    match c
    case 'A' => Some(Ace)
    case 'K' => Some(King)
    case 'Q' => Some(Queen)
    case 'J' => Some(Jack)
    case 'T' => Some(Ten)
    case '9' => Some(Nine)
    case '8' => Some(Eight)
    case '7' => Some(Seven)
    case '6' => Some(Six)
    case '5' => Some(Five)
    case '4' => Some(Four)
    case '3' => Some(Three)
    case '2' => Some(Two)
    case '*' => Some(Joker)
    case _ => None
  }

  /** The character each card is read from. */
  function CardChar(card: Card): char
  {
    match card
    case Ace => 'A'
    case King => 'K'
    case Queen => 'Q'
    case Jack => 'J'
    case Ten => 'T'
    case Nine => '9'
    case Eight => '8'
    case Seven => '7'
    case Six => '6'
    case Five => '5'
    case Four => '4'
    case Three => '3'
    case Two => '2'
    case Joker => '*'
  }

  /** Reading a card back from its character gives the card, and the
      characters that are read at all are exactly the fourteen card
      characters. */
  lemma CardCharRoundTrip(card: Card, c: char)
    ensures CardFromChar(CardChar(card)) == Some(card)
    ensures CardFromChar(c).Some? ==> CardChar(CardFromChar(c).value) == c
  {
  }

  /** `card_value`: Joker 1 up to Ace 14. */
  function CardValue(card: Card): (v: nat)
    ensures 1 <= v <= 14
    ensures v == 1 <==> card == Joker
    ensures v == 14 <==> card == Ace
  {
    match card
    case Ace => 14
    case King => 13
    case Queen => 12
    case Jack => 11
    case Ten => 10
    case Nine => 9
    case Eight => 8
    case Seven => 7
    case Six => 6
    case Five => 5
    case Four => 4
    case Three => 3
    case Two => 2
    case Joker => 1
  }

  /** Distinct cards have distinct values, so `Ord for Card` only calls
      equal cards equal. */
  lemma CardValueInjective(a: Card, b: Card)
    ensures CardValue(a) == CardValue(b) ==> a == b
  {
  }

  datatype HandType = FiveOfAKind | FourOfAKind | FullHouse | ThreeOfAKind | TwoPairs | OnePair | HighCard

  /** `HandType::strength`. */
  function Strength(t: HandType): (s: nat)
    ensures s <= 6
  {
    match t
    case FiveOfAKind => 6
    case FourOfAKind => 5
    case FullHouse => 4
    case ThreeOfAKind => 3
    case TwoPairs => 2
    case OnePair => 1
    case HighCard => 0
  }

  lemma StrengthInjective(a: HandType, b: HandType)
    ensures Strength(a) == Strength(b) ==> a == b
  {
  }

  datatype Hand = Hand(c0: Card, c1: Card, c2: Card, c3: Card, c4: Card)

  function Cards(h: Hand): (cs: seq<Card>)
    ensures |cs| == 5
  {
    [h.c0, h.c1, h.c2, h.c3, h.c4]
  }

  /** `impl From<&str> for Hand`: the first five characters, each read as a
      card; fewer than five characters or a bad character panics. */
  function HandFromString(s: seq<char>): (r: Option<Hand>)
    ensures r.Some? <==> |s| >= 5 && forall k :: 0 <= k < 5 ==> CardFromChar(s[k]).Some?
    ensures r.Some? ==> forall k :: 0 <= k < 5 ==> Cards(r.value)[k] == CardFromChar(s[k]).value
  {
    if |s| < 5 then None
    else
      var a, b, c, d, e := CardFromChar(s[0]), CardFromChar(s[1]), CardFromChar(s[2]), CardFromChar(s[3]), CardFromChar(s[4]);
      if a.Some? && b.Some? && c.Some? && d.Some? && e.Some? then Some(Hand(a.value, b.value, c.value, d.value, e.value))
      else None
  }

  // ------------------------------------------------------- classification

  function Count(cs: seq<Card>, c: Card): nat
  {
    multiset(cs)[c]
  }

  /** The labels of `cs` in order of first appearance (the keys of the count
      map, in insertion order). */
  function Distinct(cs: seq<Card>): (d: seq<Card>)
    ensures forall c :: c in d <==> c in cs
    ensures NoRepeats(d)
  {
    if cs == [] then []
    else
      var init := Distinct(cs[..|cs| - 1]);
      assert forall c :: c in cs <==> c in cs[..|cs| - 1] || c == cs[|cs| - 1];
      if cs[|cs| - 1] in init then init else init + [cs[|cs| - 1]]
  }

  function RemoveJoker(d: seq<Card>): (r: seq<Card>)
    ensures forall c :: c in r <==> c in d && c != Joker
  {
    if d == [] then []
    else RemoveJoker(d[..|d| - 1]) + (if d[|d| - 1] == Joker then [] else [d[|d| - 1]])
  }

  predicate NoRepeats(d: seq<Card>)
  {
    forall i, j :: 0 <= i < j < |d| ==> d[i] != d[j]
  }

  lemma {:induction false} RemoveJokerNoRepeats(d: seq<Card>)
    requires NoRepeats(d)
    ensures NoRepeats(RemoveJoker(d))
  {
    if d != [] {
      var init := d[..|d| - 1];
      assert d[|d| - 1] !in init;
      RemoveJokerNoRepeats(init);
    }
  }

  /** The non-joker labels of a hand, each once. */
  function Labels(cs: seq<Card>): seq<Card>
  {
    RemoveJoker(Distinct(cs))
  }

  /** The number of times each label occurs in `cs`. */
  function CountsOf(cs: seq<Card>, labels: seq<Card>): (r: seq<nat>)
    ensures |r| == |labels|
    ensures forall i :: 0 <= i < |r| ==> r[i] == Count(cs, labels[i])
  {
    if labels == [] then []
    else CountsOf(cs, labels[..|labels| - 1]) + [Count(cs, labels[|labels| - 1])]
  }

  /** The group sizes of the non-joker labels. */
  function Profile(cs: seq<Card>): seq<nat>
  {
    CountsOf(cs, Labels(cs))
  }

  function Ones(n: nat): (r: seq<nat>)
    ensures |r| == n && forall i :: 0 <= i < n ==> r[i] == 1
  {
    if n == 0 then [] else Ones(n - 1) + [1]
  }

  /** The counts the source sorts: the non-joker group sizes, then one
      singleton per joker. */
  function Groups(cs: seq<Card>): seq<nat>
  {
    Profile(cs) + Ones(Count(cs, Joker))
  }

  function MaxOf(s: seq<nat>): (m: nat)
    ensures forall i :: 0 <= i < |s| ==> s[i] <= m
    ensures s == [] ==> m == 0
    ensures s != [] ==> m in s
  {
    if s == [] then 0
    else
      var m := MaxOf(s[..|s| - 1]);
      assert forall x :: x in s[..|s| - 1] ==> x in s;
      if s[|s| - 1] > m then s[|s| - 1] else m
  }

  /** Reference classification by the largest group and the number of
      groups: together they tell the seven partitions of five apart. */
  function ClassOf(largest: nat, groups: nat): HandType
  {
    if largest >= 5 then FiveOfAKind
    else if largest == 4 then FourOfAKind
    else if largest == 3 then (if groups == 2 then FullHouse else ThreeOfAKind)
    else if largest == 2 then (if groups == 3 then TwoPairs else OnePair)
    else HighCard
  }

  /** The plain type of a hand: jokers count as singleton groups. */
  function Classify(h: Hand): HandType
  {
    TypeOfGroups(Groups(Cards(h)))
  }

  function TypeOfGroups(g: seq<nat>): HandType
  {
    ClassOf(MaxOf(g), |g|)
  }

  // ------------------------------------------------ facts about the groups

  lemma CountSnoc(p: seq<Card>, x: Card, c: Card)
    ensures Count(p + [x], c) == Count(p, c) + (if c == x then 1 else 0)
  {
    assert multiset(p + [x]) == multiset(p) + multiset{x};
  }

  /** Adding one card `x` adds one to the total count of `labels` exactly
      when `x` is one of them. */
  lemma {:induction false} CountsOfSnoc(p: seq<Card>, x: Card, labels: seq<Card>)
    requires NoRepeats(labels)
    ensures Sum(CountsOf(p + [x], labels)) == Sum(CountsOf(p, labels)) + (if x in labels then 1 else 0)
  {
    if labels != [] {
      var init := labels[..|labels| - 1];
      var last := labels[|labels| - 1];
      CountsOfSnoc(p, x, init);
      CountSnoc(p, x, last);
      assert x in labels <==> x in init || x == last;
      assert last !in init;
    }
  }

  /** One more card adds a new label exactly when it is neither a joker nor
      already in the hand. */
  lemma LabelsSnoc(p: seq<Card>, x: Card)
    ensures Labels(p + [x]) == if x == Joker || x in p then Labels(p) else Labels(p) + [x]
  {
    var cs := p + [x];
    assert cs[..|cs| - 1] == p;
    if x !in Distinct(p) {
      assert Distinct(cs)[..|Distinct(cs)| - 1] == Distinct(p);
    }
  }

  /** Every card is either a joker or counted in exactly one group. */
  lemma {:induction false} ProfileSum(cs: seq<Card>)
    ensures Sum(Profile(cs)) + Count(cs, Joker) == |cs|
  {
    if cs != [] {
      var p := cs[..|cs| - 1];
      var x := cs[|cs| - 1];
      assert cs == p + [x];
      ProfileSum(p);
      ProfileSnoc(p, x);
    }
  }

  /** One more card adds one to the groups or to the jokers. */
  lemma ProfileSnoc(p: seq<Card>, x: Card)
    ensures Sum(Profile(p + [x])) + Count(p + [x], Joker) == Sum(Profile(p)) + Count(p, Joker) + 1
  {
    var cs := p + [x];
    var lp := Labels(p);
    CountSnoc(p, x, Joker);
    LabelsSnoc(p, x);
    RemoveJokerNoRepeats(Distinct(p));
    CountsOfSnoc(p, x, lp);
    if x != Joker && x !in p {
      NewLabelCounts(p, x, lp);
    } else {
      assert Labels(cs) == lp;
    }
  }

  lemma NewLabelCounts(p: seq<Card>, x: Card, lp: seq<Card>)
    requires x != Joker && x !in p && Labels(p + [x]) == lp + [x]
    ensures Sum(CountsOf(p + [x], lp + [x])) == Sum(CountsOf(p + [x], lp)) + 1
  {
    var cs := p + [x];
    assert CountsOf(cs, lp + [x]) == CountsOf(cs, lp) + [Count(cs, x)];
    CountSnoc(p, x, x);
    assert Count(p, x) == 0;
    SumAppend(CountsOf(cs, lp), [Count(cs, x)]);
  }

  lemma ProfilePositive(cs: seq<Card>)
    ensures forall i :: 0 <= i < |Profile(cs)| ==> Profile(cs)[i] >= 1
  {
    forall i | 0 <= i < |Profile(cs)|
      ensures Profile(cs)[i] >= 1
    {
      assert Labels(cs)[i] in cs;
    }
  }

  lemma {:induction false} SumOnes(n: nat)
    ensures Sum(Ones(n)) == n
  {
    if n > 0 {
      SumOnes(n - 1);
      assert Ones(n)[..n - 1] == Ones(n - 1);
    }
  }

  /** The groups are positive and add up to the number of cards. */
  lemma GroupsPartition(cs: seq<Card>)
    ensures Sum(Groups(cs)) == |cs|
    ensures forall i :: 0 <= i < |Groups(cs)| ==> Groups(cs)[i] >= 1
  {
    ProfileSum(cs);
    ProfilePositive(cs);
    SumOnes(Count(cs, Joker));
    SumAppend(Profile(cs), Ones(Count(cs, Joker)));
  }

  // ------------------------------------------------------ the counted type

  predicate Ascending(s: seq<nat>)
  {
    forall i, j :: 0 <= i < j < |s| ==> s[i] <= s[j]
  }

  function InsertNat(x: nat, s: seq<nat>): (r: seq<nat>)
    requires Ascending(s)
    ensures |r| == |s| + 1
    ensures r[0] == x || (s != [] && r[0] == s[0])
    ensures Ascending(r)
    ensures multiset(r) == multiset(s) + multiset{x}
  {
    if s == [] || x <= s[0] then [x] + s
    else
      assert s == [s[0]] + s[1..];
      [s[0]] + InsertNat(x, s[1..])
  }

  /** `Vec::sort` on the counts, as a function of its input. */
  function SortNats(s: seq<nat>): (r: seq<nat>)
    ensures |r| == |s|
    ensures Ascending(r)
    ensures multiset(r) == multiset(s)
  {
    if s == [] then []
    else
      assert s == s[..|s| - 1] + [s[|s| - 1]];
      InsertNat(s[|s| - 1], SortNats(s[..|s| - 1]))
  }

  /** What the `k`-th `next()` of `s.into_iter().rev()` yields. */
  function NthFromEnd(s: seq<nat>, k: nat): Option<nat>
  {
    if k < |s| then Some(s[|s| - 1 - k]) else None
  }

  lemma SumPrefixStep(s: seq<nat>, k: nat)
    requires 1 <= k <= |s|
    ensures Sum(s[..k]) == Sum(s[..k - 1]) + s[k - 1]
  {
    assert s[..k][..k - 1] == s[..k - 1];
  }

  /** The sum of a short sequence, written out. */
  lemma SumShort(s: seq<nat>)
    requires 1 <= |s| <= 5
    ensures |s| == 1 ==> Sum(s) == s[0]
    ensures |s| == 2 ==> Sum(s) == s[0] + s[1]
    ensures |s| == 3 ==> Sum(s) == s[0] + s[1] + s[2]
    ensures |s| == 4 ==> Sum(s) == s[0] + s[1] + s[2] + s[3]
    ensures |s| == 5 ==> Sum(s) == s[0] + s[1] + s[2] + s[3] + s[4]
  {
    assert s[..|s|] == s;
    assert s[..0] == [];
    SumPrefixStep(s, 1);
    if |s| >= 2 { SumPrefixStep(s, 2); }
    if |s| >= 3 { SumPrefixStep(s, 3); }
    if |s| >= 4 { SumPrefixStep(s, 4); }
    if |s| >= 5 { SumPrefixStep(s, 5); }
  }

  /** The seven ascending count patterns of a five-card hand. */
  predicate IsPattern(s: seq<nat>)
  {
    s == [5] || s == [1, 4] || s == [2, 3] || s == [1, 1, 3] || s == [1, 2, 2] || s == [1, 1, 1, 2] || s == [1, 1, 1, 1, 1]
  }

  lemma PartitionsOfFiveInThree(s: seq<nat>)
    requires |s| == 3 && 1 <= s[0] <= s[1] <= s[2] && s[0] + s[1] + s[2] == 5
    ensures s == [1, 1, 3] || s == [1, 2, 2]
  {
    if s[2] == 3 {
      assert s == [1, 1, 3];
    } else {
      assert s == [1, 2, 2];
    }
  }

  lemma PartitionsOfFiveInTwo(s: seq<nat>)
    requires |s| == 2 && 1 <= s[0] <= s[1] && s[0] + s[1] == 5
    ensures s == [1, 4] || s == [2, 3]
  {
    if s[1] == 4 {
      assert s == [1, 4];
    } else {
      assert s == [2, 3];
    }
  }

  /** The seven ways to write five as a sum of positive parts, in ascending
      order: so the source's seven match arms cover every hand. */
  lemma PartitionsOfFive(s: seq<nat>)
    requires Ascending(s)
    requires forall i :: 0 <= i < |s| ==> s[i] >= 1
    requires Sum(s) == 5
    ensures IsPattern(s)
  {
    SumBound(s, 1, MaxOf(s));
    SumShort(s);
    var n := |s|;
    if n == 1 {
      assert s == [5];
    } else if n == 2 {
      assert s[0] <= s[1];
      PartitionsOfFiveInTwo(s);
    } else if n == 3 {
      assert s[0] <= s[1] <= s[2];
      PartitionsOfFiveInThree(s);
    } else if n == 4 {
      assert s[0] <= s[1] <= s[2] <= s[3];
      assert s == [1, 1, 1, 2];
    } else {
      assert s == [1, 1, 1, 1, 1];
    }
  }

  /** A sorted copy of a sequence has the same largest element. */
  lemma SortedMax(s: seq<nat>)
    requires s != []
    ensures MaxOf(s) == SortNats(s)[|s| - 1]
  {
    var r := SortNats(s);
    var last, m := r[|r| - 1], MaxOf(s);
    SameElements(r, s, last);
    SameElements(r, s, m);
    BelowMax(s, last);
    BelowLast(r, m);
  }

  lemma SameElements(r: seq<nat>, s: seq<nat>, v: nat)
    requires multiset(r) == multiset(s)
    ensures v in r <==> v in s
  {
    assert v in r <==> v in multiset(r);
    assert v in s <==> v in multiset(s);
  }

  lemma BelowMax(s: seq<nat>, v: nat)
    requires v in s
    ensures v <= MaxOf(s)
  {
    var i :| 0 <= i < |s| && s[i] == v;
  }

  lemma BelowLast(r: seq<nat>, v: nat)
    requires Ascending(r) && v in r
    ensures v <= r[|r| - 1]
  {
    var j :| 0 <= j < |r| && r[j] == v;
    if j < |r| - 1 {
      assert r[j] <= r[|r| - 1];
    }
  }

  /** The sorted counts of a five-card hand are one of the seven patterns,
      and its largest count and number of counts are read off the sorted
      copy. */
  lemma SortedGroups(cs: seq<Card>)
    requires |cs| == 5
    ensures IsPattern(SortNats(Groups(cs)))
    ensures MaxOf(Groups(cs)) == SortNats(Groups(cs))[|Groups(cs)| - 1]
  {
    var g := Groups(cs);
    var r := SortNats(g);
    GroupsPartition(cs);
    SumPermutation(g, r);
    forall i | 0 <= i < |r|
      ensures r[i] >= 1
    {
      assert r[i] in multiset(g);
    }
    PartitionsOfFive(r);
    SortedMax(g);
  }

  lemma DistinctStep(cs: seq<Card>, i: nat)
    requires i < |cs|
    ensures cs[..i + 1] == cs[..i] + [cs[i]]
    ensures Distinct(cs[..i + 1]) == if cs[i] in cs[..i] then Distinct(cs[..i]) else Distinct(cs[..i]) + [cs[i]]
  {
    assert cs[..i + 1][..i] == cs[..i];
  }

  /** The map from each label to its number of occurrences, built by the
      source's insert-or-increment steps; `keys` lists the labels in the
      order they were first inserted. */
  method CountLabels(cs: seq<Card>) returns (counts: map<Card, nat>, keys: seq<Card>)
    ensures keys == Distinct(cs)
    ensures forall c :: c in counts <==> c in cs
    ensures forall c :: c in counts ==> counts[c] == Count(cs, c)
  {
    counts := map[];
    keys := [];
    for i := 0 to |cs|
      invariant Tallied(cs[..i], counts, keys)
    {
      var c := cs[i];
      TallyStep(cs, i, counts, keys);
      if c in counts {
        counts := counts[c := counts[c] + 1];
      } else {
        counts := counts[c := 1];
        keys := keys + [c];
      }
    }
    assert cs[..|cs|] == cs;
  }

  /** `counts` and `keys` are the count map and its keys for the cards `p`. */
  ghost predicate Tallied(p: seq<Card>, counts: map<Card, nat>, keys: seq<Card>)
  {
    keys == Distinct(p) &&
    (forall c :: c in counts <==> c in p) &&
    (forall c :: c in counts ==> counts[c] == Count(p, c))
  }

  /** Counting one more card. */
  lemma TallyStep(cs: seq<Card>, i: nat, counts: map<Card, nat>, keys: seq<Card>)
    requires i < |cs| && Tallied(cs[..i], counts, keys)
    ensures var c := cs[i];
      Tallied(cs[..i + 1],
        if c in counts then counts[c := counts[c] + 1] else counts[c := 1],
        if c in counts then keys else keys + [c])
  {
    var c := cs[i];
    DistinctStep(cs, i);
    forall d
      ensures Count(cs[..i + 1], d) == Count(cs[..i], d) + (if d == c then 1 else 0)
    {
      CountSnoc(cs[..i], c, d);
    }
  }


  lemma RemoveJokerStep(keys: seq<Card>, k: nat)
    requires k < |keys|
    ensures RemoveJoker(keys[..k + 1]) == RemoveJoker(keys[..k]) + if keys[k] == Joker then [] else [keys[k]]
  {
    assert keys[..k + 1][..k] == keys[..k];
  }

  lemma CountsOfStep(cs: seq<Card>, labels: seq<Card>, y: Card)
    ensures CountsOf(cs, labels + [y]) == CountsOf(cs, labels) + [Count(cs, y)]
  {
    assert (labels + [y])[..|labels|] == labels;
  }

  /** Lists the count of each key still in the map, in key order (the
      map's `into_values`). */
  method ValuesInOrder(cs: seq<Card>, counts: map<Card, nat>, keys: seq<Card>) returns (values: seq<nat>)
    requires forall k :: 0 <= k < |keys| ==> (keys[k] in counts <==> keys[k] != Joker)
    requires forall c :: c in counts ==> counts[c] == Count(cs, c)
    ensures values == CountsOf(cs, RemoveJoker(keys))
  {
    values := [];
    for k := 0 to |keys|
      invariant values == CountsOf(cs, RemoveJoker(keys[..k]))
    {
      RemoveJokerStep(keys, k);
      if keys[k] in counts {
        CountsOfStep(cs, RemoveJoker(keys[..k]), keys[k]);
        values := values + [counts[keys[k]]];
      }
    }
    assert keys[..|keys|] == keys;
  }

  /** Takes the jokers out of the count map and lists the remaining counts
      followed by one singleton per joker. */
  method GroupCounts(cs: seq<Card>, counts0: map<Card, nat>, keys: seq<Card>) returns (values: seq<nat>)
    requires keys == Distinct(cs)
    requires forall c :: c in counts0 <==> c in cs
    requires forall c :: c in counts0 ==> counts0[c] == Count(cs, c)
    ensures values == Groups(cs)
  {
    var counts := counts0;
    var jokers: nat := 0;
    if Joker in counts {
      jokers := counts[Joker];
      counts := counts - {Joker};
    }
    assert jokers == Count(cs, Joker);
    forall k | 0 <= k < |keys|
      ensures keys[k] in counts <==> keys[k] != Joker
    {
      assert keys[k] in cs;
    }
    values := ValuesInOrder(cs, counts, keys);
    values := values + Ones(jokers);
  }

  /** The final match of `hand_type` on the counts from the largest down;
      any other pattern panics, so the counts must be one of the seven. */
  method TypeOfPattern(sorted: seq<nat>) returns (t: HandType)
    requires IsPattern(sorted)
    ensures t == ClassOf(sorted[|sorted| - 1], |sorted|)
  {
    match (NthFromEnd(sorted, 0), NthFromEnd(sorted, 1), NthFromEnd(sorted, 2), NthFromEnd(sorted, 3), NthFromEnd(sorted, 4))
    case (Some(5), None, None, None, None) => t := FiveOfAKind;
    case (Some(4), Some(1), None, None, None) => t := FourOfAKind;
    case (Some(3), Some(2), None, None, None) => t := FullHouse;
    case (Some(3), Some(1), Some(1), None, None) => t := ThreeOfAKind;
    case (Some(2), Some(2), Some(1), None, None) => t := TwoPairs;
    case (Some(2), Some(1), Some(1), Some(1), None) => t := OnePair;
    case (Some(1), Some(1), Some(1), Some(1), Some(1)) => t := HighCard;
    case _ => assert false;
  }

  /** `Hand::hand_type`: counts the labels in a map (its keys kept in
      insertion order, standing in for the hash map's own order), takes the
      jokers out as singletons, sorts the counts and matches the pattern
      from the largest down. */
  method HandTypeOf(h: Hand) returns (t: HandType)
    ensures t == Classify(h)
  {
    var cs := Cards(h);
    var counts, keys := CountLabels(cs);
    var values := GroupCounts(cs, counts, keys);
    var sorted := SortNats(values);
    SortedGroups(cs);
    t := TypeOfPattern(sorted);
  }

  // ------------------------------------------------------------- jokers

  function NumJokers(h: Hand): (n: nat)
    ensures n <= 5
  {
    ProfileSum(Cards(h));
    SumZero(Profile(Cards(h)));
    Count(Cards(h), Joker)
  }

  /** The upgrade table of `hand_type_with_joker`: the plain type is
      raised according to the number of jokers; more than five jokers
      panics. */
  function Upgrade(jokers: nat, t: HandType): (r: Option<HandType>)
    ensures r.Some? <==> jokers <= 5
  {
    if jokers == 0 then Some(t)
    else if jokers == 1 then
      Some(match t
        case HighCard => OnePair
        case OnePair => ThreeOfAKind
        case TwoPairs => FullHouse
        case ThreeOfAKind => FourOfAKind
        case FullHouse => FourOfAKind
        case _ => FiveOfAKind)
    else if jokers == 2 then
      Some(match t
        case HighCard => ThreeOfAKind
        case OnePair => FourOfAKind
        case TwoPairs => FourOfAKind
        case _ => FiveOfAKind)
    else if jokers == 3 then
      Some(match t
        case HighCard => FourOfAKind
        case _ => FiveOfAKind)
    else if jokers == 4 || jokers == 5 then Some(FiveOfAKind)
    else None
  }

  /** The part 2 type: the plain type upgraded by the jokers. */
  function WithJoker(h: Hand): HandType
  {
    Upgrade(NumJokers(h), Classify(h)).value
  }

  /** `Hand::hand_type_with_joker`. */
  method HandTypeWithJokerOf(h: Hand) returns (t: HandType)
    ensures t == WithJoker(h)
    ensures NumJokers(h) == 0 ==> t == Classify(h)
    ensures Strength(t) >= Strength(Classify(h))
  {
    var plain := HandTypeOf(h);
    var jokers := NumJokers(h);
    t := Upgrade(jokers, plain).value;
    JokerUpgradeFacts(h);
  }

  /** Reference reading of the upgrade: every joker joins the largest
      non-joker group (a hand of jokers only is one group of five). */
  function BestType(h: Hand): HandType
  {
    JoinLargest(Profile(Cards(h)), NumJokers(h))
  }

  function JoinLargest(p: seq<nat>, jokers: nat): HandType
  {
    ClassOf(MaxOf(p) + jokers, if |p| == 0 then 1 else |p|)
  }

  lemma MaxOfAppend(a: seq<nat>, b: seq<nat>)
    ensures MaxOf(a + b) == if MaxOf(a) >= MaxOf(b) then MaxOf(a) else MaxOf(b)
  {
    var m := MaxOf(a + b);
    if a + b != [] {
      var k :| 0 <= k < |a + b| && (a + b)[k] == m;
      if k < |a| {
        assert a[k] == m;
      } else {
        assert b[k - |a|] == m;
      }
    }
    forall i | 0 <= i < |a|
      ensures a[i] <= m
    {
      assert (a + b)[i] == a[i];
    }
    forall i | 0 <= i < |b|
      ensures b[i] <= m
    {
      assert (a + b)[|a| + i] == b[i];
    }
    if a != [] {
      var k :| 0 <= k < |a| && a[k] == MaxOf(a);
    }
    if b != [] {
      var k :| 0 <= k < |b| && b[k] == MaxOf(b);
    }
  }

  /** A positive sequence sums to at least its largest element plus one for
      each other element. */
  lemma {:induction false} SumAtLeastMax(s: seq<nat>)
    requires s != []
    requires forall i :: 0 <= i < |s| ==> s[i] >= 1
    ensures Sum(s) >= MaxOf(s) + |s| - 1
  {
    var init := s[..|s| - 1];
    if init != [] {
      assert forall i :: 0 <= i < |init| ==> init[i] == s[i];
      SumAtLeastMax(init);
      SumBound(init, 1, MaxOf(init));
    }
  }

  /** The upgrade table and the largest-group reading agree on every shape
      of non-joker groups: `most` is the largest group, `labels` the number
      of groups, and `5 - jokers` the number of non-joker cards. */
  lemma UpgradeTableIsBest(jokers: nat, most: nat, labels: nat, largest: nat, groups: nat)
    requires jokers <= 5
    requires labels == 0 <==> jokers == 5
    requires labels == 0 ==> most == 0
    requires labels >= 1 ==> 1 <= most && most + labels - 1 <= 5 - jokers
    requires labels == 1 ==> 5 - jokers <= most
    requires labels == 2 ==> 5 - jokers <= 2 * most
    requires labels == 3 ==> 5 - jokers <= 3 * most
    requires largest == (if jokers > 0 && most == 0 then 1 else most) && groups == labels + jokers
    ensures Upgrade(jokers, ClassOf(largest, groups)) == Some(ClassOf(most + jokers, if labels == 0 then 1 else labels))
  {
  }

  /** The shape of the groups of five cards: the facts the upgrade table
      relies on. */
  /** The shape of the non-joker group sizes `p` of five cards, `nj` of
      them jokers. */
  predicate Shaped(p: seq<nat>, nj: nat)
  {
    && nj <= 5
    && (|p| == 0 <==> nj == 5)
    && (|p| == 0 ==> MaxOf(p) == 0)
    && (|p| >= 1 ==> 1 <= MaxOf(p) && MaxOf(p) + |p| - 1 <= 5 - nj)
    && (|p| == 1 ==> 5 - nj <= MaxOf(p))
    && (|p| == 2 ==> 5 - nj <= 2 * MaxOf(p))
    && (|p| == 3 ==> 5 - nj <= 3 * MaxOf(p))
  }

  lemma GroupShape(cs: seq<Card>)
    requires |cs| == 5
    ensures var p, nj := Profile(cs), Count(cs, Joker);
      && Shaped(p, nj)
      && |Groups(cs)| == |p| + nj
      && MaxOf(Groups(cs)) == if nj > 0 && MaxOf(p) == 0 then 1 else MaxOf(p)
  {
    var p := Profile(cs);
    var nj := Count(cs, Joker);
    ProfileSum(cs);
    ProfilePositive(cs);
    SumZero(p);
    MaxOfAppend(p, Ones(nj));
    if p != [] {
      SumAtLeastMax(p);
      SumBound(p, 1, MaxOf(p));
      assert p[0] >= 1;
      if |p| == 2 {
        assert |p| * MaxOf(p) == 2 * MaxOf(p);
      } else if |p| == 3 {
        assert |p| * MaxOf(p) == 3 * MaxOf(p);
      }
    }
    if nj > 0 {
      assert Ones(nj)[0] == 1;
    }
  }

  lemma UpgradeIsBestOnCards(cs: seq<Card>)
    requires |cs| == 5
    ensures Upgrade(Count(cs, Joker), TypeOfGroups(Groups(cs))) == Some(JoinLargest(Profile(cs), Count(cs, Joker)))
  {
    var p, g, nj := Profile(cs), Groups(cs), Count(cs, Joker);
    GroupShape(cs);
    UpgradeOnShape(p, nj, MaxOf(g), |g|);
  }

  lemma UpgradeOnShape(p: seq<nat>, nj: nat, largest: nat, groups: nat)
    requires Shaped(p, nj)
    requires largest == (if nj > 0 && MaxOf(p) == 0 then 1 else MaxOf(p)) && groups == |p| + nj
    ensures Upgrade(nj, ClassOf(largest, groups)) == Some(JoinLargest(p, nj))
  {
    UpgradeTableIsBest(nj, MaxOf(p), |p|, largest, groups);
  }

  /** `hand_type_with_joker` gives the type reached by letting every joker
      join the largest group of the other cards. */
  lemma JokersJoinLargestGroup(h: Hand)
    ensures WithJoker(h) == BestType(h)
  {
    UpgradeIsBestOnCards(Cards(h));
  }

  lemma UpgradeFacts(jokers: nat, t: HandType)
    requires jokers <= 5
    ensures jokers == 0 ==> Upgrade(jokers, t).value == t
    ensures Strength(Upgrade(jokers, t).value) >= Strength(t)
    ensures jokers >= 4 ==> Upgrade(jokers, t).value == FiveOfAKind
  {
  }

  /** Without jokers the part 2 type is the plain type; jokers never make a
      hand weaker; four or more jokers always make five of a kind. */
  lemma JokerUpgradeFacts(h: Hand)
    ensures NumJokers(h) == 0 ==> WithJoker(h) == Classify(h)
    ensures Strength(WithJoker(h)) >= Strength(Classify(h))
    ensures NumJokers(h) >= 4 ==> WithJoker(h) == FiveOfAKind
  {
    UpgradeFacts(NumJokers(h), Classify(h));
  }

  // ---------------------------------------------------------- ordering

  datatype Ordering = Less | Equal | Greater

  function CompareNat(a: nat, b: nat): (o: Ordering)
    ensures o == Equal <==> a == b
    ensures o == Less <==> a < b
  {
    if a < b then Less else if a == b then Equal else Greater
  }

  function Flip(o: Ordering): Ordering
  {
    match o
    case Less => Greater
    case Equal => Equal
    case Greater => Less
  }

  /** Lexicographic comparison: the first position that differs decides,
      as in the chain of `match ... { Equal => {}, neq => return neq }`. */
  function CompareKeys(x: seq<nat>, y: seq<nat>): Ordering
  {
    if x == [] then (if y == [] then Equal else Less)
    else if y == [] then Greater
    else if x[0] != y[0] then CompareNat(x[0], y[0])
    else CompareKeys(x[1..], y[1..])
  }

  lemma {:induction false} CompareKeysEqual(x: seq<nat>, y: seq<nat>)
    ensures CompareKeys(x, y) == Equal <==> x == y
    ensures CompareKeys(y, x) == Flip(CompareKeys(x, y))
  {
    if x != [] && y != [] && x[0] == y[0] {
      CompareKeysEqual(x[1..], y[1..]);
      assert x == [x[0]] + x[1..] && y == [y[0]] + y[1..];
    }
  }

  lemma {:induction false} CompareKeysTransitive(x: seq<nat>, y: seq<nat>, z: seq<nat>)
    ensures CompareKeys(x, y) == Less && CompareKeys(y, z) == Less ==> CompareKeys(x, z) == Less
  {
    if x != [] && y != [] && z != [] && x[0] == y[0] && y[0] == z[0] {
      CompareKeysTransitive(x[1..], y[1..], z[1..]);
    }
  }

  /** What a hand is compared by: its part 2 type strength, then the value
      of each card in order. */
  function Key(h: Hand): (k: seq<nat>)
    ensures |k| == 6
  {
    [Strength(WithJoker(h)), CardValue(h.c0), CardValue(h.c1), CardValue(h.c2), CardValue(h.c3), CardValue(h.c4)]
  }

  lemma KeyInjective(a: Hand, b: Hand)
    ensures Key(a) == Key(b) ==> a == b
  {
    if Key(a) == Key(b) {
      assert Key(a)[1] == Key(b)[1] && Key(a)[2] == Key(b)[2] && Key(a)[3] == Key(b)[3];
      assert Key(a)[4] == Key(b)[4] && Key(a)[5] == Key(b)[5];
      CardValueInjective(a.c0, b.c0);
      CardValueInjective(a.c1, b.c1);
      CardValueInjective(a.c2, b.c2);
      CardValueInjective(a.c3, b.c3);
      CardValueInjective(a.c4, b.c4);
    }
  }

  /** `Ord for Hand`: the part 2 type first, then the cards from the first
      to the last by value. */
  function CompareHands(a: Hand, b: Hand): Ordering
  {
    CompareKeys(Key(a), Key(b))
  }

  /** Only identical hands compare equal, and swapping the operands flips
      the result. */
  lemma CompareHandsEqualAndFlip(a: Hand, b: Hand)
    ensures CompareHands(a, b) == Equal <==> a == b
    ensures CompareHands(b, a) == Flip(CompareHands(a, b))
  {
    CompareKeysEqual(Key(a), Key(b));
    KeyInjective(a, b);
  }

  lemma CompareHandsTransitive(a: Hand, b: Hand, c: Hand)
    ensures CompareHands(a, b) == Less && CompareHands(b, c) == Less ==> CompareHands(a, c) == Less
  {
    CompareKeysTransitive(Key(a), Key(b), Key(c));
  }

  // ------------------------------------------------- ranking and winnings

  datatype Play = Play(hand: Hand, bid: nat)

  /** No later element's key compares below an earlier one's. */
  predicate SortedBy<T>(s: seq<T>, key: T -> seq<nat>)
  {
    forall i, j :: 0 <= i < j < |s| ==> CompareKeys(key(s[j]), key(s[i])) != Less
  }

  function InsertBy<T>(x: T, s: seq<T>, key: T -> seq<nat>): (r: seq<T>)
    ensures |r| == |s| + 1
    ensures multiset(r) == multiset(s) + multiset{x}
  {
    if s == [] || CompareKeys(key(x), key(s[0])) == Less then [x] + s
    else
      assert s == [s[0]] + s[1..];
      [s[0]] + InsertBy(x, s[1..], key)
  }

  lemma {:induction false} InsertBySorted<T>(x: T, s: seq<T>, key: T -> seq<nat>)
    requires SortedBy(s, key)
    ensures SortedBy(InsertBy(x, s, key), key)
  {
    if s == [] {
    } else if CompareKeys(key(x), key(s[0])) == Less {
      forall j | 0 <= j < |s|
        ensures CompareKeys(key(s[j]), key(x)) != Less
      {
        CompareKeysEqual(key(x), key(s[0]));
        CompareKeysEqual(key(s[j]), key(s[0]));
        CompareKeysTransitive(key(s[j]), key(x), key(s[0]));
      }
      var r := [x] + s;
      assert forall j :: 1 <= j < |r| ==> r[j] == s[j - 1];
    } else {
      assert s == [s[0]] + s[1..];
      var r := InsertBy(x, s[1..], key);
      InsertBySorted(x, s[1..], key);
      forall j | 0 <= j < |r|
        ensures CompareKeys(key(r[j]), key(s[0])) != Less
      {
        assert r[j] in multiset(s[1..]) + multiset{x};
        if r[j] != x {
          var k :| 0 <= k < |s[1..]| && s[1..][k] == r[j];
          assert s[k + 1] == r[j];
        } else {
          CompareKeysEqual(key(x), key(s[0]));
        }
      }
      var full := [s[0]] + r;
      assert forall j :: 1 <= j < |full| ==> full[j] == r[j - 1];
    }
  }

  /** A stable insertion sort: each element goes after every earlier
      element whose key is not larger. */
  function SortBy<T>(s: seq<T>, key: T -> seq<nat>): (r: seq<T>)
    ensures |r| == |s|
    ensures multiset(r) == multiset(s)
    ensures SortedBy(r, key)
  {
    if s == [] then []
    else
      assert s == s[..|s| - 1] + [s[|s| - 1]];
      InsertBySorted(s[|s| - 1], SortBy(s[..|s| - 1], key), key);
      InsertBy(s[|s| - 1], SortBy(s[..|s| - 1], key), key)
  }

  lemma SortedFirstIsLeast<T>(s: seq<T>, key: T -> seq<nat>)
    requires SortedBy(s, key) && s != []
    ensures forall j :: 0 <= j < |s| ==> CompareKeys(key(s[j]), key(s[0])) != Less
  {
    forall j | 0 <= j < |s|
      ensures CompareKeys(key(s[j]), key(s[0])) != Less
    {
      if j == 0 {
        CompareKeysEqual(key(s[0]), key(s[0]));
      }
    }
  }

  /** No two different elements of `m` share a key. */
  predicate KeysDistinguish<T(!new)>(m: multiset<T>, key: T -> seq<nat>)
  {
    forall x, y :: x in m && y in m && key(x) == key(y) ==> x == y
  }

  lemma SortedHeads<T(!new)>(s: seq<T>, t: seq<T>, key: T -> seq<nat>)
    requires SortedBy(s, key) && SortedBy(t, key)
    requires multiset(s) == multiset(t)
    requires KeysDistinguish(multiset(s), key)
    requires s != [] && t != []
    ensures s[0] == t[0]
  {
    var a, b := s[0], t[0];
    assert a in multiset(t);
    var k :| 0 <= k < |t| && t[k] == a;
    assert b in multiset(s);
    var m :| 0 <= m < |s| && s[m] == b;
    SortedFirstIsLeast(s, key);
    SortedFirstIsLeast(t, key);
    CompareKeysEqual(key(a), key(b));
  }

  /** When no two different elements share a key, there is only one sorted
      order. */
  lemma {:induction false} SortedUnique<T(!new)>(s: seq<T>, t: seq<T>, key: T -> seq<nat>)
    requires SortedBy(s, key) && SortedBy(t, key)
    requires multiset(s) == multiset(t)
    requires KeysDistinguish(multiset(s), key)
    ensures s == t
  {
    assert |s| == |multiset(s)| == |multiset(t)| == |t|;
    if s != [] {
      SortedHeads(s, t, key);
      SortedTails(s, t, key);
      SortedUnique(s[1..], t[1..], key);
      assert s == [s[0]] + s[1..] && t == [t[0]] + t[1..];
    }
  }

  /** Dropping a common first element keeps the premises of `SortedUnique`. */
  lemma SortedTails<T(!new)>(s: seq<T>, t: seq<T>, key: T -> seq<nat>)
    requires SortedBy(s, key) && SortedBy(t, key)
    requires multiset(s) == multiset(t)
    requires KeysDistinguish(multiset(s), key)
    requires s != [] && t != [] && s[0] == t[0]
    ensures SortedBy(s[1..], key) && SortedBy(t[1..], key)
    ensures multiset(s[1..]) == multiset(t[1..])
    ensures KeysDistinguish(multiset(s[1..]), key)
  {
    SortedTail(s, key);
    SortedTail(t, key);
    TailMultiset(s);
    TailMultiset(t);
    DistinguishFewer(multiset(s), multiset(s[1..]), key);
  }

  lemma SortedTail<T>(s: seq<T>, key: T -> seq<nat>)
    requires SortedBy(s, key) && s != []
    ensures SortedBy(s[1..], key)
  {
    forall i, j | 0 <= i < j < |s| - 1
      ensures CompareKeys(key(s[1..][j]), key(s[1..][i])) != Less
    {
      assert s[1..][j] == s[j + 1] && s[1..][i] == s[i + 1];
    }
  }

  lemma TailMultiset<T>(s: seq<T>)
    requires s != []
    ensures multiset(s[1..]) == multiset(s) - multiset{s[0]}
  {
    assert s == [s[0]] + s[1..];
  }

  lemma DistinguishFewer<T(!new)>(m: multiset<T>, n: multiset<T>, key: T -> seq<nat>)
    requires KeysDistinguish(m, key) && n <= m
    ensures KeysDistinguish(n, key)
  {
    forall x, y | x in n && y in n && key(x) == key(y)
      ensures x == y
    {
      assert x in m && y in m;
    }
  }

  function PlayKey(p: Play): seq<nat>
  {
    Key(p.hand)
  }

  /** The hands in increasing rank order, as `sort_by` leaves them. */
  function Ranked(plays: seq<Play>): seq<Play>
  {
    SortBy(plays, PlayKey)
  }

  /** Total winnings: each bid times its rank, the weakest hand ranking 1. */
  function Winnings(ranked: seq<Play>): nat
  {
    if ranked == [] then 0
    else Winnings(ranked[..|ranked| - 1]) + |ranked| * ranked[|ranked| - 1].bid
  }

  /** The `enumerate().map(...).sum()` over the sorted plays. */
  method RankTimesBid(ranked: seq<Play>) returns (total: nat)
    ensures total == Winnings(ranked)
  {
    total := 0;
    for i := 0 to |ranked|
      invariant total == Winnings(ranked[..i])
    {
      assert ranked[..i + 1][..i] == ranked[..i];
      total := total + (i + 1) * ranked[i].bid;
    }
    assert ranked[..|ranked|] == ranked;
  }

  predicate DistinctHands(plays: seq<Play>)
  {
    forall i, j :: 0 <= i < j < |plays| ==> plays[i].hand != plays[j].hand
  }

  /** With distinct hands the ranking, and so the winnings, do not depend on
      the order of the input lines. */
  lemma WinningsIgnoreLineOrder(plays: seq<Play>, shuffled: seq<Play>)
    requires multiset(plays) == multiset(shuffled)
    requires DistinctHands(plays)
    ensures Ranked(plays) == Ranked(shuffled)
    ensures Winnings(Ranked(plays)) == Winnings(Ranked(shuffled))
  {
    var r := Ranked(plays);
    forall x, y | x in multiset(r) && y in multiset(r) && PlayKey(x) == PlayKey(y)
      ensures x == y
    {
      assert x in multiset(plays) && y in multiset(plays);
      KeyInjective(x.hand, y.hand);
      var p :| 0 <= p < |plays| && plays[p] == x;
      var q :| 0 <= q < |plays| && plays[q] == y;
    }
    SortedUnique(r, Ranked(shuffled), PlayKey);
  }

  // ------------------------------------------------------------ solution

  /** A line of the puzzle input, split after its sixth character: the
      hand's text and the bid already read as a number. */
  datatype Line = Line(cards: seq<char>, bid: nat)

  /** `cards.replace('J', "*")`: part 2 reads every J as a joker. */
  function JacksToJokers(s: seq<char>): (r: seq<char>)
    ensures |r| == |s|
    ensures 'J' !in r
    ensures forall i :: 0 <= i < |s| ==> r[i] == if s[i] == 'J' then '*' else s[i]
  {
    if s == [] then []
    else JacksToJokers(s[..|s| - 1]) + [if s[|s| - 1] == 'J' then '*' else s[|s| - 1]]
  }

  function CardText(line: Line, jokers: bool): seq<char>
  {
    if jokers then JacksToJokers(line.cards) else line.cards
  }

  /** `(Hand::from(&cards[0..5]), bid)` for one line. */
  function ParseLine(line: Line, jokers: bool): Option<Play>
  {
    var hand := HandFromString(CardText(line, jokers));
    if hand.Some? then Some(Play(hand.value, line.bid)) else None
  }

  /** The plays of every line, or `None` when some hand does not parse
      (the source panics). */
  function ParsePlays(lines: seq<Line>, jokers: bool): (r: Option<seq<Play>>)
    ensures r.Some? <==> forall i :: 0 <= i < |lines| ==> ParseLine(lines[i], jokers).Some?
    ensures r.Some? ==> |r.value| == |lines|
    ensures r.Some? ==> forall i :: 0 <= i < |lines| ==> Some(r.value[i]) == ParseLine(lines[i], jokers)
  {
    if lines == [] then Some([])
    else
      var init := ParsePlays(lines[..|lines| - 1], jokers);
      var last := ParseLine(lines[|lines| - 1], jokers);
      assert forall i :: 0 <= i < |lines| - 1 ==> lines[..|lines| - 1][i] == lines[i];
      if init.Some? && last.Some? then Some(init.value + [last.value]) else None
  }

  /** `part_1::solution` (`jokers` false) and `part_2::solution` (`jokers`
      true): parse, sort weakest first, and sum rank times bid. */
  method Solution(lines: seq<Line>, jokers: bool) returns (r: Option<nat>)
    ensures r.Some? <==> ParsePlays(lines, jokers).Some?
    ensures r.Some? ==> r.value == Winnings(Ranked(ParsePlays(lines, jokers).value))
  {
    var plays := ParsePlays(lines, jokers);
    if plays.None? {
      return None;
    }
    var ranked := Ranked(plays.value);
    var total := RankTimesBid(ranked);
    return Some(total);
  }

  /** In part 2 no card is a jack: every 'J' of the text is a joker. */
  lemma JacksBecomeJokers(s: seq<char>)
    requires HandFromString(JacksToJokers(s)).Some?
    ensures forall k :: 0 <= k < 5 ==> Cards(HandFromString(JacksToJokers(s)).value)[k] != Jack
    ensures forall k :: 0 <= k < 5 && s[k] == 'J' ==> Cards(HandFromString(JacksToJokers(s)).value)[k] == Joker
  {
  }
}
