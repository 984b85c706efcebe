# Advent of Code 2023, days 1 to 23, as a verified Dafny model

This project models the puzzle solvers of the `advent_of_code_2023` Rust
repository, one Dafny module per day (`Day01` … `Day23`, in `day01.dfy` …
`day23.dfy`), with a small shared module `Common` (`common.dfy`) holding
`Option` and sums. Each `solution` function of the source becomes a `Part1`
and a `Part2` member. The model takes the already-parsed input: lines,
grids of tiles and records. It keeps the source's loops as methods with
invariants, its pure helpers as functions, and its panics (`unwrap`,
`assert!`, an index out of range, a `usize` underflow) as a `None` result.

Every loop method is proved against a specification function written
without loops. The lemmas beside each specification then state what the
puzzle promises. Examples:

- the day 5 interval split tiles its input;
- the day 7 hand order is total;
- the day 10 loop is a closed walk, and the row scanner counts exactly the
  ground tiles met while inside;
- the day 14 tilts are idempotent;
- the day 16 and day 21 flood fills compute a reachability set;
- the day 17 search returns the cheapest path;
- the day 19 range counting counts exactly the accepted parts;
- the day 22 chain reaction removes the least closed set of bricks.

Where the source relies on `HashMap` iteration order, the model takes the
order as a parameter.

## Model

| member | source | states |
|---|---|---|
| Day01.DigitValue | src/day_01.rs:16 | the value of an ASCII digit is at most 9 |
| Day01.FirstDigitIndex | src/day_01.rs:12-15 | the position of the first ASCII digit of the line, or nothing exactly when the line has no digit |
| Day01.LastDigitIndex | src/day_01.rs:18-22 | the position of the last ASCII digit of the line, or nothing exactly when the line has no digit |
| Day01.LineValue | src/day_01.rs:11-25 | the calibration value is missing exactly when the line has no digit (the `unwrap` panics); otherwise it is ten times the line's first digit (no digit before it) plus its last digit (no digit after it), at most 99 |
| Day01.SingleDigitLine | src/day_01.rs:11-25 | a line with a single digit d has value 11·d: the digit is both first and last |
| Day01.Part1 | src/day_01.rs:8-30 | the sum exists exactly when every line has a digit |
| Day01.Part1Bound | src/day_01.rs:29 | the sum is at most 99 per line |
| Day01.MatchIndices | src/day_01.rs:60 | the non-overlapping occurrences of one pattern from a position on, left to right, each a real occurrence, including the leftmost one |
| Day01.MatchIndicesComplete | src/day_01.rs:60 | for a pattern whose occurrences cannot overlap, every occurrence from the search position on is one of the matches |
| Day01.MatchesFrom | src/day_01.rs:58-61 | every match collected from the patterns is a real occurrence of its pattern |
| Day01.AllMatched | src/day_01.rs:58-61 | every occurrence of every one of the eighteen patterns is among the collected matches |
| Day01.MinByPos | src/day_01.rs:64 | the first match of least position |
| Day01.MaxByPos | src/day_01.rs:65 | the last match of greatest position |
| Day01.WordDigit | src/day_01.rs:68-79 | the digit of a pattern index: numerals and words map to 1-9 by the index modulo nine |
| Day01.MatchesValue | src/day_01.rs:64-83 | no value exactly when there is no match; otherwise ten times the digit of the leftmost match plus that of the rightmost, between 11 and 99 |
| Day01.WordsAreValid | src/day_01.rs:51-54 | the eighteen patterns are non-empty and none can overlap itself, so `match_indices` misses no occurrence |
| Day01.LineValue2 | src/day_01.rs:50-84 | a line's value, when it has one, lies between 11 and 99 and is ten times the digit of an occurrence that no other occurrence of any pattern precedes plus the digit of one that no occurrence follows |
| Day01.MatchesValueExtremes | src/day_01.rs:58-84 | the value read off the matches takes its digits from a leftmost and a rightmost occurrence among all occurrences of all patterns |
| Day01.AbortsIffNoPattern | src/day_01.rs:64 | the `unwrap` on the first match panics exactly when no pattern occurs in the line |
| Day01.FirstMatchIsLeftmost | src/day_01.rs:58-64 | the match chosen as first is at or before every occurrence of every pattern |
| Day01.LastMatchIsRightmost | src/day_01.rs:58-65 | the match chosen as last is at or after every occurrence of every pattern |
| Day01.Part2 | src/day_01.rs:46-88 | the sum exists exactly when every line contains a numeral or a digit word |
| Day01.Part2Bounds | src/day_01.rs:87 | the sum lies between 11 and 99 per line |
| Day01.NumeralAndWordAgree | src/day_01.rs:51-54 | the numeral "n" and the word for n have the same digit |
| Day02.ColourTotalAppend | src/day_02.rs:42-49 | the cubes of a colour in two lists together are the sum of each list's |
| Day02.ColourTotalAbsent | src/day_02.rs:42-49 | a colour never named counts zero cubes, as the round starts at zero |
| Day02.TallyRound | src/day_02.rs:24-52 | each colour of the round is the total of the cubes of that colour named in it |
| Day02.PossibleIds | src/day_02.rs:68-83 | the ids kept are exactly those of the games every round of which fits in 12 red, 13 green and 14 blue cubes |
| Day02.ImpossibleGameIgnored | src/day_02.rs:73-81 | a game with a round that does not fit adds nothing to the sum |
| Day02.PossibleIdsAppend | src/day_02.rs:68-83 | filtering two lists of games separately and joining them keeps the same ids in the same order |
| Day02.MaxRoundIsLeastBound | src/day_02.rs:114-124 | each colour of the fewest cubes needed is at least that of every round, and is zero or equal to some round's |
| Day02.MinRequired | src/day_02.rs:114-124 | the loop over the rounds computes the componentwise maximum, an upper bound of every round |
| Day02.Part2 | src/day_02.rs:108-133 | the answer is the sum over the games of the product of the three colours of the fewest cubes needed |
| Day03.SymbolNextTo | src/day_03.rs:44-83 | the eight guarded `is_connected` tests succeed exactly when one of the in-grid cells around the digit is a symbol (neither a digit nor '.') |
| Day03.RunEnd | src/day_03.rs:38-88 | the run of digits from a column ends at the first non-digit or at the end of the row |
| Day03.SkipRun | src/day_03.rs:87-99 | no run starts inside a run or on the cell just after it, so the scan's extra step past a run loses no number |
| Day03.ReadRun | src/day_03.rs:34-88 | the inner loop stops at the end of the run, reads its digits as a decimal number and notes whether any of them touches a symbol |
| Day03.RowPartNumbers | src/day_03.rs:25-100 | one row's scan yields, in order, every maximal run of digits that touches a symbol, read as a number; the `panic!` branch is never taken |
| Day03.Part1 | src/day_03.rs:8-108 | the part numbers of all rows in scan order, and their sum |
| Day03.RunStartAt | src/day_03.rs:155-161 | the first column of the run of digits holding a column: every cell from it on is a digit and the cell before it is not |
| Day03.RunLastAt | src/day_03.rs:162-168 | the last column of the run of digits holding a column: every cell up to it is a digit and the cell after it is not |
| Day03.SameRun | src/day_03.rs:152-170 | two digits joined by digits lie in the same run, so the set of runs around a gear holds each number once |
| Day03.FindNumberRange | src/day_03.rs:152-170 | the closure widens a digit's column to the full run holding it |
| Day03.TestOfNeighbour | src/day_03.rs:177-200 | every digit in one of the eight cells around a gear is found by one of the eight guarded tests, which yields the run holding it |
| Day03.NeighbourOfTest | src/day_03.rs:177-200 | every run a test yields holds a digit adjacent to the gear |
| Day03.OffsetsAreNeighbours | src/day_03.rs:175-200 | the set the eight tests build is exactly the set of runs holding a digit next to the cell |
| Day03.GearRatioAnyOrder | src/day_03.rs:203-219 | whichever order the set yields its two runs in, the gear ratio is the product of their two numbers |
| Day03.NeighbourRunsValid | src/day_03.rs:207-216 | every run found around a cell is a run of digits inside the grid, so parsing it never fails |
| Day03.CollectRuns | src/day_03.rs:175-200 | the eight tests collect exactly the runs holding a digit next to the cell |
| Day03.PairProduct | src/day_03.rs:203-219 | taking the two runs out of the set and multiplying their numbers gives the gear ratio |
| Day03.GearAt | src/day_03.rs:174-221 | a '*' cell with exactly two distinct neighbouring numbers contributes their product; any other cell nothing |
| Day03.RowGearRatios | src/day_03.rs:142-224 | one row's scan yields the gear ratios of its '*' cells, in order |
| Day03.Part2 | src/day_03.rs:125-238 | the gear ratios of all rows in scan order, and their sum |
| Day04.ToSet | src/day_04.rs:25-31 | the set built from a parsed list holds exactly the listed numbers |
| Day04.DuplicateIgnored | src/day_04.rs:29 | a repeated number in a list does not change the set |
| Day04.Matches | src/day_04.rs:63 | the number of shown numbers that are winning numbers is at most the size of either set |
| Day04.IntersectionBound | src/day_04.rs:63 | the intersection of two sets is no larger than either |
| Day04.Pow2 | src/day_04.rs:67 | a power of two is at least 1 |
| Day04.ScoreDoubles | src/day_04.rs:65-68 | no match scores 0, one match scores 1, every further match doubles the score, and a card scores exactly when it has a match |
| Day04.ScoreBelowPow2 | src/day_04.rs:65-68 | a card with m matches scores less than 2^m |
| Day04.Part1 | src/day_04.rs:57-71 | the sum of the card scores is zero exactly when no card has a match |
| Day04.CoversOnlyLater | src/day_04.rs:104 | with cards numbered 1, 2, 3, … a card only wins copies of later cards |
| Day04.Copies | src/day_04.rs:95-111 | each card is held at least once: the original plus one copy per copy of each earlier card that wins it |
| Day04.TotalCopies | src/day_04.rs:96-113 | the cards held before an index number at least that index |
| Day04.AddCopies | src/day_04.rs:104-109 | adding a card's count to the cards `id .. id + m` changes exactly those counts, and fails (the index panics) exactly when the range runs past the last card |
| Day04.Part2 | src/day_04.rs:92-114 | the total exists exactly when no card wins copies past the end; it counts at least one of each card and, for cards numbered 1, 2, 3, …, equals the reference count of copies |
| Day05.SourceContains | src/day_05.rs:142-144 | `source_contains` holds exactly when part 1's test does: the `checked_sub` of the source start succeeds and the offset is below the range (src/day_05.rs:78-79) |
| Day05.LookupFirstCover | src/day_05.rs:77-87 | within one map the first line whose source interval covers the value moves it by that line's offset; a value no line covers passes through unchanged |
| Day05.LookupLoop | src/day_05.rs:77-87 | the inner loop with its `break` computes the one-map lookup |
| Day05.SeedLocation | src/day_05.rs:72-93 | the seed is pushed through every map in order |
| Day05.Part1 | src/day_05.rs:69-99 | the answer is missing exactly when there are no seeds (the `unwrap` panics); otherwise it is the location of some seed and no seed has a lower one |
| Day05.TranslateSeedRange | src/day_05.rs:146-219 | the translated interval is the overlap with the source interval moved to the destination, with the parts before and after left over; there is no result exactly when a non-empty interval misses a non-empty source interval |
| Day05.CasesExclusive | src/day_05.rs:157-214 | the four overlap cases never hold together, so their order does not matter |
| Day05.TranslateTiles | src/day_05.rs:146-219 | the translated interval holds the image of exactly the covered values, and the left-over parts hold exactly the uncovered ones |
| Day05.AllPointsSnoc | src/day_05.rs:264-272 | pushing an interval adds its values to a list's values |
| Day05.AllPointsAppend | src/day_05.rs:285 | appending two interval lists joins their values |
| Day05.ShiftUnion | src/day_05.rs:264 | moving a union of covered values is the union of the moves |
| Day05.TranslateOne | src/day_05.rs:259-273 | one popped interval: its pieces moved hold the image of its covered values and the pieces kept hold its uncovered values, all non-empty |
| Day05.AllProperAppend | src/day_05.rs:251-254 | joining two lists of non-empty intervals keeps them non-empty |
| Day05.SuffixPoints | src/day_05.rs:256 | the values of the pending list are those of the interval popped plus those left |
| Day05.PopStep | src/day_05.rs:256-274 | each pop keeps the invariant: pending values not covered go to the skipped list, covered ones go moved to the new list |
| Day05.CheckProper | src/day_05.rs:251-254 | the `assert!` sweep passes exactly when every pending interval is non-empty |
| Day05.ApplyLine | src/day_05.rs:249-280 | one map line fails exactly when a pending interval is empty; otherwise the uncovered values stay pending and the covered ones join the new list, moved by the line |
| Day05.UncoveredStep | src/day_05.rs:247-281 | after one more line, the still-uncovered values lose those the line covers |
| Day05.CoveredImageStep | src/day_05.rs:247-281 | each line takes exactly the values no earlier line covered and sends them where the whole map does |
| Day05.ImageSplit | src/day_05.rs:245-290 | after all lines, the moved values and the untouched ones together are the map's image |
| Day05.ApplyMap | src/day_05.rs:245-290 | moving interval lists through one map gives exactly the image of their values under the part-1 lookup, and with non-empty intervals and lines never fails |
| Day05.LocationsPointwise | src/day_05.rs:245-290 | moving a whole set through the maps gives exactly the part-1 location of each of its values |
| Day05.AllPointsMember | src/day_05.rs:123-126 | a value is held by an interval list exactly when some interval holds it |
| Day05.ProperPointsEmpty | src/day_05.rs:294 | a list of non-empty intervals holds no value exactly when it is empty |
| Day05.MinStart | src/day_05.rs:294 | the smallest interval start, missing exactly when the list is empty |
| Day05.MinStartIsLeast | src/day_05.rs:294 | for non-empty intervals the smallest start is the least value held |
| Day05.LowestLocation | src/day_05.rs:238-297 | with non-empty intervals and map lines, no `assert!` fails, an answer exists exactly when there are intervals, and it is the least location of any value they hold |
| Day05.SeedRanges | src/day_05.rs:226-232 | one interval per (start, length) pair, built as written with end `start + len - 1`; missing for an odd list or a `0 + 0 - 1` underflow |
| Day05.Part2 | src/day_05.rs:222-298 | part 2 as written: an answer is the least location of the values of the intervals as built |
| Day05.IntendedSeedRanges | src/day_05.rs:226-232 | the intended intervals exist exactly when the list has an even length |
| Day05.IntendedRangesHoldEverySeed | src/day_05.rs:226-232 | the intended intervals hold exactly the listed seeds |
| Day05.Part2Corrected | src/day_05.rs:222-298 | with the intended ends, the answer is the lowest part-1 location of any listed seed, and exists exactly when some pair is listed |
| Day05.LastSeedLost | src/day_05.rs:230 | as written, seeds "79 14" with a map "0 92 1" list seed 92 (location 0), yet part 2 answers 79 |
| Day06.DistanceExamples | src/day_06.rs:76-83 | the distance examples of the source's own test: charging 10, 0, 5, 4 or 8 of 10 ms travels 0, 0, 25, 24 and 16 |
| Day06.DistanceSymmetric | src/day_06.rs:29-36 | charging for c or for total − c travels equally far |
| Day06.DistanceAtMostQuarterSquare | src/day_06.rs:29-36 | no charge time travels further than a quarter of the total squared |
| Day06.Beating | src/day_06.rs:49-54 | the charge times below a bound that beat the record number no more than the bound |
| Day06.DistanceDifference | src/day_06.rs:29-36 | going from charge x to charge y changes the distance by (y − x)(total − x − y) |
| Day06.WinnersContiguous | src/day_06.rs:49-54 | every charge time between two winning times wins too |
| Day06.WaysBeat | src/day_06.rs:47-56 | the loop counts the charge times in `0..max_time` that beat the record, at most `max_time` of them |
| Day06.ProductZero | src/day_06.rs:62 | the product is zero exactly when some race cannot be won |
| Day06.RaceCounts | src/day_06.rs:46-57 | one count per pair of the zipped lists, which stops at the shorter one; each count is at most that race's time |
| Day06.Part1 | src/day_06.rs:38-63 | the answer is the product of the ways to win each race |
| Day06.Part2 | src/day_06.rs:88-90 | part 2 runs part 1 unchanged |
| Day07.CardCharRoundTrip | src/day_07.rs:30-50 | reading a card's character gives the card back, and any character that is read is the character of the card it gives |
| Day07.CardValue | src/day_07.rs:53-70 | card values run from 1 (only the joker) to 14 (only the ace) |
| Day07.CardValueInjective | src/day_07.rs:73-77 | distinct cards have distinct values, so cards compare equal only when equal |
| Day07.Strength | src/day_07.rs:122-132 | a type's strength is at most 6 |
| Day07.StrengthInjective | src/day_07.rs:135-139 | distinct hand types have distinct strengths |
| Day07.HandFromString | src/day_07.rs:87-100 | a hand is read exactly when the text has at least five characters, each a card character (otherwise it panics); its cards are those five in order |
| Day07.Distinct | src/day_07.rs:148-170 | the labels of a hand, each once, exactly the labels occurring in it |
| Day07.RemoveJoker | src/day_07.rs:175-181 | removing the joker key keeps exactly the other labels |
| Day07.RemoveJokerNoRepeats | src/day_07.rs:175-181 | removing the joker key keeps the labels free of repeats |
| Day07.CountsOf | src/day_07.rs:183 | one count per label, each the number of times that label occurs |
| Day07.Ones | src/day_07.rs:190 | `resize` adds as many singleton counts as there were jokers |
| Day07.MaxOf | src/day_07.rs:200-203 | the largest count, which is one of the counts, or 0 for none |
| Day07.CountsOfSnoc | src/day_07.rs:148-170 | one more card adds one to the total count of a list of labels exactly when it is one of them |
| Day07.LabelsSnoc | src/day_07.rs:148-170 | one more card adds a new label exactly when it is neither a joker nor already in the hand |
| Day07.ProfileSum | src/day_07.rs:148-183 | every card is a joker or counted in exactly one group |
| Day07.GroupsPartition | src/day_07.rs:183-190 | the counts sorted by the source are positive and add up to the number of cards |
| Day07.InsertNat | src/day_07.rs:192 | inserting into an ascending list keeps it ascending and adds exactly that element |
| Day07.SortNats | src/day_07.rs:192 | `sort` on the counts yields an ascending permutation |
| Day07.PartitionsOfFive | src/day_07.rs:209-218 | the ascending positive lists summing to five are exactly the seven patterns the match arms name, so the `panic!` arm is unreachable |
| Day07.SortedMax | src/day_07.rs:192-203 | the last element of the sorted counts is the largest count |
| Day07.SortedGroups | src/day_07.rs:183-218 | the sorted counts of a five-card hand are one of the seven patterns, with its largest count last |
| Day07.CountLabels | src/day_07.rs:148-170 | the insert-or-increment steps map exactly the labels of the hand to their numbers of occurrences, keys in insertion order |
| Day07.ValuesInOrder | src/day_07.rs:183 | `into_values` lists each remaining key's count in key order |
| Day07.GroupCounts | src/day_07.rs:173-190 | taking the jokers out and adding one singleton per joker gives the non-joker group sizes followed by the jokers |
| Day07.TypeOfPattern | src/day_07.rs:200-218 | the match on the counts from the largest down gives the type fixed by the largest group and the number of groups |
| Day07.HandTypeOf | src/day_07.rs:147-221 | `hand_type` gives the plain type of the hand, jokers counted as singletons |
| Day07.NumJokers | src/day_07.rs:224-227 | a hand holds at most five jokers |
| Day07.Upgrade | src/day_07.rs:241-266 | the upgrade table answers exactly when there are at most five jokers |
| Day07.HandTypeWithJokerOf | src/day_07.rs:223-267 | `hand_type_with_joker` gives the part 2 type: the plain type without jokers, never weaker than it |
| Day07.SumAtLeastMax | src/day_07.rs:183-190 | positive groups sum to at least the largest plus one per other group |
| Day07.UpgradeTableIsBest | src/day_07.rs:241-266 | for every possible shape of the non-joker groups, the upgrade table gives the type reached by adding the jokers to the largest group |
| Day07.GroupShape | src/day_07.rs:147-190 | the shape facts of five cards the upgrade table relies on: group sizes bounded by the non-joker cards, and the count list's length and maximum |
| Day07.UpgradeIsBestOnCards | src/day_07.rs:223-267 | on any five cards the upgraded plain type is the type of the groups with the jokers joined to the largest |
| Day07.JokersJoinLargestGroup | src/day_07.rs:223-267 | the part 2 type is the type reached by letting every joker join the largest group of the other cards (five jokers make five of a kind) |
| Day07.UpgradeFacts | src/day_07.rs:241-266 | no jokers leaves the type unchanged, jokers never weaken it, and four or five jokers give five of a kind |
| Day07.JokerUpgradeFacts | src/day_07.rs:223-267 | for every hand: without jokers the part 2 type is the plain type, jokers never weaken a hand, and four or more jokers make five of a kind |
| Day07.CompareNat | src/day_07.rs:75 | the comparison of two numbers is Equal or Less exactly when they are equal or the first is smaller |
| Day07.CompareKeysEqual | src/day_07.rs:270-308 | the lexicographic comparison is Equal exactly on equal keys and flips when the operands are swapped |
| Day07.CompareKeysTransitive | src/day_07.rs:270-308 | the lexicographic comparison is transitive |
| Day07.Key | src/day_07.rs:270-308 | a hand is compared by six numbers: its part 2 type strength and the values of its five cards |
| Day07.KeyInjective | src/day_07.rs:270-308 | different hands have different keys |
| Day07.CompareHandsEqualAndFlip | src/day_07.rs:270-308 | only identical hands compare equal, and swapping the hands flips the result |
| Day07.CompareHandsTransitive | src/day_07.rs:270-308 | the hand comparison is transitive, so `sort_by` has a total order to follow |
| Day07.InsertBy | src/day_07.rs:353 | inserting by key adds exactly that element |
| Day07.InsertBySorted | src/day_07.rs:353 | inserting into a list sorted by key keeps it sorted |
| Day07.SortBy | src/day_07.rs:353 | the sort yields a permutation of the input sorted from weakest to strongest |
| Day07.SortedFirstIsLeast | src/day_07.rs:353 | the first element of a sorted list is no stronger than any other |
| Day07.SortedHeads | src/day_07.rs:353 | two sorted permutations of the same distinct-key elements start with the same element |
| Day07.SortedUnique | src/day_07.rs:353 | with distinct keys there is only one sorted order |
| Day07.RankTimesBid | src/day_07.rs:356-363 | the enumeration sums each bid times its rank, the weakest hand ranking 1 |
| Day07.WinningsIgnoreLineOrder | src/day_07.rs:340-367 | with distinct hands the ranking, and so the winnings, do not depend on the order of the lines |
| Day07.JacksToJokers | src/day_07.rs:389 | `replace('J', "*")` turns exactly the J characters into '*' and leaves no J |
| Day07.ParsePlays | src/day_07.rs:341-350 | the plays exist exactly when every line's hand parses, one play per line in order |
| Day07.Solution | src/day_07.rs:340-367 | each part (part 2 at lines 384-415, with jacks read as jokers) gives the winnings of the parsed plays sorted weakest first, or nothing when a hand does not parse |
| Day07.JacksBecomeJokers | src/day_07.rs:389-391 | in part 2 no card is a jack: every J of the text is read as a joker |
| Day08.BuildNetwork | src/day_08.rs:32-48 | the two maps built by the fold have the same nodes |
| Day08.BuildNetworkLastWins | src/day_08.rs:41-48 | a node is in the network exactly when some line starts with it, and its successors are those of the last such line |
| Day08.WalkStuck | src/day_08.rs:57-63 | once a step panics (unknown direction or node), every later step does too |
| Day08.Part1 | src/day_08.rs:28-77 | an answer exists exactly when the walk from AAA lands on ZZZ within the iteration limit, and it is the number of the first step that does |
| Day08.MultipleDivides | src/day_08.rs:135 | d divides every multiple d·k, and (d·k)/d is k |
| Day08.DividesStep | src/day_08.rs:127-133 | a divisor of y divides x % y exactly when it divides x, so each remainder step keeps the common divisors |
| Day08.Gcd | src/day_08.rs:127-133 | the remainder loop ends on a positive value when either argument is positive |
| Day08.GcdSymmetric | src/day_08.rs:119-125 | swapping the arguments does not change the result, so ordering them first is harmless |
| Day08.GcdIsGreatest | src/day_08.rs:127-133 | the remainder loop's result divides both arguments, and every common divisor divides it |
| Day08.LcmIsCommonMultiple | src/day_08.rs:115-136 | for positive arguments `lcm` is a positive common multiple of both, at most their product |
| Day08.LcmExamples | src/day_08.rs:138-143 | the source's own `lcm` examples: 4, 5 → 20; 12, 16 → 48; 10, 9 → 90 |
| Day08.Lcm | src/day_08.rs:115-136 | the loop computes `lcm`, failing (the `%` by zero) when the smaller argument is zero |
| Day08.LcmFoldStuck | src/day_08.rs:238 | once an `lcm` in the fold fails, the whole fold fails |
| Day08.LcmFoldCommonMultiple | src/day_08.rs:238 | folding positive values with `lcm` gives a positive common multiple of all of them |
| Day08.ZHits | src/day_08.rs:190-220 | the iterations at which the walk stands on a node ending in Z, ascending and within the iterations run |
| Day08.ObservedFrozen | src/day_08.rs:194 | from the second Z-hit on, a status no longer changes |
| Day08.ObservedStuck | src/day_08.rs:195-199 | before the second Z-hit, a walk that panicked stays failed |
| Day08.ObservedPlainStep | src/day_08.rs:193-207 | a step that does not land on Z only moves the node |
| Day08.ObservedFirstZ | src/day_08.rs:201-206 | the first step onto Z records its iteration |
| Day08.ObservedSecondZ | src/day_08.rs:201-206 | the second step onto Z records the distance from the first |
| Day08.TrackObserved | src/day_08.rs:190-220 | each status holds exactly what the walk alone shows: its node, its first Z-hit and the distance to the second |
| Day08.TrackAllStep | src/day_08.rs:190-208 | one iteration advances every status, and once one fails all fail |
| Day08.AdvanceStatuses | src/day_08.rs:193-208 | the `iter_mut` pass advances every status by one iteration |
| Day08.Starts | src/day_08.rs:178-186 | the walks start at exactly the nodes ending in A |
| Day08.FinishStatuses | src/day_08.rs:225-238 | the final `assert_eq!`, the `unwrap` of each cycle and `reduce(lcm)` |
| Day08.Part2 | src/day_08.rs:145-242 | the loop over iterations computes the answer of the walks from the starts |
| Day08.NoDirectionsNoAnswer | src/day_08.rs:170-174 | with no directions there is no answer |
| Day08.Part2Meaning | src/day_08.rs:145-242 | an answer exists only when every walk has hit Z twice, the second time at exactly twice the first; it is then the `lcm` of the first-hit iterations, a multiple of each |
| Day09.Diff | src/day_09.rs:8-11 | the differences exist exactly when there are more than two readings (the `assert!` panics otherwise), one fewer than the readings |
| Day09.DiffPrefixSums | src/day_09.rs:8-11 | the differences determine the readings: each reading is the first plus the sum of the differences before it |
| Day09.DiffExample | src/day_09.rs:13-18 | the source's own example: 1 3 6 10 15 21 has differences 2 3 4 5 6 |
| Day09.RowsShape | src/day_09.rs:36-40 | the rows start with the readings, each next row is the difference row of the one before, only the last is all zero, and every row after the first has at least two readings |
| Day09.ChainStep | src/day_09.rs:38-40 | pushing the difference row of a non-zero last row keeps the rows the whole loop builds |
| Day09.BuildRows | src/day_09.rs:36-40 | the `while` loop pushes exactly those rows, or fails when a difference panics |
| Day09.Lasts | src/day_09.rs:47 | one last reading per row |
| Day09.Firsts | src/day_09.rs:103 | one first reading per row |
| Day09.FoldForward | src/day_09.rs:45-50 | the fold from the bottom row up sums the last readings, failing exactly when a row is empty |
| Day09.FoldBackward | src/day_09.rs:101-106 | the fold from the bottom row up gives the alternating sum of the first readings, failing exactly when a row is empty |
| Day09.RowsStep | src/day_09.rs:36-40 | the rows of a non-zero sequence are the sequence followed by the rows of its difference row |
| Day09.NextExtendsDifferences | src/day_09.rs:32-51 | the forward prediction extends every row consistently: 0 for an all-zero row, and otherwise appending it to the readings appends the difference row's own prediction to the difference row |
| Day09.NextStep | src/day_09.rs:45-50 | below the top row, the forward prediction is the last reading plus the difference row's prediction |
| Day09.DiffSnoc | src/day_09.rs:8-11 | appending a reading appends its difference from the last one |
| Day09.DiffCons | src/day_09.rs:8-11 | prepending a reading prepends the first reading's difference from it |
| Day09.PrevStep | src/day_09.rs:101-106 | below the top row, the backward prediction is the first reading minus the difference row's prediction |
| Day09.PrevExtendsDifferences | src/day_09.rs:88-107 | the backward prediction extends every row consistently at the front |
| Day09.Extrapolate | src/day_09.rs:34-51 | one report line of part 1 gives its forward prediction |
| Day09.ExtrapolateBack | src/day_09.rs:90-107 | one report line of part 2 gives its backward prediction |
| Day09.TotalDefined | src/day_09.rs:55 | a total exists exactly when every line has a prediction |
| Day09.Part1 | src/day_09.rs:20-58 | the sum of the forward predictions of all lines |
| Day09.Part2 | src/day_09.rs:76-114 | the sum of the backward predictions of all lines |
| Day09.TotalStuck | src/day_09.rs:32-55 | once a line fails, the whole total fails |
| Day10.ReverseFacts | src/day_10.rs:40-68 | reversing a direction is an involution with no fixed point, negates its offset, and moving one way and then back returns to the same position |
| Day10.OtherDirIsOtherConnection | src/day_10.rs:76-118 | `get_other_dir` answers exactly for the pipes that open towards the given direction (it panics otherwise), and its answer is the pipe's other opening |
| Day10.PipeCharRoundTrip | src/day_10.rs:127-158 | reading a character and writing a pipe are inverse: a character reads as a pipe exactly when that pipe writes as it, and every pipe survives a write and a read |
| Day10.GetPipe | src/day_10.rs:270-275 | a position yields a pipe exactly when both coordinates are non-negative and inside the grid (the source panics otherwise), and the pipe is the one stored there |
| Day10.FindInRow | src/day_10.rs:166-172 | the index found is the first start tile of the row at or after the given column, and no start tile exists there when none is found |
| Day10.FindStartFrom | src/day_10.rs:162-174 | the position found is the first start tile in reading order from the given row, and the grid holds no start tile there when none is found |
| Day10.StartShapeIsFirstFitting | src/day_10.rs:203-241 | the start's shape is the first of horizontal, south-east, south-west, north-east, north-west and vertical whose two openings face neighbours that open back, or none (the source panics) |
| Day10.ConnectorSets | src/day_10.rs:203-239 | each neighbour set in the source's match is exactly the set of pipes that open back towards the start |
| Day10.FirstFittingUnfolded | src/day_10.rs:203-241 | the first-fitting search written out as the source's six match arms in order |
| Day10.NewGridRewritesStartOnly | src/day_10.rs:161-250 | a built grid keeps the shape of the input and every cell but the first start tile in reading order, which becomes the grid's start |
| Day10.NewGridShapeFits | src/day_10.rs:203-247 | the pipe written into the start cell opens on both sides towards neighbours that open back |
| Day10.FirstFittingFits | src/day_10.rs:203-241 | any shape the search returns fits the start's neighbours |
| Day10.WalkFollowsConnections | src/day_10.rs:284-287 | a walk step stands on a pipe, enters it through one of its openings and leaves through the other, moving one cell that way |
| Day10.BlockedDirEntersPipe | src/day_10.rs:300-309 | the starting blocked direction exists exactly for real pipes (the source panics on ground and start), and its reverse is an opening of the pipe, so the first step is defined |
| Day10.FirstReturn | src/day_10.rs:315-332 | the step count at which the walk first comes back to the start lies between the count searched from and the path-length bound of the source's `assert` |
| Day10.FirstReturnIsLoopLength | src/day_10.rs:315-336 | the first return is the loop length: every step before it is defined and off the start, and the walk stands on the start there |
| Day10.FirstReturnStep | src/day_10.rs:315-332 | one step of the search for the first return: a failed step ends it, reaching the start ends it with the current count, any other cell moves on, and nothing is found past the bound |
| Day10.PathTo | src/day_10.rs:315-332 | the collected path has one position per step taken |
| Day10.PathToAt | src/day_10.rs:315-332 | position `i` of the collected path is where the walk stands after `i + 1` steps |
| Day10.WalkFrom | src/day_10.rs:317 | one call of `walk` moves the walker after `k` steps to the walker after `k + 1` steps |
| Day10.TracePath | src/day_10.rs:312-332 | the loop over `walk` yields a path exactly when the walk returns to the start within the bound, and the path is every position visited before that return |
| Day10.TraceFrom | src/day_10.rs:314-331 | the `from_fn` loop from the starting walker: it yields a path exactly when the walk returns to the start within the bound, and that path is every position visited before the return |
| Day10.TraceStep | src/day_10.rs:316-324 | one call of the closure: a failed walk means the walk never returns; a step onto the start ends the path as it is; any other step within the bound extends the path by the new cell |
| Day10.FindLoop | src/day_10.rs:300-336 | the traced loop is the path plus the start, as the loop specification defines it |
| Day10.LoopIsClosedWalk | src/day_10.rs:312-336 | the traced loop ends at the start, meets it nowhere before, and each cell is one step from the previous one through an opening of the previous pipe |
| Day10.LoopCellStep | src/day_10.rs:284-287 | each loop cell is one step from the cell before it through an opening of that cell's pipe, and only the last is the start |
| Day10.LoopCellAt | src/day_10.rs:315-336 | loop cell `k` is where the walk stands after `k + 1` steps |
| Day10.Part1 | src/day_10.rs:290-342 | part 1 answers half the loop length, and no answer where the source panics |
| Day10.LoopOnly | src/day_10.rs:435-442 | clearing off-loop cells keeps the grid's shape |
| Day10.ClearCells | src/day_10.rs:435-437 | the nested loop turns every cell into ground |
| Day10.RestoreLoop | src/day_10.rs:440-442 | writing the loop's pipes back over the cleared grid gives the grid with only the loop kept |
| Day10.SameCells | src/day_10.rs:435-442 | a grid of the same shape holding the loop pipes on loop cells and ground elsewhere is the loop-only grid |
| Day10.DriveAppend | src/day_10.rs:446-531 | running the row scanner over one more tile is one more step of its state machine |
| Day10.ScanState | src/day_10.rs:446-531 | scanning a row succeeds exactly when the state machine runs through it from outside, ending in the state it reaches |
| Day10.DriveHorizontals | src/day_10.rs:481-527 | while on an edge, horizontal pipes leave the state unchanged |
| Day10.CrossingsFlip | src/day_10.rs:450-528 | crossing a vertical pipe, or an edge that enters from one side and leaves on the other, flips between inside and outside; an edge that enters and leaves on the same side keeps the state |
| Day10.ScanPrefix | src/day_10.rs:446-531 | scanning keeps the row's length and the marks of a prefix are the prefix of the marks |
| Day10.ScanCell | src/day_10.rs:446-531 | each marked cell depends only on the state reached before it and the tile itself |
| Day10.ScanMarksInsideGround | src/day_10.rs:446-531 | a successful scan marks exactly the ground tiles met while inside, and leaves every other tile as it was |
| Day10.ScanRow | src/day_10.rs:446-531 | the per-row loop yields the scan's marked row, and nothing where a tile panics |
| Day10.ScanStuck | src/day_10.rs:446-531 | a tile the state machine refuses makes the whole row's scan fail |
| Day10.ScanAll | src/day_10.rs:446-532 | scanning all rows succeeds exactly when every row's scan does, and gives the marked rows in order |
| Day10.CountMarked | src/day_10.rs:536-547 | the double sum counts the tiles marked inside |
| Day10.LoopOnGrid | src/day_10.rs:425-442 | every loop position lies on the grid, so writing it back cannot panic |
| Day10.Part2 | src/day_10.rs:381-552 | part 2 answers the count of ground tiles found inside the loop after clearing everything else, and no answer where the source panics |
| Day11.TileCharRoundTrip | src/day_11.rs:33-36 | `.` and `#` are the only tile characters, and reading a tile's character gives the tile back |
| Day11.ParseRow | src/day_11.rs:31-38 | a line parses iff every character is `.` or `#`; the row then has one tile per character |
| Day11.Where | src/day_11.rs:44-54 | the filter lists, in strictly increasing order and below the bound, exactly the positions that pass the test |
| Day11.EmptyRowsAreEmpty | src/day_11.rs:44-54 | a row index is listed iff every tile of that row is `Empty` |
| Day11.InsertBefore | src/day_11.rs:61-64 | inserting at the listed indices in descending order puts one copy of the filler before each listed original element (`Stretch`), so earlier indices stay valid |
| Day11.StretchRowsWide | src/day_11.rs:57-80 | after the blank rows are inserted every row reaches the first row's width iff every original row did (else the column test panics) |
| Day11.ExpandColumns | src/day_11.rs:84-90 | inserting an `Empty` at each empty column, last column first, in every row gives every row stretched before the listed columns |
| Day11.ColumnsSame | src/day_11.rs:68-80 | the empty columns found after the rows were doubled are the empty columns of the original image |
| Day11.GalaxyOffLines | src/day_11.rs:44-80 | no galaxy lies on an empty row or an empty column |
| Day11.ExpandedGalaxies | src/day_11.rs:61-106 | expansion neither adds nor removes a galaxy: the expanded image's galaxies are the original ones, in order, each moved right by the empty columns and down by the empty rows before it |
| Day11.DistanceFacts | src/day_11.rs:110-121 | the pair distance is symmetric and zero only for the same cell |
| Day11.Part1 | src/day_11.rs:28-127 | computes part 1: no answer on an empty image or a short row, else the distance summed over the unordered pairs of galaxies of the expanded image |
| Day11.ShiftedDistance | src/day_11.rs:263-305 | the plain distance of two moved galaxies is part 2's distance with factor 2: each empty line in the closed span between them counted once more |
| Day11.Part1AsFactorTwo | src/day_11.rs:28-127 | part 1's answer equals part 2's expanded-distance formula with an expansion factor of 2 |
| Day11.MarkRows | src/day_11.rs:207-212 | every tile of each listed row becomes `HorizontalExpand`; other rows are unchanged |
| Day11.ClearColumnsSame | src/day_11.rs:216-228 | on the row-marked image the columns without a galaxy are exactly the empty columns of the image |
| Day11.MarkColumns | src/day_11.rs:232-241 | each tile on a listed column is widened (`Empty` to `VerticalExpand`, `HorizontalExpand` to `AllExpand`); other tiles unchanged |
| Day11.MarkWidenable | src/day_11.rs:232-241 | every tile the column marking meets is `Empty` or `HorizontalExpand`, so the panic arm is unreachable |
| Day11.RowsMarkedKeepGalaxies | src/day_11.rs:207-212 | row marking keeps every galaxy and creates none |
| Day11.ColumnsMarkedKeepGalaxies | src/day_11.rs:232-257 | column marking keeps every galaxy and creates none |
| Day11.Part2AnswerFormula | src/day_11.rs:174-313 | part 2's answer is the sum over unordered galaxy pairs of `|dx| + |dy|` plus 999999 for each empty column and row in the closed span, with factor 1,000,000 |
| Day11.Part2 | src/day_11.rs:174-313 | computes part 2's answer (rows marked, columns marked, galaxies found, distances summed) |
| Day12.SpringCharRoundTrip | src/day_12.rs:24-43 | the character conversions are inverse to each other on `.`, `#`, `?` |
| Day12.HasOperational | src/day_12.rs:57 | the `any` over `1..=len` holds iff some spring in that range is operational |
| Day12.Placeable | src/day_12.rs:48-66 | false when the slice is shorter than `len + 2`; otherwise true iff `map[0]` is not damaged, `map[1..=len]` holds no operational spring and `map[len + 1]` is not damaged |
| Day12.Arrangements | src/day_12.rs:68-122 | the in-place recursion returns the count of the scan, and the map is unchanged on return because each temporary damaged mark is restored |
| Day12.PlacedGroup | src/day_12.rs:86-117 | one window of the scan adds exactly the ways in which a damaged run starts at the matching spring of the row |
| Day12.ChildWays | src/day_12.rs:90-100 | the recursive call on the rest of the map, its first spring overwritten as damaged, counts the ways for the springs after the separator |
| Day12.ScanWays | src/day_12.rs:74-82 | the scan from a window on, stopping at the first damaged spring it would skip, counts the ways for the rest of the row |
| Day12.WaysNone | src/day_12.rs:103-113 | with no group left a completion exists, exactly one, iff no damaged spring remains |
| Day12.CountIsWays | src/day_12.rs:68-122 | on a row padded with an operational spring each side, `arrangements` equals the number of ways to fill in the unknown springs so that the damaged runs have exactly the listed (positive) lengths |
| Day12.ArrangementExample1 | src/day_12.rs:124-133 | `arrangements([O,U,U,U,O,D,D,D,O], [1,1,3]) = 1` |
| Day12.ArrangementExample2 | src/day_12.rs:135-145 | `arrangements([O,U,U,U,O,D,O,D,O], [1,1,1]) = 3` |
| Day12.FiveCopies | src/day_12.rs:310-318 | appending the list four times gives five copies of it |
| Day12.CountLine | src/day_12.rs:166-169 | counting a line in place on a fresh array gives its count |
| Day12.SolveLine | src/day_12.rs:147-176 | a line's count: no answer when its group list is empty, else the padded row (part 1) or the five-fold unfolded row and list (part 2) counted |
| Day12.Solve | src/day_12.rs:291-350 | both parts (part 2 shown): the line counts summed, no answer as soon as one line has none |
| Day12.AnswerIsWays | src/day_12.rs:147-176 | both parts' answers are the ways to complete every line summed (part 2 on the rows joined by unknown springs and the lists repeated five times), when all group lengths are positive |
| Day13.MirrorPairs | src/day_13.rs:15-30 | a mirror after `idx` pairs `min(idx+1, size-idx-1)` positions, each pair inside the image, straddling the mirror, summing to `2*idx+1`, nearest first |
| Day13.MirrorPairsComplete | src/day_13.rs:15-30 | every in-range pair at equal distance on either side of the mirror is enumerated |
| Day13.MirrorPairsExamples | src/day_13.rs:32-42 | the two inline vectors: (4,9) and (2,9) |
| Day13.MirroredVerticalReflects | src/day_13.rs:53-67 | the vertical test holds iff every row reads the same at any two columns mirrored about the line |
| Day13.MirroredHorizontalReflects | src/day_13.rs:97-109 | the horizontal test holds iff any two rows mirrored about the line are equal |
| Day13.ColumnDefectsZero | src/day_13.rs:77-89 | a pair of columns has no defect iff every row agrees on them |
| Day13.MirroredVerticalNoDefects | src/day_13.rs:53-95 | the vertical test holds iff the vertical defect count is zero |
| Day13.RowDefectsZero | src/day_13.rs:119-125 | two zipped rows have no defect iff they agree up to the end of the shorter |
| Day13.MirroredHorizontalNoDefects | src/day_13.rs:97-130 | on a rectangular image the horizontal test holds iff the horizontal defect count is zero |
| Day13.Columns | src/day_13.rs:69-95 | the columns of a rectangular image: width many, each as tall as the image, cell by cell the transpose |
| Day13.ColumnDefectsTransposed | src/day_13.rs:77-89 | defects between two columns equal the zipped-row defects of those columns of the transpose |
| Day13.VerticalIsTransposedHorizontal | src/day_13.rs:69-130 | vertical defects and test equal the horizontal ones of the transposed image |
| Day13.Find | src/day_13.rs:150-151 | `(lo..hi).find(p)`: the least index in range satisfying `p`, or none satisfies it |
| Day13.SummaryVertical | src/day_13.rs:147-154 | the leftmost vertical line scores `i+1` |
| Day13.SummaryHorizontal | src/day_13.rs:155-159 | with no vertical line, the topmost horizontal line scores `100*(i+1)` |
| Day13.SummaryPanics | src/day_13.rs:160-162 | the note panics iff the image is empty, has an empty first row, or has no line |
| Day13.SmudgedLineIsNotPerfect | src/day_13.rs:215-216 | a line with exactly one defect is never a perfect part-1 line |
| Day13.Answer | src/day_13.rs:212-234 | the sum of the notes exists iff every image has a note |
| Day14.PassKeeps | src/day_14.rs:29-36 | one pass of swaps keeps the line's length and multiset of cells, leaves every other character (cube rocks) in place, and keeps round and empty cells within those two kinds |
| Day14.PassesKeep | src/day_14.rs:28-37 | any number of passes keeps the same multiset and cube positions |
| Day14.TiltSettled | src/day_14.rs:24-38 | after as many passes as the line is long, no round rock sits right after an empty cell in the direction of the tilt (every rock has rolled as far as it can) |
| Day14.LagPasses | src/day_14.rs:28-37 | each pass lowers the settling measure by one, so `k` passes leave at most `len - k` of it |
| Day14.TiltIdempotent | src/day_14.rs:24-38 | tilting a tilted line changes nothing |
| Day14.PassStep | src/day_14.rs:29-36 | the compare-and-swap at index `j` turns "final prefix before `j` + pass of the rest" into the same form one index further |
| Day14.CompareRows | src/day_14.rs:30-35 | the innermost loop applies the swap at rows `j, j + 1` to every column and to nothing else |
| Day14.PassColumns | src/day_14.rs:29-36 | one sweep over rows `0..n-1` is one pass over every column |
| Day14.TiltColumns | src/day_14.rs:24-38 | the triple loop over a rectangular platform yields exactly the column-wise tilt `ColumnsTilted` |
| Day14.CompareColumns | src/day_14.rs:107-114 | the innermost loop along rows applies the swap at columns `j - 1, j` to every row |
| Day14.PassRows | src/day_14.rs:106-115 | one sweep over the columns is one pass over every row |
| Day14.TiltRows | src/day_14.rs:102-116 | the triple loop yields exactly the row-wise tilt `RowsTilted` |
| Day14.TiltNorth | src/day_14.rs:24-38 | rocks roll north: the column-wise tilt with round rocks moving towards row 0 |
| Day14.TiltSouth | src/day_14.rs:86-100 | rocks roll south: the column-wise tilt in the other direction |
| Day14.TiltEast | src/day_14.rs:102-116 | rocks roll east: the row-wise tilt towards the end of each row |
| Day14.TiltWest | src/day_14.rs:118-132 | rocks roll west on a square platform (the source indexes rows by the column count) |
| Day14.ColumnsTiltedColumns | src/day_14.rs:24-38 | every column of the north/south tilt is that column tilted |
| Day14.ColumnsTiltedKeep | src/day_14.rs:24-38 | a column tilt keeps every column's rocks and cubes |
| Day14.RowsTiltedKeep | src/day_14.rs:102-116 | a row tilt keeps every row's rocks and cubes |
| Day14.NorthSettled | src/day_14.rs:24-38 | after the north tilt no round rock has an empty cell directly north of it |
| Day14.ColumnsTiltedIdempotent | src/day_14.rs:24-38 | tilting north (or south) twice is tilting once |
| Day14.RowsTiltedIdempotent | src/day_14.rs:102-132 | tilting east (or west) twice is tilting once |
| Day14.CountRoundMultiset | src/day_14.rs:46 | the per-row count of round rocks is their multiplicity in the row |
| Day14.WeightedIsProduct | src/day_14.rs:46 | a row's load is its rock count times its distance from the south edge |
| Day14.RowLoads | src/day_14.rs:40-47 | row `r` contributes its rock count weighted by `n_rows - r` |
| Day14.NorthSwapLoad | src/day_14.rs:31-34 | the north swap (a rock moving one row up) raises the north load by exactly one |
| Day14.Part1 | src/day_14.rs:52-65 | the answer is the north load of the north-tilted platform |
| Day14.Cycle | src/day_14.rs:134-141 | a spin cycle tilts north, west, south, east in turn and is the function `Cycled` |
| Day14.CycledOver | src/day_14.rs:134-141 | a cycle only rearranges characters already on the platform |
| Day14.CycledKeepsCubes | src/day_14.rs:134-141 | cube rocks never move during a cycle |
| Day14.IterateOver | src/day_14.rs:155-167 | every platform of the spin sequence is square, of the same size, over the same characters (so there are finitely many) |
| Day14.OrbitAdd | src/day_14.rs:155-167 | `m + n` cycles are `n` cycles after `m` |
| Day14.OrbitPeriod | src/day_14.rs:193-211 | once a platform recurs after `p` cycles, the sequence repeats with period `p` from there |
| Day14.InAllGrids | src/day_14.rs:155-167 | every platform over the given characters lies in the finite universe of platforms of that shape |
| Day14.IndicesOfOnce | src/day_14.rs:179-183 | a platform occurring once in the history is found at exactly its index |
| Day14.NoRepeat | src/day_14.rs:155-167 | a duplicate-free history means no two of the first `n` platforms coincide |
| Day14.HistoryGrows | src/day_14.rs:155-165 | pushing a new platform keeps the history the duplicate-free prefix of the spin sequence |
| Day14.RepeatFound | src/day_14.rs:179-186 | when the loop stops, the repeated platform occurs exactly twice in the history (the source's assertion) |
| Day14.SpinUntilRepeat | src/day_14.rs:153-167 | the loop terminates with a duplicate-free prefix of the spin sequence and a next platform already in it |
| Day14.FindCycle | src/day_14.rs:177-189 | the two duplicate indices are the first occurrence and the end of the history |
| Day14.FinalIndex | src/day_14.rs:211-214 | the index the source computes lies inside the history and holds the platform after `runs` cycles |
| Day14.PeriodReached | src/day_14.rs:211 | `cycle_start + (runs - cycle_end) % (cycle_end - cycle_start)` reaches the same platform as `runs` cycles |
| Day14.Part2 | src/day_14.rs:143-216 | the answer is the north load after a billion cycles; `None` only when no platform repeats within the first billion |
| Day15.Hash | src/day_15.rs:11-17 | HASH with 8-bit `wrapping_add` and `wrapping_mul` always lies in 0..255, and is 0 for the empty string |
| Day15.HashIsPoly | src/day_15.rs:11-17 | wrapping after every step equals computing `Σ byte · 17^(n-k)` without wrapping and reducing modulo 256 once |
| Day15.HashExamples | src/day_15.rs:19-27 | the source's test vectors: "" → 0, "H" → 200, "HA" → 153, "HAS" → 172, "HASH" → 52 |
| Day15.Split | src/day_15.rs:31 | splitting yields at least one piece and no piece contains the separator |
| Day15.JoinSplit | src/day_15.rs:31 | joining the pieces with the separator gives back the input |
| Day15.SplitJoin | src/day_15.rs:31 | splitting pieces that were joined (none containing the separator) gives back the pieces |
| Day15.SplitTerminatorJoin | src/day_15.rs:31 | `split_terminator` pieces rebuild the input, up to one trailing separator |
| Day15.StepHashes | src/day_15.rs:30-33 | one HASH per comma-separated step, in order |
| Day15.Part1Bounds | src/day_15.rs:29-37 | part 1 adds one value in 0..255 per step |
| Day15.ParseU32 | src/day_15.rs:85 | `parse::<u32>` succeeds only on an optional `+` followed by digits with a value below 2^32 |
| Day15.ParseCommand | src/day_15.rs:62-73 | a removal step is its label, followed by at most one `-`, with no `=`; a placement's label holds no `=`; `None` where `collect_tuple().unwrap()` or `parse().unwrap()` would panic |
| Day15.ParsePlace | src/day_15.rs:64-68 | a placement step is exactly its label, `=`, and the focal length (plus at most one trailing `=`) |
| Day15.FindLabel | src/day_15.rs:88 | the first slot holding the label, or `None` exactly when no lens has it |
| Day15.PlaceExisting | src/day_15.rs:87-89 | `label=f` on a label in the box replaces that lens's focal length in place; slots and length unchanged |
| Day15.PlaceNew | src/day_15.rs:90-95 | `label=f` on a new label appends the lens at the end of the box |
| Day15.TakeExisting | src/day_15.rs:96-104 | `label-` removes exactly that lens, keeps the others in order, and leaves no lens with that label |
| Day15.TakeMissing | src/day_15.rs:96-105 | `label-` for a label not in the box changes nothing |
| Day15.PlacedValid | src/day_15.rs:84-95 | placing keeps labels unique in the box and every lens in the box its label hashes to |
| Day15.TakenValid | src/day_15.rs:96-105 | removing keeps labels unique and lenses in their hashed box |
| Day15.ApplyValid | src/day_15.rs:81-108 | every step keeps box numbers below 256, labels unique within each box, and lenses in their hashed box |
| Day15.ApplyOtherBoxes | src/day_15.rs:81-108 | a step leaves every other box as it was |
| Day15.ArrangeValid | src/day_15.rs:81-108 | the whole sequence of steps keeps the boxes valid |
| Day15.BoxPowerRefocus | src/day_15.rs:113-117 | changing the focal length in slot `i` changes the box's power by `(i + 1)` times the difference |
| Day15.BoxPowerAppend | src/day_15.rs:113-117 | a lens appended to a box adds its focal length times its (1-based) slot |
| Day15.PowerBelowEmpty | src/day_15.rs:110-120 | boxes without lenses contribute nothing to the focusing power |
| Day15.ParseAll | src/day_15.rs:60-76 | all steps read as commands, or `None` exactly when some step does not parse |
| Day15.ParseSteps | src/day_15.rs:60-76 | the parsing loop returns exactly `ParseAll` of the steps |
| Day15.Perform | src/day_15.rs:82-105 | one iteration of the loop (find, overwrite, push, insert or remove) is the step function `Apply` |
| Day15.Part2 | src/day_15.rs:59-121 | the answer is the focusing power of the boxes after all steps in order; `None` exactly when a step does not parse |
| Day16.With | src/day_16.rs:128-161 | setting flags on a cell keeps the flags it had and adds exactly the requested ones |
| Day16.Out | src/day_16.rs:130-161 | light entering any tile leaves it in at least one direction (the exit table of all four entry blocks) |
| Day16.MirrorsReversible | src/day_16.rs:130-148 | `.`, `/` and `\` send light on exactly one way, and light sent back along that way returns where it came from |
| Day16.Splitters | src/day_16.rs:149-161 | a splitter passes light hitting its pointed end straight through and splits light hitting its flat side into both ends |
| Day16.Step | src/day_16.rs:124-126 | a move is made only when it stays on the grid (the bound guard of each direction), and it lands on a different cell |
| Day16.ReachedNext | src/day_16.rs:124-285 | light leaving a reached cell, once moved and turned by the next tile, is itself reached |
| Day16.Complete | src/day_16.rs:112-292 | when every lit direction has been followed one cell on and the start is lit, every direction light from the start reaches is lit |
| Day16.ReachBeamsUnique | src/day_16.rs:82-93 | beams lighting exactly the reached directions are the reference beams |
| Day16.LightGrows | src/day_16.rs:128-161 | lighting a cell that lacked one of the new flags keeps every flag and makes the lit set strictly larger |
| Day16.LightSound | src/day_16.rs:128-161 | lighting what light from a reached direction goes on to light keeps everything lit reachable from the start |
| Day16.Follow | src/day_16.rs:124-163 | one direction block: the neighbour gets the flags its tile sends that light in, it is pushed as a head exactly when a flag was new (lit set strictly grows), flags never go from true to false, other cells are untouched, and the light is followed afterwards |
| Day16.ProcessHead | src/day_16.rs:117-289 | one head, right/left/up/down from its flags as taken: all of its lit directions are followed, flags only grow, only pushed cells change, no push means no change and a push means a strictly larger lit set |
| Day16.FollowedExceptStep | src/day_16.rs:115-290 | after a head is processed, everything lit is followed except at the remaining heads and the new ones |
| Day16.Round | src/day_16.rs:115-290 | one `flat_map` pass: stays sound, flags only grow, everything lit is followed except at the new heads, and new heads only come with a strictly larger lit set |
| Day16.Shrinks | src/day_16.rs:112-292 | a strictly larger lit set leaves strictly fewer of the 4·rows·cols flags unset (the loop's termination measure) |
| Day16.Propagate | src/day_16.rs:112-292 | the `while` loop terminates, and when it stops every lit direction is followed, only reachable light is lit, and the start's flags are kept |
| Day16.Settled | src/day_16.rs:112-294 | beams that light only reachable light, with everything followed and the start lit, are exactly the reference beams |
| Day16.Initial | src/day_16.rs:426-440 | the starting beams are blank everywhere except the start cell, which holds the start beam |
| Day16.Energise | src/day_16.rs:82-292 | from blank beams with the start beam set and the start as only head, the loop ends with exactly the directions light from the start reaches |
| Day16.CountRow | src/day_16.rs:296-299 | a row's count is at most its width, is 0 exactly when no cell has a flag and equals the width exactly when every cell has one |
| Day16.CountBound | src/day_16.rs:294-301 | the energised count is at most rows·cols |
| Day16.CountDark | src/day_16.rs:294-301 | with no flags anywhere, the count is 0 |
| Day16.CountAtLeastOne | src/day_16.rs:294-301 | one energised cell makes the count at least 1 |
| Day16.Entering | src/day_16.rs:97-106 | the start beam of light entering a tile is energised and has exactly the directions the tile sends that light in |
| Day16.EnergisedStart | src/day_16.rs:97-106 | the entry cell is always energised, so every count is at least 1 |
| Day16.Part1 | src/day_16.rs:70-302 | part 1 is the number of cells energised by light entering the top-left cell moving right (the written-out start beam equals that entering beam), between 1 and rows·cols |
| Day16.EdgeEntries | src/day_16.rs:334-421 | there are 2·rows + 2·cols edge entries |
| Day16.EdgeEntriesFromOutside | src/day_16.rs:334-421 | every edge entry is a grid cell that its light reaches from off the grid, and entry number rows + cols is part 1's rightward entry at (0, 0) |
| Day16.StartsAreEntering | src/day_16.rs:343-408 | each side's written-out start beam is exactly the beam of light entering the tile from that side |
| Day16.EntryScore | src/day_16.rs:425-631 | one entry's run counts the cells energised by light entering there |
| Day16.Scores | src/day_16.rs:423-632 | the counts of all entries, in order |
| Day16.MaxOf | src/day_16.rs:633-634 | the result is one of the counts and no count exceeds it |
| Day16.Part2 | src/day_16.rs:322-635 | part 2 is the largest count over all edge entries, attained by one of them, and at least the part 1 count |
| Day17.MoveIsEdge | src/day_17.rs:73-84 | a jump the search makes (guard passed, `lo..hi` cells along the state's axis) is an edge of the crucible graph, and the heat it accumulates is that edge's weight |
| Day17.EdgeIsMove | src/day_17.rs:68-222 | conversely every edge of the graph is one of the jumps the search makes from its source state |
| Day17.StartPath | src/day_17.rs:41-57 | both start states (top-left, either axis) are reached at heat loss 0 |
| Day17.ExtendPath | src/day_17.rs:72-78 | a path followed by one more jump is a path whose heat loss grows by that jump's weight |
| Day17.ExtendWitness | src/day_17.rs:72-78 | a cost achieved at `u` plus a jump's weight is achieved at the jump's landing state |
| Day17.PathPrefix | src/day_17.rs:68-222 | every longer path ends with a jump from a shorter path |
| Day17.AsMapAt | src/day_17.rs:38 | each heap entry's state is waiting at that entry's cost when states are distinct |
| Day17.IndexOf | src/day_17.rs:38 | every waiting state has an entry in the heap |
| Day17.NotInAsMap | src/day_17.rs:38 | a state no entry carries is not waiting |
| Day17.LastIsNew | src/day_17.rs:38 | with distinct states, the last entry's state is absent from the earlier entries |
| Day17.Lowered | src/day_17.rs:91-101 | rebuilding the heap keeps its length and every entry's state |
| Day17.AsMapLowered | src/day_17.rs:91-101 | rebuilding the heap when the state waits lowers exactly that state's cost to the smaller of old and new, keeping states distinct |
| Day17.LoweredMissing | src/day_17.rs:91-104 | rebuilding the heap for a state that does not wait changes nothing (so the source then pushes) |
| Day17.AsMapRemove | src/day_17.rs:60 | taking one entry out of the heap removes exactly its state and keeps states distinct |
| Day17.OptimalBelow | src/day_17.rs:87-89 | a least cost is no more than any achieved cost (the reason the source's assert on revisits holds) |
| Day17.FrontierBound | src/day_17.rs:59-225 | any path to a state not yet final passes a waiting state at no more than the path's heat loss |
| Day17.PopOptimal | src/day_17.rs:59-62 | the cheapest waiting state's cost is the least heat loss of any path to it (Dijkstra's key step) |
| Day17.PopStep | src/day_17.rs:59-62 | popping the cheapest waiting state and recording it as visited keeps the search invariant, except for that state's own jumps |
| Day17.PopFinal | src/day_17.rs:59-62 | after the pop every visited cost is achieved and least |
| Day17.PopFrontier | src/day_17.rs:59-62 | after the pop every jump from an older visited state is still relaxed |
| Day17.PathsEndFinal | src/day_17.rs:59-225 | once nothing waits, every state a path reaches has been visited |
| Day17.BelowKeepsRelaxedDir | src/day_17.rs:109-144 | lowering waiting costs keeps the jumps of an earlier direction relaxed |
| Day17.RelaxKeeps | src/day_17.rs:90-104 | offering a lower cost for a non-visited state keeps the invariant and relaxes that jump |
| Day17.BeforeTotal | src/day_17.rs:14-25 | two entries for different states are ordered exactly one way (the derived ordering), so the heap's minimum is unique |
| Day17.PopMin | src/day_17.rs:60 | the popped entry is in the heap, the rest is the heap without it, and no entry comes before it |
| Day17.PopIsCheapest | src/day_17.rs:60 | the popped entry's cost is the least waiting cost |
| Day17.LowerIn | src/day_17.rs:90-101 | the rebuilt heap is the lowered heap and `found` is true exactly when the state was waiting |
| Day17.Offer | src/day_17.rs:86-104 | a visited landing state is never improved on (the source's assert); otherwise it waits at the smaller of its old cost and the candidate, or is pushed; the invariant is kept and the jump is relaxed |
| Day17.Jump | src/day_17.rs:73-105 | one jump pays for the cell entered exactly when the guard holds, offers the landing state when the jump is long enough, and keeps the invariant |
| Day17.Expand | src/day_17.rs:72-106 | one direction's jump loop keeps the invariant, only lowers waiting costs and relaxes every landing jump of `lo..hi` cells in that direction |
| Day17.LineCostStep | src/day_17.rs:74-78 | a jump that passes the guard follows one that passes it, lands on the grid, and costs one more cell |
| Day17.RelaxedUpToStep | src/day_17.rs:73-105 | relaxing the current jump extends the relaxed jumps by one |
| Day17.ExpandState | src/day_17.rs:68-222 | expanding the popped state in both directions of its axis restores the full invariant |
| Day17.AllJumpsRelaxed | src/day_17.rs:68-222 | the two directions of a state's axis cover every edge leaving it |
| Day17.InUniverse | src/day_17.rs:14-25 | every state on the grid is one of finitely many, so the search ends |
| Day17.InitialInv | src/day_17.rs:36-57 | the empty visited map and the two start entries satisfy the invariant |
| Day17.Search | src/day_17.rs:36-225 | the visited states are exactly the reachable ones, each at a heat loss some path achieves and no path beats |
| Day17.OptionMin | src/day_17.rs:248 | the least of two optional costs is missing when either is (Rust orders `None` first) and otherwise the smaller |
| Day17.Lookup | src/day_17.rs:234-246 | a lookup finds exactly the visited states, at their visited cost |
| Day17.Solve | src/day_17.rs:234-251 | an answer exists exactly when both corner states are reachable, and it is the heat loss of some path to the corner that no path to the corner beats |
| Day17.Part1 | src/day_17.rs:27-252 | the least heat loss to the bottom-right corner moving 1 to 3 cells per turn |
| Day17.Part2 | src/day_17.rs:278-531 | the least heat loss to the bottom-right corner moving 4 to 10 cells per turn, paying for cells 1 to 3 on the way |
| Day18.DirOfLetter | src/day_18.rs:34-40 | only "U", "D", "L", "R" name a direction (anything else panics, here `None`), and the direction found spells back to the same letter |
| Day18.LetterRoundTrip | src/day_18.rs:34-40 | every direction's letter reads back as that direction |
| Day18.DigitValue | src/day_18.rs:222 | a hex digit's value is below 16 |
| Day18.HexValueBound | src/day_18.rs:222 | a string of k hex digits denotes a number below 16^k |
| Day18.FromHex | src/day_18.rs:222 | `from_str_radix(_, 16)` accepts an optional '+' and then at least one hex digit, and its value is below 16 to the string's length |
| Day18.Pow16Mono | src/day_18.rs:222 | powers of 16 grow with the exponent |
| Day18.HexChar | src/day_18.rs:222 | each value below 16 has a hex digit denoting it |
| Day18.HexString | src/day_18.rs:222 | the k-digit hex spelling of a number is k hex digits |
| Day18.HexRoundTrip | src/day_18.rs:222 | reading back the k-digit hex spelling of a number below 16^k gives the number |
| Day18.DirOfDigit | src/day_18.rs:215-221 | only '0'..'3' name a direction (3 up, 1 down, 2 left, 0 right); any other digit panics, here `None` |
| Day18.DecodeHex | src/day_18.rs:212-224 | a colour code decodes only when it has its direction digit at index 7, which names the direction, and its length is five hex digits, so below 16^5 |
| Day18.DecodeEncode | src/day_18.rs:212-224 | every instruction with a length below 16^5 written as "(#LLLLLD)" decodes back to itself |
| Day18.RunningSums | src/day_18.rs:57-61 | the scan yields one running total per step |
| Day18.RunningSumsAre | src/day_18.rs:57-61 | the i-th running total is the sum of the first i+1 steps |
| Day18.MinOf | src/day_18.rs:83-90 | the least element: `None` exactly for an empty sequence, otherwise an element no greater than any other |
| Day18.MaxOf | src/day_18.rs:83-84 | the greatest element: `None` exactly for an empty sequence, otherwise an element no less than any other |
| Day18.Layout1 | src/day_18.rs:46-90 | the grid exists exactly when the plan moves both vertically and horizontally (otherwise unwrapping the least total panics), and it has at least one row and one column |
| Day18.LineStep | src/day_18.rs:103-111 | one more cell of a step adds exactly the cell entered |
| Day18.DugGrows | src/day_18.rs:95-112 | the trench of a plan's prefix lies in the plan's trench, which holds the first cell and the plan's end |
| Day18.Marked | src/day_18.rs:110 | marking a cell sets exactly that cell and keeps every other |
| Day18.DigLine | src/day_18.rs:103-111 | digging one step succeeds exactly when every cell it enters is on the grid, and then the grid marks the earlier trench plus those cells and nothing else |
| Day18.Dig | src/day_18.rs:95-112 | digging succeeds exactly when the whole trench lies on the grid, and the grid then marks exactly the trench |
| Day18.OutsideCorner | src/day_18.rs:116-117 | the top-left cell is where the fill starts |
| Day18.OutsideStep | src/day_18.rs:122-152 | an open cell next to an outside cell is outside |
| Day18.Offer | src/day_18.rs:122-128 | a neighbour is pushed exactly when it is neither visited nor trench |
| Day18.PushNeighbours | src/day_18.rs:122-152 | the stack keeps what it held and gains only open, unvisited neighbours of the popped cell, and every such neighbour on the grid is pushed |
| Day18.OfferExtends | src/day_18.rs:122-152 | offering a neighbour keeps the stack a sequence of open, unvisited neighbours pushed on top of the old stack |
| Day18.Covered | src/day_18.rs:122-152 | guarding with `sx > 0`, `sx < n_cols - 1`, `sy > 0`, `sy < n_rows - 1` reaches every neighbour on the grid |
| Day18.FillStep | src/day_18.rs:119-159 | one round of the loop keeps every waiting or visited cell outside and every open neighbour of a visited cell visited or waiting, and either visits a new cell or drops a stale entry, so the loop ends |
| Day18.FillStepSound | src/day_18.rs:119-152 | after a round every waiting or visited cell is still outside, and the corner is still visited or waiting |
| Day18.FillStepClosed | src/day_18.rs:119-152 | after a round every open neighbour of a visited cell is visited or waiting |
| Day18.FillStepProgress | src/day_18.rs:119-152 | a round visits a new cell, or pops an entry already visited without adding stale ones |
| Day18.StaleFresh | src/day_18.rs:125-126 | pushing unvisited cells adds no already-visited entry |
| Day18.RouteSeen | src/day_18.rs:119-159 | once the stack is empty, every cell reachable from the corner without crossing the trench is visited |
| Day18.FloodFill | src/day_18.rs:116-159 | a cell ends visited exactly when it can be reached from the top-left cell through neighbouring cells off the trench |
| Day18.CountTrue | src/day_18.rs:164 | a row counts no more set cells than it has cells |
| Day18.CountFlipped | src/day_18.rs:162-167 | each cell of a row is counted in the row or in its complement, never both |
| Day18.CountAllFlipped | src/day_18.rs:162-167 | the set cells of a grid and of its complement add up to rows times columns |
| Day18.TrenchEnclosed | src/day_18.rs:119-167 | every trench cell other than the top-left one is counted in the answer |
| Day18.MarksDugGrid | src/day_18.rs:95-112 | a grid marking exactly the trench is the trench grid |
| Day18.CountEnclosed | src/day_18.rs:116-167 | `n_rows * n_cols - unfilled` counts the cells the fill does not reach |
| Day18.Part1 | src/day_18.rs:27-168 | part 1 answers exactly when every letter is a direction, the plan moves on both axes and the trench fits the grid, and then answers the number of cells not reachable from the corner around the trench |
| Day18.Start2 | src/day_18.rs:267-268 | the first vertex exists exactly when the plan moves on both axes |
| Day18.ScanVertices | src/day_18.rs:273-297 | the scan yields the vertices: the start, then the end of each step until the walk is back at the start |
| Day18.TraceFollowsPlan | src/day_18.rs:278-295 | each vertex after the first is the previous one moved by the next step, no earlier vertex is the start, and the walk stops early only on reaching the start |
| Day18.VerticesFollowPlan | src/day_18.rs:273-297 | the vertices begin at the start, follow the plan step by step, do not revisit the start in between, and end at the start when the walk stops short of the plan's end |
| Day18.BoundaryIsLength | src/day_18.rs:310-317 | the boundary of a walk that follows a plan is the sum of the plan's lengths |
| Day18.VerticesBoundary | src/day_18.rs:310-317 | the boundary is the total length of the steps walked |
| Day18.Reversed | src/day_18.rs:301-306 | reversing keeps the vertex count |
| Day18.ReversedFirst | src/day_18.rs:301-306 | the first vertex of the reversed walk is the last of the walk |
| Day18.ShoelaceCons | src/day_18.rs:301-306 | the shoelace sum of a walk with one more vertex in front gains the cross term of the first edge |
| Day18.BoundaryCons | src/day_18.rs:310-317 | the boundary of a walk with one more vertex in front gains the first edge's length |
| Day18.ReversedOrientation | src/day_18.rs:301-317 | walking the loop the other way negates the signed shoelace sum and keeps the boundary |
| Day18.ShoelaceShift | src/day_18.rs:301-306 | moving every vertex by (dx, dy) changes the shoelace sum only by a term that vanishes on a closed walk |
| Day18.CrossShift | src/day_18.rs:304 | moving both ends of an edge by (dx, dy) changes its cross term by 2·dx·(edge height) |
| Day18.Shifted | src/day_18.rs:267-268 | every vertex moves by the same offset |
| Day18.BoundaryShift | src/day_18.rs:310-317 | moving every vertex keeps the boundary |
| Day18.LagoonReversed | src/day_18.rs:321-342 | the corrected count does not depend on the direction the loop is walked |
| Day18.LagoonShifted | src/day_18.rs:267-268 | on a closed walk the corrected count does not depend on where the start is placed |
| Day18.AsWrittenClockwise | src/day_18.rs:301-342 | on a loop with a non-negative shoelace sum the answer as written is the corrected count (modulo 2^64 by the `as usize` cast) |
| Day18.AnticlockwiseUndercounts | src/day_18.rs:301-342 | for the plan "D 2, R 2, U 2, L 2" the answer as written is 1, while the same square walked the other way gives 9, the true count |
| Day18.SquareCounts | src/day_18.rs:301-342 | on the two walks around the 3 by 3 square the answer as written is 9 and 1, the corrected count 9 |
| Day18.ClockwiseCorners | src/day_18.rs:273-297 | the vertices of "R 2, D 2, L 2, U 2" are the square's corners in order |
| Day18.AnticlockwiseCorners | src/day_18.rs:273-297 | the vertices of "D 2, R 2, U 2, L 2" are the square's corners in the other order |
| Day18.SquareCorners | src/day_18.rs:301-317 | the square's shoelace sum is 8 one way and -8 the other, its boundary 8 both ways |
| Day18.ClockwiseStart | src/day_18.rs:230-268 | the clockwise square starts at (2, 2) |
| Day18.AnticlockwiseStart | src/day_18.rs:230-268 | the anticlockwise square starts at (2, 2) |
| Day18.StartOfSquare | src/day_18.rs:230-268 | a plan going 2 and back on each axis starts at (2, 2) |
| Day18.ThereAndBack | src/day_18.rs:241-245 | the running totals of 3 and -3 are 3 and 0 |
| Day18.Part2 | src/day_18.rs:190-343 | part 2 answers exactly when every colour code decodes and the plan moves on both axes, and then answers the corrected count of the trench and the cells it encloses |
| Day19.FieldOf | src/day_19.rs:59-71 | only 'x', 'm', 'a', 's' name a field (anything else panics, here `None`), and the field found names back the same letter |
| Day19.ComparisonOf | src/day_19.rs:58-73 | only '>' and '<' name a comparison (anything else panics), and the comparison found names back the same character |
| Day19.DecodeRule | src/day_19.rs:53-86 | a rule decodes exactly when its field and comparison characters are valid; the destination is kept, and the condition tests the named field against the threshold, or is absent for a bare destination |
| Day19.DecodeWorkflows | src/day_19.rs:33-89 | the workflows decode exactly when every rule does, keeping each workflow's name and its rules in order |
| Day19.WorkflowMapLast | src/day_19.rs:110-114 | a name is in the map exactly when some workflow has it, and the map holds the rules of the last workflow of that name |
| Day19.FirstMatchIsFirst | src/day_19.rs:128-137 | `find_map` yields a destination exactly when some rule applies, and then it is the destination of the first rule that applies |
| Day19.StoppedStays | src/day_19.rs:125-138 | once a part reaches "A", "R" or a panic, further steps change nothing |
| Day19.StillGoing | src/day_19.rs:125-138 | a part still moving after `j` steps has not yet stopped, so `j` is below any step count at which it stops |
| Day19.OneVerdict | src/day_19.rs:125-138 | a part that stops stops with a single verdict, whatever step count is used |
| Day19.Sort | src/day_19.rs:122-141 | the walk from "in" panics exactly when some step count reaches a missing workflow or a workflow with no applicable rule, and reports acceptance exactly when some step count reaches "A" |
| Day19.VerdictAt | src/day_19.rs:125-140 | the verdict seen at one stopping step is the part's panic or acceptance in the sense of every step count |
| Day19.AcceptedParts | src/day_19.rs:120-143 | the kept parts are exactly the input parts that are accepted |
| Day19.AcceptedPartsStep | src/day_19.rs:120-147 | one more input part adds its rating total exactly when it is accepted |
| Day19.Part1 | src/day_19.rs:105-148 | the answer exists exactly when the workflows decode and no part panics, and is the sum of x+m+a+s over the accepted parts |
| Day19.SplitRangeSound | src/day_19.rs:213-425 | as written, the first side of `split_range` holds exactly the parts of the range that pass the condition and the second exactly those that fail |
| Day19.SplitSound | src/day_19.rs:213-425 | the same for the corrected split |
| Day19.SplitWithin | src/day_19.rs:226-239 | neither side holds a part outside the range, and both copy the bounds of the three untested fields |
| Day19.SplitProper | src/day_19.rs:216-269 | the corrected split of a range with no inverted bound has no inverted bound on either side |
| Day19.SplitAgrees | src/day_19.rs:216-269 | the split as written and the corrected split agree except where the threshold sits on the bound the source lets through |
| Day19.SplitRangeInverts | src/day_19.rs:220-241 | as written, "> v" on a range whose upper bound is v (or "< v" on one whose lower bound is v) passes a range with an inverted bound |
| Day19.AreaAsWritten | src/day_19.rs:442-448 | `get_area` succeeds exactly on ranges with no inverted bound, and then is the product of the four lengths |
| Day19.SizeAlong | src/day_19.rs:442-448 | the area is the length along any one field times the lengths of the other three |
| Day19.PartsSize | src/day_19.rs:442-448 | the area of a range is the number of parts it holds |
| Day19.CutInTwo | src/day_19.rs:442-448 | cutting a range after the lowest value of one field gives two smaller ranges whose parts are disjoint, together the range's, and whose areas add up |
| Day19.SplitArea | src/day_19.rs:213-448 | the areas of the two sides of the corrected split add up to the area of the range |
| Day19.DestBelow | src/day_19.rs:570-588 | each destination of a workflow weighs no more than all its destinations together |
| Day19.VolumeCounts | src/day_19.rs:555-595 | the range-by-range count from a workflow is `None` exactly when some part of the range reaches a missing workflow, and otherwise is the number of parts it accepts one by one |
| Day19.ThroughCounts | src/day_19.rs:568-588 | the same for the parts that reach a given rule of a workflow |
| Day19.SplitCounts | src/day_19.rs:574-580 | through a conditional rule, the count is the passing side's count at the destination plus the failing side's count at the next rule |
| Day19.SplitFate | src/day_19.rs:574-584 | a part of the range lies on exactly one side of the split, and its fate is decided by the rule's destination on the passing side and by the next rule on the failing side |
| Day19.SplitWinners | src/day_19.rs:574-580 | the accepted parts of a range are the disjoint union of those of the passing side at the destination and those of the failing side at the next rule |
| Day19.SplitLosses | src/day_19.rs:574-580 | some part of the range reaches a missing workflow exactly when some part of one of the two sides does |
| Day19.BoxSize | src/day_19.rs:535-551 | the starting range holds 4000^4 parts |
| Day19.RunWorkflow | src/day_19.rs:565-588 | running a workflow on a range pushes ranges whose counts add up to the workflow's count of the range, weighing at most the workflow's destinations more, with no inverted bound |
| Day19.PassStep | src/day_19.rs:574-580 | a conditional rule pushes the passing side and keeps the failing side, preserving what the work list and the remaining range stand for |
| Day19.SendStep | src/day_19.rs:581-584 | an unconditional rule pushes the whole remaining range and leaves nothing remaining, preserving what they stand for |
| Day19.Sift | src/day_19.rs:533-593 | the work loop panics exactly when the range-by-range count from "in" does, and otherwise the kept ranges have no inverted bound and their areas add up to that count |
| Day19.TotalArea | src/day_19.rs:595 | the sum of `get_area` over ranges with no inverted bound is the sum of their sizes |
| Day19.Part2 | src/day_19.rs:520-601 | with the corrected range split (Findings, src/day_19.rs:220-241): the answer exists exactly when the workflows decode and no part of [1,4000]^4 reaches a missing workflow, is the number of those parts accepted from "in", and is at most 4000^4 |
| Day19.WinnersBound | src/day_19.rs:595 | no more parts are accepted than the range holds |
| Day19.InvertedRangeAsWritten | src/day_19.rs:220-241 | for `in{x>4000:A,R}`, the count as written meets `get_area` of an inverted range |
| Day19.InvertedRangeCorrected | src/day_19.rs:220-241 | for `in{x>4000:A,R}`, the corrected count is 0 and no part is accepted |
| Day20.FlipFlopIgnoresHigh | src/day_20.rs:53-63 | a flip-flop that receives a high pulse keeps its state and sends nothing |
| Day20.FlipFlopToggles | src/day_20.rs:53-62 | a low pulse switches a flip-flop over; it sends high when it switches on and low when it switches off, and two low pulses bring it back to where it was |
| Day20.ConjunctionSendsLow | src/day_20.rs:65-73 | a conjunction remembers the pulse from its sender and always sends; it sends low exactly when that pulse is high and every other remembered input is high |
| Day20.ProcessPulseExamples | src/day_20.rs:78-133 | the source's unit test: the flip-flop answers high, low, low pulses with nothing, high, low; the conjunction over "a" and "b" answers high, low, high |
| Day20.Fanout | src/day_20.rs:214-221 | one signal per output, in the order of the outputs, each from the sender and carrying the pulse |
| Day20.StepQueue | src/day_20.rs:229-254 | the signal at the front is handled first; one for a name without a module changes nothing; the signals behind it keep their order and what the destination sends goes behind them, one per output, in order |
| Day20.LowsHighsFront | src/day_20.rs:233-236 | every handled signal is counted once, as low or as high |
| Day20.TraceCounts | src/day_20.rs:229-254 | the low and high counts grow by the numbers of low and high signals handled |
| Day20.RunStays | src/day_20.rs:229 | once the queue is empty, running further changes nothing and handles nothing |
| Day20.OneOutcome | src/day_20.rs:229 | a press has one outcome: any two step bounds by which the queue has emptied give the same state and the same handled signals |
| Day20.TraceStartsWithQueue | src/day_20.rs:229-231 | the signals already queued are handled first, in queue order |
| Day20.RunSplits | src/day_20.rs:229-254 | handling j signals and then k more is handling j + k signals, and the handled signals concatenate |
| Day20.Send | src/day_20.rs:246-252 | appends to the queue one signal per output of the sender, in order |
| Day20.Handle | src/day_20.rs:238-253 | takes the front signal off the queue and delivers it: the destination's state is updated and what it sends is queued behind the rest |
| Day20.Press | src/day_20.rs:214-254 | one press counts the button's low pulse, handles signals until the queue is empty, and leaves the network and the counts where the press ends; the handled signals are returned in order |
| Day20.PressesPrefix | src/day_20.rs:213 | when n presses end, so do the first i, and their handled signals come first |
| Day20.PressCounts | src/day_20.rs:213-258 | after n presses the queue is empty, the low count is n (one per button press) plus the low signals handled, and the high count is the high signals handled |
| Day20.LowsHighsAppend | src/day_20.rs:233-236 | the low and high counts of two runs of signals add up |
| Day20.KindOf | src/day_20.rs:179-184 | only '&' and '%' name a module kind (any other character panics, here `None`) |
| Day20.BuiltLast | src/day_20.rs:166-189 | the network reads exactly when every line is the broadcaster or has a valid kind and a name; a name is in the network exactly when some line defines it; the last such line gives its outputs and kind; a conjunction starts with an empty memory |
| Day20.BuiltBroadcaster | src/day_20.rs:167-169 | the broadcaster's outputs are those of the last broadcaster line, and empty when there is none |
| Day20.Build | src/day_20.rs:166-189 | reads the lines into the broadcaster's outputs and the network, or `None` on a bad kind character |
| Day20.InputsLow | src/day_20.rs:196-200 | holds exactly the modules that list the given name among their outputs, each remembered as low |
| Day20.Wired | src/day_20.rs:191-204 | wiring keeps the names, the outputs and every flip-flop; a conjunction's memory gains a low entry for each of its inputs |
| Day20.Inputs | src/day_20.rs:196-200 | adds to a conjunction's memory a low entry for every module that sends to it |
| Day20.Wire | src/day_20.rs:191-204 | computes the wired network |
| Day20.WiredMemory | src/day_20.rs:191-204 | a conjunction of a freshly read network remembers exactly the modules that send to it, each as low |
| Day20.Part1 | src/day_20.rs:158-264 | `None` exactly when a line has a bad kind; otherwise the low count times the high count after 1000 presses of the wired network |
| Day20.FirstLowIsFirst | src/day_20.rs:424-427 | the press of the first low pulse sent to a module is found exactly when some low pulse was sent to it, and no earlier handled signal is a low pulse to it |
| Day20.FirstLowAppend | src/day_20.rs:386-394 | a later signal changes the first low pulse only when none was there yet |
| Day20.WatchAppend | src/day_20.rs:386-394 | watching two stretches of signals one after the other is watching them together |
| Day20.WatchDone | src/day_20.rs:389-392 | once every watched module has a press, further signals change nothing |
| Day20.WatchFindsFirst | src/day_20.rs:386-394 | a watched module that starts at 0 ends with the press of the first low pulse sent to it |
| Day20.RecordAsWritten | src/day_20.rs:387-392 | a low pulse to a watched module replaces its recorded press with the current one; every other entry, and every other pulse, leaves the record as it was |
| Day20.WatchAsWritten | src/day_20.rs:380-394 | watching as written keeps the set of watched modules and stops only once every watched module has a press |
| Day20.OverwrittenPress | src/day_20.rs:387-394 | as written, a module sent low at presses 1 and 2 ends with 2 before the other module's first low at press 3, so the product is 6 where the first presses give 3 |
| Day20.HistoryTags | src/day_20.rs:368-379 | every signal handled in n presses carries the number of its press, from 1 to n |
| Day20.Feeder | src/day_20.rs:349-352 | the module found sends to "rx" and is in the network |
| Day20.FeederIsFirst | src/day_20.rs:349-352 | nothing is found (the source panics) exactly when no module sends to "rx"; otherwise the first such module in map order is found |
| Day20.Among | src/day_20.rs:356-362 | lists exactly the watched names, in map order |
| Day20.AmongOnce | src/day_20.rs:356-362 | lists each watched name once |
| Day20.ProductZero | src/day_20.rs:432 | the answer is 0 exactly when some watched module was never sent a low pulse |
| Day20.Notice | src/day_20.rs:387-394 | corrected recording (Findings, src/day_20.rs:387-392): records the press for a low pulse to a watched module that has none yet, and reports whether every watched module now has one |
| Day20.StopEarly | src/day_20.rs:390-392 | breaking off once every watched module has a press records what the whole press would record |
| Day20.PressWatching | src/day_20.rs:370-412 | with the corrected recording (Findings, src/day_20.rs:387-392): one press records what its handled signals record; when it breaks off, every watched module has a press; otherwise it ends where the press ends |
| Day20.WatchRest | src/day_20.rs:390-392 | stopping the presses early records what all 10001 presses would record |
| Day20.WatchedAll | src/day_20.rs:368-420 | with the corrected recording (Findings, src/day_20.rs:387-392): after the presses, each watched module holds the press of the first low pulse sent to it over 10001 presses, or 0 |
| Day20.PressUntilRecorded | src/day_20.rs:368-420 | with the corrected recording (Findings, src/day_20.rs:387-392): presses until every watched module has a press or 10001 presses are made; each watched module then holds the press of its first low pulse |
| Day20.RecordPress | src/day_20.rs:368-412 | one turn of that loop, corrected likewise: the recorded presses and the network stay in step with the presses made, and a stop means every watched module has a press |
| Day20.Part2 | src/day_20.rs:297-433 | with the corrected recording (Findings, src/day_20.rs:387-392): `None` exactly when a line has a bad kind, no module sends to "rx" or a flip-flop does; otherwise the product, over the inputs of the module sending to "rx", of the press at which each was first sent a low pulse |
| Day21.Mark | src/day_21.rs:69-77 | a neighbour that is still an open plot gets the step's parity and joins the next fringe; nothing else changes |
| Day21.NeighboursInside | src/day_21.rs:69-105 | the four bounds checks visit exactly the in-grid cells one step away from the popped cell |
| Day21.Visit | src/day_21.rs:66-105 | visiting one popped cell marks exactly its open neighbours and adds exactly them to the next fringe |
| Day21.Step | src/day_21.rs:64-107 | one step marks exactly the open plots next to some fringe cell, whatever order the fringe is popped in, and the new fringe is exactly those plots |
| Day21.TakeSteps | src/day_21.rs:63-108 | after the loop the grid is the step-by-step spreading from the start cells |
| Day21.DoSteps | src/day_21.rs:177-229 | `do_steps` from one start cell leaves the grid as the spreading from that cell |
| Day21.MarkedByGrows | src/day_21.rs:63-108 | a plot reachable within k steps is reachable within k + 1 |
| Day21.MarkedByMonotone | src/day_21.rs:63-108 | reachability within j steps implies reachability within any k >= j |
| Day21.Layers | src/day_21.rs:63-108 | after s steps a plot is still open exactly when no walk of at most s steps over open plots reaches it, and the fringe of step s is exactly the plots first reached at step s |
| Day21.FringeNeighbour | src/day_21.rs:63-108 | next to a plot not yet reached, a neighbour is in the current fringe exactly when it has been reached |
| Day21.FirstMark | src/day_21.rs:63-108 | the first step at which a reached plot is reached: reachable then and not one step earlier |
| Day21.FirstMarkIsShortest | src/day_21.rs:63-108 | no walk shorter than the first mark reaches the plot |
| Day21.Spread | src/day_21.rs:63-108 | spreading keeps the grid's shape |
| Day21.SpreadTiles | src/day_21.rs:63-108 | walls and start tiles keep their tile; an open plot carries the parity of its shortest walk if that is at most s steps, and stays open otherwise |
| Day21.SpreadAt | src/day_21.rs:63-108 | the same characterisation, read off the spread grid |
| Day21.EvenAfter | src/day_21.rs:112-114 | a cell counted by part 1 is a start plot or an open plot whose shortest walk has even length of at most the step count |
| Day21.ParseRow | src/day_21.rs:41-52 | a line parses exactly when every character is '.', '#' or 'S', and then tile by tile |
| Day21.ParseGrid | src/day_21.rs:37-54 | the map parses exactly when every line does, one row per line |
| Day21.RowStarts | src/day_21.rs:46-49 | the start positions of one line are exactly its 'S' columns |
| Day21.Starts | src/day_21.rs:37-54 | the cells pushed on the first fringe are exactly the 'S' positions |
| Day21.CountRow | src/day_21.rs:233 | the count of a tile in a row is its multiplicity in the row |
| Day21.Flip | src/day_21.rs:241-253 | flipping keeps the grid's shape |
| Day21.FlipTwice | src/day_21.rs:241-253 | flipping twice gives the grid back |
| Day21.FlipRowCounts | src/day_21.rs:244-251 | flipping a row swaps its odd and even counts |
| Day21.FlipCounts | src/day_21.rs:241-253 | `count_odd` of a flipped grid is the even count of the grid, and the reverse |
| Day21.Part1 | src/day_21.rs:34-119 | `None` on an empty map or an unexpected character; otherwise the number of even cells after 327 steps from the start plots |
| Day21.TriIsSum | src/day_21.rs:255-257 | `nth_tri(x)` is 1 + 2 + ... + x |
| Day21.TriSumClosed | src/day_21.rs:255-257 | twice the sum 1 + ... + x is x(x + 1), so the halving is exact |
| Day21.RingsClosed | src/day_21.rs:306 | `4 * nth_tri(r) + 1` is the number of map copies within taxicab distance r |
| Day21.SameRingsClosed | src/day_21.rs:311 | `4 * (2 * nth_tri(r / 2)) + 1` is the number of copies at an even distance, for even and odd r alike |
| Day21.RingsSplit | src/day_21.rs:314 | every copy is at an even or an odd distance, so `num_diff` is the odd-distance count and does not underflow |
| Day21.CopyCounts | src/day_21.rs:306-314 | the source's three copy counts are the ring counts |
| Day21.RepeatsOdd | src/day_21.rs:294-309 | `max_repeats` is 202299, which is odd, and the step count is a whole number of map widths plus 65 |
| Day21.Combine | src/day_21.rs:306-366 | the source's sum, with copy counts computed as written, is each piece's count times its number of copies |
| Day21.Piece | src/day_21.rs:330-343 | `count_odd` of a spread, flipped or not, is the number of plots of the piece's parity |
| Day21.CentreCounts | src/day_21.rs:324-327 | `same_grid` counts the odd plots of a 130-step spread from the centre, `diff_grid` its even plots |
| Day21.EdgeCounts | src/day_21.rs:330-343 | the tips, small corners and big corners count the plots reached from the opposite edge middle or corner, with the parity of each piece |
| Day21.CountPieces | src/day_21.rs:324-343 | the thirteen spreads give exactly the piece counts |
| Day21.Part2 | src/day_21.rs:259-366 | `None` on an unexpected character; otherwise the copy counts for 202299 repeats times the piece counts |
| Day22.IntersectsShared | src/day_22.rs:41-48 | two well-formed bricks intersect exactly when some unit cube lies in both, so intersection is symmetric |
| Day22.IntersectsExamples | src/day_22.rs:51-88 | the unit test: a box meets itself, still meets it when stretched down to the ground, not when it then ends below, and again when it reaches through |
| Day22.SortByHeight | src/day_22.rs:141 | the sorted bricks are a permutation of the input, highest bottom first |
| Day22.DropOrderSorted | src/day_22.rs:141-151 | the drop order (sorted, then reversed) visits every input brick once, lowest bottom first |
| Day22.Supporters | src/day_22.rs:155-160 | a brick is listed exactly when it has settled and intersects the probed position |
| Day22.Fall | src/day_22.rs:151-167 | a brick comes to rest at a level between 1 and its starting level, moved straight down |
| Day22.FallStops | src/day_22.rs:151-167 | one step below the resting place is blocked by the ground or a settled brick, and every level passed on the way was free |
| Day22.Drop | src/day_22.rs:151-167 | the step-down loop for one brick returns the resting place of `Fall` and the settled bricks just below it |
| Day22.SettleKeepsShape | src/day_22.rs:151-168 | settling moves a brick only downwards: its footprint and height are kept and its bottom ends between the ground level 1 and where it started |
| Day22.SettleAt | src/day_22.rs:147-169 | each brick settles on top of the bricks dropped before it; its recorded supports are the settled bricks one step below it, and a brick with no supports rests on the ground |
| Day22.SupportersSettled | src/day_22.rs:155-160 | every recorded support is a settled brick |
| Day22.SettleAll | src/day_22.rs:144-169 | the settling pass returns the settled stack and each brick's supports as `Settle` defines them |
| Day22.KeyCubes | src/day_22.rs:175-181 | a brick is a key brick exactly when it is the sole support of some brick |
| Day22.KeyCubesBound | src/day_22.rs:175-185 | key bricks are settled bricks and there are no more of them than input bricks, so the final subtraction cannot underflow |
| Day22.SafeBricks | src/day_22.rs:185 | when the settled bricks are distinct, the answer is the number of settled bricks that are nobody's sole support |
| Day22.Part1 | src/day_22.rs:130-186 | part 1 is the number of input bricks minus the number of key bricks of the settled stack |
| Day22.SupportMap | src/day_22.rs:282-307 | the support map has one key per settled brick |
| Day22.SupportMapValues | src/day_22.rs:295-306 | every entry is the ground (for a brick at level 1) or the set of supports recorded for one of the brick's settlings |
| Day22.StackGrounded | src/day_22.rs:295-306 | every brick in the support map has at least one support |
| Day22.Inverse | src/day_22.rs:314-326 | `s` supports `c` in the inverse exactly when `c` lists `s` among its supports |
| Day22.AddSupported | src/day_22.rs:317-323 | adding one brick registers it under each of its supports |
| Day22.InverseAdd | src/day_22.rs:314-326 | adding a brick to the support map and registering it in the inverse keep the two maps inverse to each other |
| Day22.BuildIsSupporting | src/day_22.rs:314-326 | the fold builds exactly the inverse of the support map, whatever order the map is iterated in |
| Day22.FallSetLeast | src/day_22.rs:208-256 | the bricks that fall with `top` lie in every set that holds `top` and every brick all of whose supports are in it |
| Day22.FallSetClosed | src/day_22.rs:230-252 | a brick all of whose supports fall, falls too |
| Day22.Strip | src/day_22.rs:218-226 | the removed brick is taken out of the supports of exactly the bricks resting on it |
| Day22.RestingOnKept | src/day_22.rs:221 | every brick resting on a brick still in place still has a support entry, so the `expect` never fails |
| Day22.Release | src/day_22.rs:216-243 | after removal, the support entries are the original supports minus the fallen bricks, and the bricks dropped from the map are exactly those left without support |
| Day22.Released | src/day_22.rs:216-252 | after one removal the chain reaction either continues with the newly unsupported bricks queued, or every support of the starting brick has fallen |
| Day22.Disintegrate | src/day_22.rs:208-256 | one recursive call removes the brick and everything that falls because of it, keeping the chain-reaction invariant, or reports that the starting brick itself lost its support |
| Day22.DisintegrateAll | src/day_22.rs:245-252 | the fold over the unsupported bricks removes each one, and the union of what fell keeps the chain-reaction invariant |
| Day22.CascadeDone | src/day_22.rs:245-255 | when the recursion ends, the removed bricks are exactly the bricks that fall with the starting brick, and that brick kept a support outside them |
| Day22.Collapse | src/day_22.rs:330-344 | removing one brick succeeds exactly when it stands, and then removes exactly the bricks that fall with it |
| Day22.RankedStands | src/day_22.rs:216 | if every brick rests only on strictly lower bricks or on the ground, the assertion never fails |
| Day22.FallCountTake | src/day_22.rs:330-350 | the summed count does not depend on the order the bricks are taken in |
| Day22.SumCollapses | src/day_22.rs:330-350 | the sum is defined exactly when every brick stands, and is then the number of other bricks that fall, summed over every brick |
| Day22.Part2 | src/day_22.rs:258-352 | part 2 is that sum for the settled stack, or `None` exactly when some brick's removal takes down all of that brick's own supports |
| Day23.GlyphRoundTrip | src/day_23.rs:26-43 | the glyph shown for a tile parses back to that tile, and a character parses to a tile exactly when it is that tile's glyph |
| Day23.ParseGrid | src/day_23.rs:68-83 | the grid is produced exactly when every character is one of `#.^v<>` (otherwise the parse panics), with the same shape as the lines and each tile the one its character names |
| Day23.ParseRow | src/day_23.rs:70-82 | a row parses exactly when every character is a tile glyph, giving one tile per character |
| Day23.RowJunctions | src/day_23.rs:102-124 | the junctions of one interior row up to a column, in column order: exactly the open tiles with more than two open neighbours |
| Day23.JunctionsUpTo | src/day_23.rs:102-124 | the junctions of the rows above a given row, in row-major order, and no other tiles |
| Day23.Junctions | src/day_23.rs:102-124 | a tile is listed exactly when it is an interior open tile with more than two open neighbours; the list is in row-major order |
| Day23.FindGround | src/day_23.rs:90-100 | the first ground tile in the column range searched, or nothing exactly when every tile in that range is not ground |
| Day23.Terminals | src/day_23.rs:90-100 | the entry is the first ground tile from column 1 in the top row and the exit the first in the bottom row, both searched below column `n_rows`; nothing (the `unwrap` panics) exactly when one of the two searches finds no ground |
| Day23.SquareSearch | src/day_23.rs:90-100 | on a map at least as tall as it is wide, searching columns `1..n_rows` finds an opening exactly when the first row has one |
| Day23.WideMapMissesEntry | src/day_23.rs:90-93 | on a map wider than it is tall, the search over `1..n_rows` misses an opening further right |
| Day23.Vertices | src/day_23.rs:102-127 | the vertices are exactly the junctions plus the entry and the exit |
| Day23.NeighbourBack | src/day_23.rs:159-164 | stepping in a direction and then in its opposite returns to the start; opposite is an involution with no fixed point |
| Day23.SurveyChar | src/day_23.rs:185-222 | looking around panics exactly when a probed neighbour (not the one walked from) lies off the map; otherwise the open moves are exactly the non-wall neighbours that are not an uphill slope, and never outnumber the non-wall count |
| Day23.SlopesOnlyClose | src/day_23.rs:429-467 | ignoring slopes panics on the same tiles and counts the same non-wall neighbours; every non-wall neighbour is then an open move, and the open moves with slopes are those without slopes that are not uphill |
| Day23.Advance | src/day_23.rs:180-247 | one step of the walk never turns back, moves only onto an enterable neighbour, stops on the border rows rather than moving onto them, and reports an edge of length at least 1 |
| Day23.RunAgree | src/day_23.rs:180-249 | two fuel bounds under which the walk stops give the same outcome |
| Day23.WalkedRun | src/day_23.rs:180-249 | any fuel under which the walk stops shows that it stops, with the outcome of the walk |
| Day23.Look | src/day_23.rs:183-222 | the loop over the four directions computes the non-wall count and the open moves of the look-around |
| Day23.Step | src/day_23.rs:180-247 | one pass of the loop body gives the step of the walk |
| Day23.Walk | src/day_23.rs:177-249 | the loop ends with the outcome of the walk (panic, dead end or the edge's far end and length) |
| Day23.RunOnce | src/day_23.rs:180-249 | a walk that stops either ends on this step with its outcome or continues as the walk from the next tile |
| Day23.Begin | src/day_23.rs:159-177 | the first step moves onto the neighbour in the start direction unless that is an uphill slope (part 1 only) or off the map; it never reports an edge |
| Day23.Hike | src/day_23.rs:158-253 | the walk from a vertex in one direction gives its outcome |
| Day23.OpenDirs | src/day_23.rs:141-149 | the start directions kept are exactly those whose neighbour is not a wall, in order |
| Day23.StartDirs | src/day_23.rs:136-150 | the entry walks down, the exit walks up, and every other vertex walks towards each of its non-wall neighbours |
| Day23.EdgesFromFound | src/day_23.rs:156-254 | the edges from one vertex are missing exactly when one of its walks panics; otherwise each one starts at the vertex and ends where one of its walks ends |
| Day23.AllEdgesFound | src/day_23.rs:131-257 | the edge list is missing exactly when a walk from some vertex panics; otherwise each edge starts at a listed vertex and is found by one of that vertex's walks |
| Day23.EdgesAt | src/day_23.rs:156-254 | the loop over the start directions collects the edges from one vertex, stopping at the first panic |
| Day23.NoneStays | src/day_23.rs:156-254 | a panic among the first walks from a vertex makes all its edges missing |
| Day23.CollectEdges | src/day_23.rs:131-257 | the loop over the vertices collects every vertex's edges, in order |
| Day23.Build | src/day_23.rs:66-257 | the graph built (part 1 with slopes, part 2 without, lines 313-502) has the entry, the exit, the vertices and the edges of the walks |
| Day23.SurveyTally | src/day_23.rs:183-222 | the count of non-wall neighbours does not depend on slopes: it counts the non-wall tiles among the probed neighbours |
| Day23.CompassTally | src/day_23.rs:185-195 | the probed count plus the tile walked from is the full count of non-wall neighbours |
| Day23.AdvanceTrail | src/day_23.rs:180-247 | a walk stays on open interior tiles, and a reported edge ends at a junction or on an open border-row tile |
| Day23.JunctionStop | src/day_23.rs:229-237 | when more than one neighbour is open the walk is standing on a junction |
| Day23.RunLanding | src/day_23.rs:180-249 | a walk from an open interior tile that reports an edge ends it at a junction or a border-row tile, with length at least 1 |
| Day23.TripLanding | src/day_23.rs:158-253 | a walk from an open vertex towards an open neighbour that reports an edge ends it at a junction or a border-row tile, with length at least 1 |
| Day23.EdgesJoinVertices | src/day_23.rs:131-268 | when the tiles next to the entry and the exit are open, every edge of the graph starts at a vertex, has positive length and ends at a junction or on the entry or exit row |
| Day23.StartsOpen | src/day_23.rs:136-175 | every vertex is an open tile and every start direction points at an open neighbour |

## Left out

- Reading the input files, the `nom` parser combinators and `str::lines`/`split`/`parse`: the model starts from parsed records. The hand-written decoders are modelled: the character tables of days 7, 10, 11, 12, 16, 21 and 23, and the day 18 hex decoding.
- `src/main.rs` (command line and printing), `src/day_24.rs` (floating point and a linear-algebra library), `src/day_25.rs` (random choice and graph-library calls) and `src/day_template.rs` are not part of this model.
- `Debug` printing helpers, `dbg!` calls and the tests that read sample files from disk are not modelled.
- Integer widths: `usize`, `u32`, `u64`, `i32` and `i64` are unbounded integers, so overflow and wrap-around are not modelled. The exceptions are day 15's `u8` hash (`% 256`) and day 18's final `as usize` cast, which are written out.
- Iteration-cap asserts (day 8: 100000 steps; day 10: 100000 path cells) are kept as the bound at which the model gives `None`.
- Day 8 and day 20 part 2 assume that cycle lengths are coprime, or equal to the first hit. Day 21 part 2 assumes a 131 by 131 tile and 26501365 steps. Only the arithmetic the source does under these assumptions is modelled.
- Day 12's `#[cached]` memoisation is not modelled: the model computes the same function without a cache.
- Day 12's part-2 inline checks of `arrangements` (src/day_12.rs:259-290) are not proved. Their rows have 41 and 77 springs and fifteen groups, which is beyond what the verifier can evaluate. The part-1 checks are proved (ArrangementExample1, ArrangementExample2).
- The longest-path step of day 23 (`petgraph`'s `all_simple_paths`, src/day_23.rs:266-288) is a library call and is not modelled; only the vertex and edge construction is.
- Day03.Part1: requires a non-empty square grid, because the scan bounds rows by the first row's length and columns by the number of rows.
- Day03.Part2: requires a non-empty square grid, for the same reason.
- Day 7's inline test vectors that sort concrete hands (src/day_07.rs:316-338, 429-449) are not proved, because evaluating the hand type of a literal hand is beyond the verifier's budget. The order's totality, and the hand-type properties those vectors exercise, are proved instead.
- Day08.Part2: takes the `HashMap` key order as a parameter that lists every node once. That the answer does not depend on this order is not proved.
- Day14.Part1: requires a rectangular grid.
- Day14.TiltWest: requires a square grid, because the source bounds the row index by the column count.
- Day14.Part2: requires a square grid, for the same reason.
- Day16.Part1: requires a non-empty rectangular grid; the source indexes `grid[0]` and bounds every row by its length.
- Day16.Part2: requires a non-empty rectangular grid, for the same reason.
- Day17.Part1: requires rows at least as wide as the grid is tall, and at least 3 rows, because bounds use `grid.len()` for both axes and `grid.len() - jump` must not underflow.
- Day17.Part2: requires rows at least as wide as the grid is tall, and at least 10 rows, for the same reason.
- Day18.Part2: Pick's theorem itself (that the count equals the cells enclosed by the trench) is not proved; the model proves properties of the shoelace count instead.
- Day19.Part1: requires every part to halt on the workflows (`Halts`). A part caught in a cycle of workflows, on which the source's loop never ends, is excluded.
- Day19.Part2: requires a weight map under which every workflow outweighs its destinations. This is a ghost termination argument; the source only needs the workflows reachable from "in" to be acyclic.
- Day19.AreaAsWritten: models the debug-build panic of `get_area` on an inverted range; the release build would wrap around.
- Day19.Part2: the agreement between part 1's verdict and part 2's count on a single part is proved per split (SplitSound), not end to end.
- Day20.Part1: requires that each of the 1000 presses settles. The source's queue loop may not end on an oscillating network.
- Day20.Part2: requires that each of the 10001 presses settles, for the same reason.
- Day21.Part1: requires equal-length rows.
- Day21.Part2: requires equal-length rows, at least 131 of them and at least 131 columns.
- Day22.Part1: requires every brick to have `1 <= lower.z <= upper.z`. The source lowers both `u64` z-coordinates (`Pos3`) by one before each test, so a brick with a zero bottom underflows on the first step. Inverted bricks (`lower.z > upper.z`) are excluded as well: one with `upper.z = 0` underflows the same way, and one with `upper.z >= 1` may come to rest, but it is not a box and the model does not follow it.
- Day22.Part2: requires the same of every brick.
- Day22.SortByHeight: the model sorts by descending bottom height, as `sort_by_cached_key` on `-lower.z` does (src/day_22.rs:141, 268). It is not proved that bricks of equal height keep the relative order that the source's stable sort, read back in reverse, gives them.
- Day22.RankedStands: that every settled brick rests only on strictly lower bricks is assumed by this lemma, not proved of the settled stack. Without it, `Part2` gives `None` where the source's `assert` would fire.
- Day23.Build: requires a rectangular map on which every corridor walk stops. The source's `loop` may not end otherwise.
- Day23.SquareSearch: the entry and exit searches run over columns `1..n_rows`, like the source, so on a map wider than tall an entry past that column is missed (WideMapMissesEntry).

## Findings

| source | as written | input that shows it | evidently intended | confidence | as-written member | corrected member |
|---|---|---|---|---|---|---|
| src/day_05.rs:230 | each seed interval ends at `start + len - 1`, but intervals are used with an exclusive end (src/day_05.rs:136-138), so the last seed of every pair is never translated | seeds `79 14` with one map line `0 92 1`: seed 92 is listed and lands at 0, yet part 2 answers 79 | `end: start + len` | high, not executed | Day05.LastSeedLost | Day05.Part2Corrected |
| src/day_18.rs:301-342 | the signed shoelace area is added to half the boundary and cast with `as usize`, so a plan walked anticlockwise on screen gets a negative area | the plan `D 2, R 2, U 2, L 2` digs a 3 by 3 lagoon; the answer as written is 1, the same square walked `R 2, D 2, L 2, U 2` gives 9 | the absolute value of the shoelace area | high, not executed | Day18.AnticlockwiseUndercounts | Day18.LagoonReversed |
| src/day_19.rs:220-241 | a `> v` rule is split as if the range straddled `v` whenever `lower <= v <= upper`; for `upper == v` the accepted range is inverted (`v + 1` to `v`) and `get_area` (src/day_19.rs:442-448) underflows | workflows `in{x>4000:A,R}` from the full range 1..4000 | `upper <= v` sends the whole range to the rejected side (and `lower >= v` likewise for `<`) | high, not executed | Day19.InvertedRangeAsWritten | Day19.InvertedRangeCorrected |
| src/day_20.rs:387-392 | every low pulse to a key module overwrites its recorded press, so a key module hit twice before the last one is first hit keeps its later press | key modules `a` and `b`: `a` receives low at presses 1 and 2, `b` first at press 3; the product is 6 instead of 3 | keep the first press (the comment at src/day_20.rs:424-427 reasons about the first time a module receives low) | medium, not executed | Day20.OverwrittenPress | Day20.WatchFindsFirst |
