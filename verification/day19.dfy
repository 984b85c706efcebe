/** Day 19: parts rated on four categories (x, m, a, s) are sent through
    named workflows; each workflow's rules test one rating against a
    threshold and name where the part goes next, until it is accepted
    ("A") or rejected ("R"). Part 1 sums the ratings of the accepted
    parts; part 2 counts the rating combinations in 1..4000 that would be
    accepted, by splitting ranges of parts rule by rule. */
module Day19 {
  import opened Common

  // ---------------------------------------------------------------------
  // Parts, conditions and rules
  // ---------------------------------------------------------------------

  datatype Part = Part(x: nat, m: nat, a: nat, s: nat)

  datatype Field = X | M | A | S

  datatype Comparison = Greater | Lesser

  datatype Condition = Condition(field: Field, comp: Comparison, value: nat)

  /** A rule without a condition always applies. */
  datatype Rule = Rule(condition: Option<Condition>, destination: string)

  function Rating(p: Part, f: Field): nat
  {
    match f
    case X => p.x
    case M => p.m
    case A => p.a
    case S => p.s
  }

  predicate Holds(c: Condition, p: Part)
  {
    match c.comp
    case Greater => Rating(p, c.field) > c.value
    case Lesser => Rating(p, c.field) < c.value
  }

  predicate Applies(rule: Rule, p: Part)
  {
    rule.condition.None? || Holds(rule.condition.value, p)
  }

  // ---------------------------------------------------------------------
  // Reading the workflows
  // ---------------------------------------------------------------------

  function FieldName(f: Field): char
  {
    match f
    case X => 'x'
    case M => 'm'
    case A => 'a'
    case S => 's'
  }

  /** The category letter of a condition; any other letter panics. */
  function FieldOf(c: char): (r: Option<Field>)
    ensures r.Some? <==> c in "xmas"
    ensures r.Some? ==> FieldName(r.value) == c
  {
    match c
    case 'x' => Some(X)
    case 'm' => Some(M)
    case 'a' => Some(A)
    case 's' => Some(S)
    case _ => None
  }

  function ComparisonName(c: Comparison): char
  {
    match c
    case Greater => '>'
    case Lesser => '<'
  }

  /** The comparison sign of a condition; any other sign panics. */
  function ComparisonOf(c: char): (r: Option<Comparison>)
    ensures r.Some? <==> c in "<>"
    ensures r.Some? ==> ComparisonName(r.value) == c
  {
    match c
    case '>' => Some(Greater)
    case '<' => Some(Lesser)
    case _ => None
  }

  /** A rule as it is read: an optional (letter, sign, threshold) and the
      destination. */
  datatype RawRule = RawRule(test: Option<(char, char, nat)>, destination: string)

  function DecodeRule(raw: RawRule): (r: Option<Rule>)
    ensures r.Some? <==>
      raw.test.None? || (FieldOf(raw.test.value.0).Some? && ComparisonOf(raw.test.value.1).Some?)
    ensures r.Some? ==> r.value.destination == raw.destination
    ensures r.Some? && raw.test.Some? ==>
      r.value.condition.Some? &&
      FieldName(r.value.condition.value.field) == raw.test.value.0 &&
      ComparisonName(r.value.condition.value.comp) == raw.test.value.1 &&
      r.value.condition.value.value == raw.test.value.2
    ensures r.Some? && raw.test.None? ==> r.value.condition.None?
  {
    match raw.test
    case None => Some(Rule(None, raw.destination))
    case Some((f, c, v)) =>
      match (FieldOf(f), ComparisonOf(c))
      case (Some(field), Some(comp)) => Some(Rule(Some(Condition(field, comp, v)), raw.destination))
      case _ => None
  }

  /** Every rule of every workflow is read before anything else runs, so
      one bad rule anywhere panics. */
  function DecodeWorkflows(raw: seq<(string, seq<RawRule>)>): (r: Option<seq<(string, seq<Rule>)>>)
    ensures r.Some? <==> forall k, j :: 0 <= k < |raw| && 0 <= j < |raw[k].1| ==> DecodeRule(raw[k].1[j]).Some?
    ensures r.Some? ==> |r.value| == |raw|
    ensures r.Some? ==> forall k :: 0 <= k < |raw| ==>
      (r.value[k].0 == raw[k].0 && |r.value[k].1| == |raw[k].1| &&
       forall j :: 0 <= j < |raw[k].1| ==> Some(r.value[k].1[j]) == DecodeRule(raw[k].1[j]))
  {
    if forall k, j :: 0 <= k < |raw| && 0 <= j < |raw[k].1| ==> DecodeRule(raw[k].1[j]).Some? then
      Some(seq(|raw|, k requires 0 <= k < |raw| =>
        (raw[k].0, seq(|raw[k].1|, j requires 0 <= j < |raw[k].1| => DecodeRule(raw[k].1[j]).value))))
    else None
  }

  /** The workflows inserted one by one into a hash map: a later workflow
      of the same name replaces an earlier one. */
  function WorkflowMap(list: seq<(string, seq<Rule>)>): map<string, seq<Rule>>
  {
    if list == [] then map[]
    else WorkflowMap(list[..|list| - 1])[list[|list| - 1].0 := list[|list| - 1].1]
  }

  /** A name is in the map exactly when some workflow has it, and it maps
      to the last workflow of that name. */
  lemma {:induction false} WorkflowMapLast(list: seq<(string, seq<Rule>)>, name: string)
    ensures name in WorkflowMap(list) <==> exists i :: 0 <= i < |list| && list[i].0 == name
    ensures name in WorkflowMap(list) ==>
      exists i :: 0 <= i < |list| && list[i].0 == name && WorkflowMap(list)[name] == list[i].1 &&
        forall j :: i < j < |list| ==> list[j].0 != name
  {
    if list != [] {
      var init := list[..|list| - 1];
      WorkflowMapLast(init, name);
      var n := |list| - 1;
      if list[n].0 == name {
        assert WorkflowMap(list)[name] == list[n].1;
      } else if name in WorkflowMap(init) {
        var i :| 0 <= i < |init| && init[i].0 == name && WorkflowMap(init)[name] == init[i].1 &&
          forall j :: i < j < |init| ==> init[j].0 != name;
        assert list[i] == init[i];
        assert forall j :: i < j < |list| ==> list[j].0 != name by {
          forall j | i < j < |list|
            ensures list[j].0 != name
          {
            if j < n {
              assert list[j] == init[j];
            }
          }
        }
      } else {
        forall i | 0 <= i < |list|
          ensures list[i].0 != name
        {
          if i < n {
            assert list[i] == init[i];
          }
        }
      }
    }
  }

  // ---------------------------------------------------------------------
  // Part 1: routing one part
  // ---------------------------------------------------------------------

  type Workflows = map<string, seq<Rule>>

  /** `find_map`: the destination of the first rule that applies. */
  function FirstMatch(rules: seq<Rule>, p: Part): Option<string>
  {
    if rules == [] then None
    else if Applies(rules[0], p) then Some(rules[0].destination)
    else FirstMatch(rules[1..], p)
  }

  /** `FirstMatch` finds a rule exactly when one applies, and then it is
      the first that does. */
  lemma {:induction false} FirstMatchIsFirst(rules: seq<Rule>, p: Part)
    ensures FirstMatch(rules, p).Some? <==> exists i :: 0 <= i < |rules| && Applies(rules[i], p)
    ensures FirstMatch(rules, p).Some? ==>
      exists i :: 0 <= i < |rules| && Applies(rules[i], p) && FirstMatch(rules, p).value == rules[i].destination &&
        forall j :: 0 <= j < i ==> !Applies(rules[j], p)
  {
    if rules != [] && !Applies(rules[0], p) {
      var tail := rules[1..];
      FirstMatchIsFirst(tail, p);
      if FirstMatch(tail, p).Some? {
        var i :| 0 <= i < |tail| && Applies(tail[i], p) && FirstMatch(tail, p).value == tail[i].destination &&
          forall j :: 0 <= j < i ==> !Applies(tail[j], p);
        assert rules[i + 1] == tail[i];
        forall j | 0 <= j < i + 1
          ensures !Applies(rules[j], p)
        {
          if j > 0 {
            assert rules[j] == tail[j - 1];
          }
        }
      } else {
        forall i | 0 <= i < |rules|
          ensures !Applies(rules[i], p)
        {
          if i > 0 {
            assert rules[i] == tail[i - 1];
          }
        }
      }
    }
  }

  predicate Terminal(name: string)
  {
    name == "A" || name == "R"
  }

  /** One pass of the `while` loop: look the workflow up (a missing one
      panics) and take the first rule that applies (none panics). */
  function Next(wf: Workflows, p: Part, name: string): Option<string>
  {
    if name in wf then FirstMatch(wf[name], p) else None
  }

  /** Where the part is after `k` passes from `name`; `None` once a pass
      has panicked; a terminal name stays put. */
  function Steps(wf: Workflows, p: Part, name: string, k: nat): Option<string>
  {
    if k == 0 then Some(name)
    else
      match Steps(wf, p, name, k - 1)
      case None => None
      case Some(n) => if Terminal(n) then Some(n) else Next(wf, p, n)
  }

  predicate Stopped(o: Option<string>)
  {
    o.None? || Terminal(o.value)
  }

  /** Once stopped, the walk stays where it stopped. */
  lemma {:induction false} StoppedStays(wf: Workflows, p: Part, name: string, k: nat, j: nat)
    requires k <= j && Stopped(Steps(wf, p, name, k))
    ensures Steps(wf, p, name, j) == Steps(wf, p, name, k)
  {
    if k < j {
      StoppedStays(wf, p, name, k, j - 1);
    }
  }

  /** A walk not yet stopped has not reached any stopping point. */
  lemma StillGoing(wf: Workflows, p: Part, name: string, j: nat, k: nat)
    requires Stopped(Steps(wf, p, name, k))
    ensures !Stopped(Steps(wf, p, name, j)) ==> j < k
  {
    if k <= j {
      StoppedStays(wf, p, name, k, j);
    }
  }

  /** Two stopping points of the same walk agree. */
  lemma OneVerdict(wf: Workflows, p: Part, name: string, k: nat, j: nat)
    requires Stopped(Steps(wf, p, name, k)) && Stopped(Steps(wf, p, name, j))
    ensures Steps(wf, p, name, k) == Steps(wf, p, name, j)
  {
    if k <= j {
      StoppedStays(wf, p, name, k, j);
    } else {
      StoppedStays(wf, p, name, j, k);
    }
  }

  /** The source's loop only ends for parts whose walk from "in" stops;
      on a cycle of workflows it runs forever. */
  ghost predicate Halts(wf: Workflows, p: Part)
  {
    exists k: nat :: Stopped(Steps(wf, p, "in", k))
  }

  ghost predicate Accepted(wf: Workflows, p: Part)
  {
    exists k: nat :: Steps(wf, p, "in", k) == Some("A")
  }

  ghost predicate Panics(wf: Workflows, p: Part)
  {
    exists k: nat :: Steps(wf, p, "in", k).None?
  }

  /** The `filter` closure: walk the part from "in" until "A" or "R".
      `None` where the source panics (a missing workflow, or no rule
      applying). */
  method Sort(wf: Workflows, p: Part) returns (r: Option<bool>)
    requires Halts(wf, p)
    ensures r.None? <==> Panics(wf, p)
    ensures r == Some(true) <==> Accepted(wf, p)
  {
    ghost var k: nat :| Stopped(Steps(wf, p, "in", k));
    var workflow := "in";
    ghost var steps := 0;
    while workflow != "A" && workflow != "R"
      invariant Steps(wf, p, "in", steps) == Some(workflow)
      invariant steps <= k
      decreases k - steps
    {
      StillGoing(wf, p, "in", steps, k);
      if workflow !in wf {
        VerdictAt(wf, p, steps + 1, k);
        return None;
      }
      var next := FirstMatch(wf[workflow], p);
      if next.None? {
        VerdictAt(wf, p, steps + 1, k);
        return None;
      }
      workflow := next.value;
      steps := steps + 1;
    }
    VerdictAt(wf, p, steps, k);
    r := Some(workflow == "A");
  }

  /** A walk that stops at `j` decides both verdicts. */
  lemma VerdictAt(wf: Workflows, p: Part, j: nat, k: nat)
    requires Stopped(Steps(wf, p, "in", j))
    ensures Panics(wf, p) <==> Steps(wf, p, "in", j).None?
    ensures Accepted(wf, p) <==> Steps(wf, p, "in", j) == Some("A")
  {
    forall i | Steps(wf, p, "in", i).None? || Steps(wf, p, "in", i) == Some("A")
      ensures Steps(wf, p, "in", i) == Steps(wf, p, "in", j)
    {
      OneVerdict(wf, p, "in", i, j);
    }
  }

  function Total(p: Part): nat
  {
    p.x + p.m + p.a + p.s
  }

  /** The accepted parts, in order. */
  ghost function AcceptedParts(wf: Workflows, parts: seq<Part>): (r: seq<Part>)
    ensures forall q :: q in r ==> q in parts && Accepted(wf, q)
    ensures forall q :: q in parts && Accepted(wf, q) ==> q in r
  {
    if parts == [] then []
    else
      var init := parts[..|parts| - 1];
      var q := parts[|parts| - 1];
      assert parts == init + [q];
      AcceptedParts(wf, init) + if Accepted(wf, q) then [q] else []
  }

  function TotalAll(ps: seq<Part>): nat
  {
    if ps == [] then 0 else TotalAll(ps[..|ps| - 1]) + Total(ps[|ps| - 1])
  }

  lemma AcceptedPartsStep(wf: Workflows, ps: seq<Part>, q: Part)
    ensures TotalAll(AcceptedParts(wf, ps + [q])) ==
      TotalAll(AcceptedParts(wf, ps)) + if Accepted(wf, q) then Total(q) else 0
  {
    assert (ps + [q])[..|ps|] == ps;
    var a := AcceptedParts(wf, ps);
    if Accepted(wf, q) {
      assert (a + [q])[..|a|] == a;
    } else {
      assert a + [] == a;
    }
  }

  /** Part 1: read the workflows, sort every part, and add up the ratings
      of the accepted ones. `None` where the source panics: a bad rule, or
      a part whose walk hits a missing workflow or a workflow where no
      rule applies. */
  method Part1(raw: seq<(string, seq<RawRule>)>, parts: seq<Part>) returns (r: Option<nat>)
    requires DecodeWorkflows(raw).Some? ==>
      forall p :: p in parts ==> Halts(WorkflowMap(DecodeWorkflows(raw).value), p)
    ensures r.Some? <==> (DecodeWorkflows(raw).Some? &&
      forall p :: p in parts ==> !Panics(WorkflowMap(DecodeWorkflows(raw).value), p))
    ensures r.Some? ==> r.value == TotalAll(AcceptedParts(WorkflowMap(DecodeWorkflows(raw).value), parts))
  {
    var list := DecodeWorkflows(raw);
    if list.None? {
      return None;
    }
    var wf := WorkflowMap(list.value);
    var total := 0;
    for i := 0 to |parts|
      invariant forall p :: p in parts[..i] ==> !Panics(wf, p)
      invariant total == TotalAll(AcceptedParts(wf, parts[..i]))
    {
      assert parts[..i + 1] == parts[..i] + [parts[i]];
      assert parts[..i + 1][..i] == parts[..i];
      var verdict := Sort(wf, parts[i]);
      if verdict.None? {
        return None;
      }
      AcceptedPartsStep(wf, parts[..i], parts[i]);
      if verdict.value {
        total := total + Total(parts[i]);
      }
    }
    assert parts[..|parts|] == parts;
    r := Some(total);
  }

  // ---------------------------------------------------------------------
  // Part 2: ranges of parts
  // ---------------------------------------------------------------------

  /** Every part whose four ratings lie between `lower` and `upper`. */
  datatype PartRange = PartRange(lower: Part, upper: Part)

  predicate InRange(r: PartRange, p: Part)
  {
    forall f: Field :: Rating(r.lower, f) <= Rating(p, f) <= Rating(r.upper, f)
  }

  /** Each field's lower bound is at most its upper bound. */
  predicate Proper(r: PartRange)
  {
    forall f: Field :: Rating(r.lower, f) <= Rating(r.upper, f)
  }

  /** No lower bound is zero. */
  predicate Positive(r: PartRange)
  {
    forall f: Field :: 1 <= Rating(r.lower, f)
  }

  /** `Part { f: v, ..p }`. */
  function With(p: Part, f: Field, v: nat): (q: Part)
    ensures Rating(q, f) == v
    ensures forall g: Field :: g != f ==> Rating(q, g) == Rating(p, g)
  {
    match f
    case X => p.(x := v)
    case M => p.(m := v)
    case A => p.(a := v)
    case S => p.(s := v)
  }

  /** `split_range` as written: the parts that pass the condition and the
      parts that fail it, `None` for a side judged empty. The straddling
      case is entered whenever the threshold lies within the bounds, so
      "> v" with upper bound `v` (or "< v" with lower bound `v`) yields a
      passing range whose lower bound exceeds its upper bound. */
  function SplitRange(r: PartRange, c: Condition): (Option<PartRange>, Option<PartRange>)
    requires c.comp == Lesser && c.value == 0 ==> 1 <= Rating(r.lower, c.field)
  {
    var lo := Rating(r.lower, c.field);
    var hi := Rating(r.upper, c.field);
    var v := c.value;
    match c.comp
    case Greater =>
      if lo > v then (Some(r), None)
      else if hi < v then (None, Some(r))
      else (Some(PartRange(With(r.lower, c.field, v + 1), r.upper)), Some(PartRange(r.lower, With(r.upper, c.field, v))))
    case Lesser =>
      if hi < v then (Some(r), None)
      else if lo > v then (None, Some(r))
      else (Some(PartRange(r.lower, With(r.upper, c.field, v - 1))), Some(PartRange(With(r.lower, c.field, v), r.upper)))
  }

  /** `split_range` with the boundary case sent wholly to the failing side:
      "> v" passes nothing when the upper bound is at most `v`, and "< v"
      passes nothing when the lower bound is at least `v`. */
  function Split(r: PartRange, c: Condition): (Option<PartRange>, Option<PartRange>)
  {
    var lo := Rating(r.lower, c.field);
    var hi := Rating(r.upper, c.field);
    var v := c.value;
    match c.comp
    case Greater =>
      if lo > v then (Some(r), None)
      else if hi <= v then (None, Some(r))
      else (Some(PartRange(With(r.lower, c.field, v + 1), r.upper)), Some(PartRange(r.lower, With(r.upper, c.field, v))))
    case Lesser =>
      if hi < v then (Some(r), None)
      else if lo >= v then (None, Some(r))
      else (Some(PartRange(r.lower, With(r.upper, c.field, v - 1))), Some(PartRange(With(r.lower, c.field, v), r.upper)))
  }

  /** The parts a side holds (`None` holds none). */
  predicate InSide(side: Option<PartRange>, p: Part)
  {
    side.Some? && InRange(side.value, p)
  }

  /** Both splits send exactly the passing parts of the range to the first
      side and exactly the failing ones to the second. */
  lemma SplitRangeSound(r: PartRange, c: Condition, p: Part)
    requires c.comp == Lesser && c.value == 0 ==> 1 <= Rating(r.lower, c.field)
    requires InRange(r, p)
    ensures InSide(SplitRange(r, c).0, p) <==> Holds(c, p)
    ensures InSide(SplitRange(r, c).1, p) <==> !Holds(c, p)
  {
  }

  lemma SplitSound(r: PartRange, c: Condition, p: Part)
    requires InRange(r, p)
    ensures InSide(Split(r, c).0, p) <==> Holds(c, p)
    ensures InSide(Split(r, c).1, p) <==> !Holds(c, p)
  {
  }

  /** Neither side reaches outside the range, and each keeps the bounds
      of the three fields not tested. */
  lemma SplitWithin(r: PartRange, c: Condition, p: Part)
    ensures InSide(Split(r, c).0, p) ==> InRange(r, p)
    ensures InSide(Split(r, c).1, p) ==> InRange(r, p)
    ensures forall g: Field :: g != c.field ==>
      (Split(r, c).0.Some? ==> Rating(Split(r, c).0.value.lower, g) == Rating(r.lower, g) &&
                               Rating(Split(r, c).0.value.upper, g) == Rating(r.upper, g)) &&
      (Split(r, c).1.Some? ==> Rating(Split(r, c).1.value.lower, g) == Rating(r.lower, g) &&
                               Rating(Split(r, c).1.value.upper, g) == Rating(r.upper, g))
  {
  }

  /** Splitting a proper range yields proper ranges, and a positive range
      positive ones. */
  lemma SplitProper(r: PartRange, c: Condition)
    ensures Proper(r) ==> (Split(r, c).0.Some? ==> Proper(Split(r, c).0.value)) &&
                          (Split(r, c).1.Some? ==> Proper(Split(r, c).1.value))
    ensures Positive(r) ==> (Split(r, c).0.Some? ==> Positive(Split(r, c).0.value)) &&
                            (Split(r, c).1.Some? ==> Positive(Split(r, c).1.value))
  {
  }

  /** The two splits differ only where the threshold sits on the bound
      that the source lets through. */
  lemma SplitAgrees(r: PartRange, c: Condition)
    requires c.comp == Lesser && c.value == 0 ==> 1 <= Rating(r.lower, c.field)
    requires c.comp == Greater ==> !(Rating(r.lower, c.field) <= c.value == Rating(r.upper, c.field))
    requires c.comp == Lesser ==> !(Rating(r.lower, c.field) == c.value <= Rating(r.upper, c.field))
    ensures SplitRange(r, c) == Split(r, c)
  {
  }

  /** The boundary case as written: a proper range whose upper bound is
      the threshold of "> v" (or whose lower bound is the threshold of
      "< v") passes a range that is not proper. */
  lemma SplitRangeInverts(r: PartRange, c: Condition)
    requires Proper(r)
    requires c.comp == Lesser && c.value == 0 ==> 1 <= Rating(r.lower, c.field)
    requires (c.comp == Greater && c.value == Rating(r.upper, c.field)) ||
             (c.comp == Lesser && c.value == Rating(r.lower, c.field))
    ensures SplitRange(r, c).0.Some? && !Proper(SplitRange(r, c).0.value)
  {
    var acc := SplitRange(r, c).0.value;
    assert Rating(acc.upper, c.field) < Rating(acc.lower, c.field);
  }

  // ---------------------------------------------------------------------
  // Part 2: how many parts a range holds
  // ---------------------------------------------------------------------

  /** The number of values from `lo` to `hi`. */
  function Len(lo: nat, hi: nat): nat
  {
    if lo <= hi then hi - lo + 1 else 0
  }

  function FieldLen(r: PartRange, f: Field): nat
  {
    Len(Rating(r.lower, f), Rating(r.upper, f))
  }

  /** `get_area` where no bound is inverted. */
  function Size(r: PartRange): nat
  {
    FieldLen(r, X) * FieldLen(r, M) * FieldLen(r, A) * FieldLen(r, S)
  }

  /** `get_area` as written: each field's `upper - lower` is a `u32`
      subtraction, which panics (in a debug build) when the range is
      inverted on that field. */
  function AreaAsWritten(r: PartRange): (a: Option<nat>)
    ensures a.Some? <==> Proper(r)
    ensures a.Some? ==> a.value == Size(r)
  {
    if Rating(r.upper, X) < Rating(r.lower, X) || Rating(r.upper, M) < Rating(r.lower, M) ||
       Rating(r.upper, A) < Rating(r.lower, A) || Rating(r.upper, S) < Rating(r.lower, S)
    then None
    else
      var dx, dm, da, ds := 1 + (r.upper.x - r.lower.x), 1 + (r.upper.m - r.lower.m),
                            1 + (r.upper.a - r.lower.a), 1 + (r.upper.s - r.lower.s);
      assert dx == FieldLen(r, X) && dm == FieldLen(r, M) && da == FieldLen(r, A) && ds == FieldLen(r, S);
      Some(dx * dm * da * ds)
  }

  /** The product of the three other fields' lengths. */
  function Others(r: PartRange, f: Field): int
  {
    match f
    case X => FieldLen(r, M) * FieldLen(r, A) * FieldLen(r, S)
    case M => FieldLen(r, X) * FieldLen(r, A) * FieldLen(r, S)
    case A => FieldLen(r, X) * FieldLen(r, M) * FieldLen(r, S)
    case S => FieldLen(r, X) * FieldLen(r, M) * FieldLen(r, A)
  }

  lemma SizeAlong(r: PartRange, f: Field)
    ensures Size(r) == FieldLen(r, f) * Others(r, f)
  {
    var x, m, a, s := FieldLen(r, X), FieldLen(r, M), FieldLen(r, A), FieldLen(r, S);
    match f
    case X => Regroup(x, m, a, s);
    case M => Regroup(m, x, a, s);
    case A => Regroup(a, x, m, s); Swap(x, m, a, s);
    case S => Swap(x, m, a, s); Regroup(s, x, m, a); Swap(s * x, m, a, 1);
  }

  lemma Regroup(x: nat, m: nat, a: nat, s: nat)
    ensures x * m * a * s == m * x * a * s == x * (m * a * s)
  {
    assert x * m == m * x;
    assert x * m * a == x * (m * a);
    assert x * (m * a) * s == x * (m * a * s);
  }

  lemma Swap(x: nat, m: nat, a: nat, s: nat)
    ensures x * m * a * s == x * m * s * a
  {
    assert x * m * a * s == (x * m) * (a * s);
    assert a * s == s * a;
    assert (x * m) * (s * a) == x * m * s * a;
  }

  /** Ranges that agree off field `f` have the same other lengths. */
  lemma OthersAgree(r: PartRange, q: PartRange, f: Field)
    requires forall g: Field :: g != f ==> FieldLen(r, g) == FieldLen(q, g)
    ensures Others(r, f) == Others(q, f)
  {
  }

  /** The parts in a range, as a set. */
  ghost function Parts(r: PartRange): (ps: set<Part>)
    ensures forall p :: p in ps <==> InRange(r, p)
  {
    var ps := set x: nat, m: nat, a: nat, s: nat |
      r.lower.x <= x <= r.upper.x && r.lower.m <= m <= r.upper.m &&
      r.lower.a <= a <= r.upper.a && r.lower.s <= s <= r.upper.s :: Part(x, m, a, s);
    assert forall p :: InRange(r, p) ==> p in ps by {
      forall p | InRange(r, p)
        ensures p in ps
      {
        assert Rating(r.lower, X) <= Rating(p, X) <= Rating(r.upper, X);
        assert Rating(r.lower, M) <= Rating(p, M) <= Rating(r.upper, M);
        assert Rating(r.lower, A) <= Rating(p, A) <= Rating(r.upper, A);
        assert Rating(r.lower, S) <= Rating(p, S) <= Rating(r.upper, S);
        assert p == Part(p.x, p.m, p.a, p.s);
      }
    }
    assert forall p :: p in ps ==> InRange(r, p) by {
      forall p | p in ps
        ensures InRange(r, p)
      {
        forall f: Field
          ensures Rating(r.lower, f) <= Rating(p, f) <= Rating(r.upper, f)
        {
        }
      }
    }
    ps
  }

  /** How far the bounds are apart, summed over the proper fields. */
  function Extent(r: PartRange): nat
  {
    Len(Rating(r.lower, X), Rating(r.upper, X)) + Len(Rating(r.lower, M), Rating(r.upper, M)) +
    Len(Rating(r.lower, A), Rating(r.upper, A)) + Len(Rating(r.lower, S), Rating(r.upper, S))
  }

  /** `get_area` counts the parts a range holds. */
  lemma {:induction false} PartsSize(r: PartRange)
    ensures |Parts(r)| == Size(r)
    decreases Extent(r)
  {
    if !Proper(r) {
      EmptySize(r);
    } else if forall f: Field :: Rating(r.lower, f) == Rating(r.upper, f) {
      SingleSize(r);
    } else {
      var f: Field :| Rating(r.lower, f) < Rating(r.upper, f);
      var lo := Rating(r.lower, f);
      var left := PartRange(r.lower, With(r.upper, f, lo));
      var right := PartRange(With(r.lower, f, lo + 1), r.upper);
      CutInTwo(r, f, left, right);
      PartsSize(left);
      PartsSize(right);
    }
  }

  /** A range inverted on some field holds no parts. */
  lemma EmptySize(r: PartRange)
    requires !Proper(r)
    ensures |Parts(r)| == Size(r) == 0
  {
    var f: Field :| Rating(r.upper, f) < Rating(r.lower, f);
    SizeAlong(r, f);
    assert Parts(r) == {};
  }

  /** A range whose bounds coincide holds one part. */
  lemma SingleSize(r: PartRange)
    requires forall f: Field :: Rating(r.lower, f) == Rating(r.upper, f)
    ensures |Parts(r)| == Size(r) == 1
  {
    assert r.lower == r.upper by {
      assert Rating(r.lower, X) == Rating(r.upper, X) && Rating(r.lower, M) == Rating(r.upper, M);
      assert Rating(r.lower, A) == Rating(r.upper, A) && Rating(r.lower, S) == Rating(r.upper, S);
    }
    assert forall p :: InRange(r, p) ==> p == r.lower by {
      forall p | InRange(r, p)
        ensures p == r.lower
      {
        assert Rating(p, X) == Rating(r.lower, X) && Rating(p, M) == Rating(r.lower, M);
        assert Rating(p, A) == Rating(r.lower, A) && Rating(p, S) == Rating(r.lower, S);
      }
    }
    assert Parts(r) == {r.lower};
  }

  /** Cutting a range after the lowest value of a field it spans: two
      disjoint smaller ranges that together hold the same parts and add up
      to the same size. */
  lemma CutInTwo(r: PartRange, f: Field, left: PartRange, right: PartRange)
    requires Proper(r) && Rating(r.lower, f) < Rating(r.upper, f)
    requires left == PartRange(r.lower, With(r.upper, f, Rating(r.lower, f)))
    requires right == PartRange(With(r.lower, f, Rating(r.lower, f) + 1), r.upper)
    ensures Extent(left) < Extent(r) && Extent(right) < Extent(r)
    ensures Parts(r) == Parts(left) + Parts(right) && Parts(left) !! Parts(right)
    ensures Size(left) + Size(right) == Size(r)
  {
    CutLengths(r, f, left, right);
    CutSize(r, f, left, right);
    CutParts(r, f, left, right);
  }

  lemma CutLengths(r: PartRange, f: Field, left: PartRange, right: PartRange)
    requires Proper(r) && Rating(r.lower, f) < Rating(r.upper, f)
    requires left == PartRange(r.lower, With(r.upper, f, Rating(r.lower, f)))
    requires right == PartRange(With(r.lower, f, Rating(r.lower, f) + 1), r.upper)
    ensures forall g: Field :: g != f ==> FieldLen(left, g) == FieldLen(r, g) == FieldLen(right, g)
    ensures FieldLen(left, f) + FieldLen(right, f) == FieldLen(r, f)
    ensures 0 < FieldLen(left, f) && 0 < FieldLen(right, f)
    ensures Extent(left) < Extent(r) && Extent(right) < Extent(r)
  {
  }

  lemma CutSize(r: PartRange, f: Field, left: PartRange, right: PartRange)
    requires forall g: Field :: g != f ==> FieldLen(left, g) == FieldLen(r, g) == FieldLen(right, g)
    requires FieldLen(left, f) + FieldLen(right, f) == FieldLen(r, f)
    ensures Size(left) + Size(right) == Size(r)
  {
    OthersAgree(r, left, f);
    OthersAgree(r, right, f);
    SizeAlong(r, f);
    SizeAlong(left, f);
    SizeAlong(right, f);
    var o := Others(r, f);
    assert (FieldLen(left, f) + FieldLen(right, f)) * o == FieldLen(left, f) * o + FieldLen(right, f) * o;
  }

  lemma CutParts(r: PartRange, f: Field, left: PartRange, right: PartRange)
    requires Proper(r) && Rating(r.lower, f) < Rating(r.upper, f)
    requires left == PartRange(r.lower, With(r.upper, f, Rating(r.lower, f)))
    requires right == PartRange(With(r.lower, f, Rating(r.lower, f) + 1), r.upper)
    ensures Parts(r) == Parts(left) + Parts(right) && Parts(left) !! Parts(right)
  {
    var lo := Rating(r.lower, f);
    forall p
      ensures InRange(r, p) <==> InRange(left, p) || InRange(right, p)
      ensures !(InRange(left, p) && InRange(right, p))
    {
      NarrowTop(r, f, lo, p);
      NarrowBottom(r, f, lo + 1, p);
    }
  }

  /** Lowering a field's upper bound to `v` keeps the parts rated at most
      `v` on it. */
  lemma NarrowTop(r: PartRange, f: Field, v: nat, p: Part)
    requires v <= Rating(r.upper, f)
    ensures InRange(PartRange(r.lower, With(r.upper, f, v)), p) <==> InRange(r, p) && Rating(p, f) <= v
  {
    var q := PartRange(r.lower, With(r.upper, f, v));
    if InRange(q, p) {
      forall g: Field
        ensures Rating(r.lower, g) <= Rating(p, g) <= Rating(r.upper, g)
      {
        assert Rating(q.lower, g) <= Rating(p, g) <= Rating(q.upper, g);
      }
    }
    if InRange(r, p) && Rating(p, f) <= v {
      forall g: Field
        ensures Rating(q.lower, g) <= Rating(p, g) <= Rating(q.upper, g)
      {
        assert Rating(r.lower, g) <= Rating(p, g) <= Rating(r.upper, g);
      }
    }
  }

  /** Raising a field's lower bound to `v` keeps the parts rated at least
      `v` on it. */
  lemma NarrowBottom(r: PartRange, f: Field, v: nat, p: Part)
    requires Rating(r.lower, f) <= v
    ensures InRange(PartRange(With(r.lower, f, v), r.upper), p) <==> InRange(r, p) && v <= Rating(p, f)
  {
    var q := PartRange(With(r.lower, f, v), r.upper);
    if InRange(q, p) {
      forall g: Field
        ensures Rating(r.lower, g) <= Rating(p, g) <= Rating(r.upper, g)
      {
        assert Rating(q.lower, g) <= Rating(p, g) <= Rating(q.upper, g);
      }
    }
    if InRange(r, p) && v <= Rating(p, f) {
      forall g: Field
        ensures Rating(q.lower, g) <= Rating(p, g) <= Rating(q.upper, g)
      {
        assert Rating(r.lower, g) <= Rating(p, g) <= Rating(r.upper, g);
      }
    }
  }

  /** The parts a side holds, and how many. */
  ghost function SideParts(side: Option<PartRange>): set<Part>
  {
    if side.Some? then Parts(side.value) else {}
  }

  function SideSize(side: Option<PartRange>): nat
  {
    if side.Some? then Size(side.value) else 0
  }

  /** The corrected split loses and duplicates nothing: the sizes of the
      two sides add up to the size of the range. */
  lemma SplitArea(r: PartRange, c: Condition)
    ensures SideSize(Split(r, c).0) + SideSize(Split(r, c).1) == Size(r)
  {
    var (acc, rej) := Split(r, c);
    forall p
      ensures p in Parts(r) <==> p in SideParts(acc) || p in SideParts(rej)
      ensures !(p in SideParts(acc) && p in SideParts(rej))
    {
      SplitWithin(r, c, p);
      if InRange(r, p) {
        SplitSound(r, c, p);
      }
    }
    assert Parts(r) == SideParts(acc) + SideParts(rej);
    PartsSize(r);
    if acc.Some? {
      PartsSize(acc.value);
    }
    if rej.Some? {
      PartsSize(rej.value);
    }
  }

  // ---------------------------------------------------------------------
  // Part 2: where each part of a range ends up
  // ---------------------------------------------------------------------

  /** A weight for every workflow name; names without one weigh 0. */
  function Weight(w: map<string, nat>, name: string): nat
  {
    if name in w then w[name] else 0
  }

  /** The weights of the rules' destinations, added up. */
  function DestWeight(w: map<string, nat>, rules: seq<Rule>): nat
  {
    if rules == [] then 0 else DestWeight(w, rules[..|rules| - 1]) + Weight(w, rules[|rules| - 1].destination)
  }

  /** Every workflow outweighs the destinations of all its rules together.
      Weights like these exist only when no workflow can route back to
      itself; on a cycle the source's loops never end. */
  ghost predicate Weighted(wf: Workflows, w: map<string, nat>)
  {
    forall n :: n in wf && !Terminal(n) ==> DestWeight(w, wf[n]) < Weight(w, n)
  }

  /** Each destination weighs no more than all of them together. */
  lemma {:induction false} DestBelow(w: map<string, nat>, rules: seq<Rule>, i: nat)
    requires i < |rules|
    ensures Weight(w, rules[i].destination) <= DestWeight(w, rules)
  {
    if i < |rules| - 1 {
      DestBelow(w, rules[..|rules| - 1], i);
    }
  }

  /** Where one part ends up in part 2's reading of the workflows: a part
      that no rule of a workflow applies to is dropped. */
  datatype Outcome = Accepts | Rejects | Unrouted | Missing

  ghost function Fate(wf: Workflows, w: map<string, nat>, name: string, p: Part): Outcome
    requires Weighted(wf, w)
    decreases Weight(w, name), 1, 0
  {
    if name == "A" then Accepts
    else if name == "R" then Rejects
    else if name !in wf then Missing
    else FateFrom(wf, w, name, 0, p)
  }

  /** The fate of a part that the rules before the `i`-th let through. */
  ghost function FateFrom(wf: Workflows, w: map<string, nat>, name: string, i: nat, p: Part): Outcome
    requires Weighted(wf, w) && name in wf && !Terminal(name) && i <= |wf[name]|
    decreases Weight(w, name), 0, |wf[name]| - i
  {
    if i == |wf[name]| then Unrouted
    else if Applies(wf[name][i], p) then
      DestBelow(w, wf[name], i);
      Fate(wf, w, wf[name][i].destination, p)
    else FateFrom(wf, w, name, i + 1, p)
  }

  /** Adding counts where a panic anywhere is a panic. */
  function Plus(a: Option<nat>, b: Option<nat>): (c: Option<nat>)
    ensures c.Some? <==> a.Some? && b.Some?
    ensures c.Some? ==> c.value == a.value + b.value
  {
    if a.Some? && b.Some? then Some(a.value + b.value) else None
  }

  /** A split as written or corrected. */
  function Cut(r: PartRange, c: Condition, written: bool): (sides: (Option<PartRange>, Option<PartRange>))
    requires written ==> Positive(r)
    ensures written ==> (sides.0.Some? ==> Positive(sides.0.value)) && (sides.1.Some? ==> Positive(sides.1.value))
  {
    if written then
      assert 1 <= Rating(r.lower, c.field);
      SplitRangePositive(r, c);
      SplitRange(r, c)
    else Split(r, c)
  }

  lemma SplitRangePositive(r: PartRange, c: Condition)
    requires Positive(r)
    ensures SplitRange(r, c).0.Some? ==> Positive(SplitRange(r, c).0.value)
    ensures SplitRange(r, c).1.Some? ==> Positive(SplitRange(r, c).1.value)
  {
    assert 1 <= Rating(r.lower, c.field);
  }

  /** The number of parts of `r` accepted from workflow `name`, computed
      range by range as part 2 does; `None` for a panic (a missing
      workflow, or, as written, an accepted range with inverted bounds). */
  ghost function Volume(wf: Workflows, w: map<string, nat>, name: string, r: PartRange, written: bool): Option<nat>
    requires Weighted(wf, w) && (written ==> Positive(r))
    decreases Weight(w, name), 1, 0
  {
    if name == "A" then (if written then AreaAsWritten(r) else Some(Size(r)))
    else if name == "R" then Some(0)
    else if name !in wf then None
    else Through(wf, w, name, 0, r, written)
  }

  /** The same for the parts of `r` that reach the `i`-th rule. */
  ghost function Through(wf: Workflows, w: map<string, nat>, name: string, i: nat, r: PartRange, written: bool): Option<nat>
    requires Weighted(wf, w) && name in wf && !Terminal(name) && i <= |wf[name]| && (written ==> Positive(r))
    decreases Weight(w, name), 0, |wf[name]| - i
  {
    if i == |wf[name]| then Some(0)
    else
      var rule := wf[name][i];
      DestBelow(w, wf[name], i);
      match rule.condition
      case None => Volume(wf, w, rule.destination, r, written)
      case Some(c) =>
        var (acc, rej) := Cut(r, c, written);
        Plus(if acc.Some? then Volume(wf, w, rule.destination, acc.value, written) else Some(0),
             if rej.Some? then Through(wf, w, name, i + 1, rej.value, written) else Some(0))
  }

  // ---------------------------------------------------------------------
  // Part 2: the range-by-range count is the part-by-part count
  // ---------------------------------------------------------------------

  /** The parts of `r` that workflow `name` accepts. */
  ghost function Winners(wf: Workflows, w: map<string, nat>, name: string, r: PartRange): set<Part>
    requires Weighted(wf, w)
  {
    set p | p in Parts(r) && Fate(wf, w, name, p) == Accepts
  }

  /** Some part of `r` meets a missing workflow on its way from `name`. */
  ghost predicate Lost(wf: Workflows, w: map<string, nat>, name: string, r: PartRange)
    requires Weighted(wf, w)
  {
    exists p :: p in Parts(r) && Fate(wf, w, name, p) == Missing
  }

  ghost function WinnersFrom(wf: Workflows, w: map<string, nat>, name: string, i: nat, r: PartRange): set<Part>
    requires Weighted(wf, w) && name in wf && !Terminal(name) && i <= |wf[name]|
  {
    set p | p in Parts(r) && FateFrom(wf, w, name, i, p) == Accepts
  }

  ghost predicate LostFrom(wf: Workflows, w: map<string, nat>, name: string, i: nat, r: PartRange)
    requires Weighted(wf, w) && name in wf && !Terminal(name) && i <= |wf[name]|
  {
    exists p :: p in Parts(r) && FateFrom(wf, w, name, i, p) == Missing
  }

  /** With the corrected split, the range-by-range count of a proper range
      panics exactly when some part of it meets a missing workflow, and
      otherwise is the number of its parts that are accepted. */
  lemma {:induction false} VolumeCounts(wf: Workflows, w: map<string, nat>, name: string, r: PartRange)
    requires Weighted(wf, w) && Proper(r)
    ensures Volume(wf, w, name, r, false) ==
      if Lost(wf, w, name, r) then None else Some(|Winners(wf, w, name, r)|)
    decreases Weight(w, name), 1, 0, 0
  {
    assert InRange(r, r.lower);
    if name == "A" {
      assert Winners(wf, w, name, r) == Parts(r);
      PartsSize(r);
    } else if name == "R" {
      assert Winners(wf, w, name, r) == {};
    } else if name !in wf {
      assert Fate(wf, w, name, r.lower) == Missing;
    } else {
      assert Winners(wf, w, name, r) == WinnersFrom(wf, w, name, 0, r);
      assert Lost(wf, w, name, r) <==> LostFrom(wf, w, name, 0, r) by {
        forall p
          ensures Fate(wf, w, name, p) == FateFrom(wf, w, name, 0, p)
        {
        }
      }
      ThroughCounts(wf, w, name, 0, r);
    }
  }

  lemma {:induction false} ThroughCounts(wf: Workflows, w: map<string, nat>, name: string, i: nat, r: PartRange)
    requires Weighted(wf, w) && name in wf && !Terminal(name) && i <= |wf[name]| && Proper(r)
    ensures Through(wf, w, name, i, r, false) ==
      if LostFrom(wf, w, name, i, r) then None else Some(|WinnersFrom(wf, w, name, i, r)|)
    decreases Weight(w, name), 0, |wf[name]| - i, 1
  {
    if i == |wf[name]| {
      assert WinnersFrom(wf, w, name, i, r) == {};
    } else {
      var rule := wf[name][i];
      DestBelow(w, wf[name], i);
      match rule.condition
      case None =>
        forall p
          ensures FateFrom(wf, w, name, i, p) == Fate(wf, w, rule.destination, p)
        {
        }
        assert WinnersFrom(wf, w, name, i, r) == Winners(wf, w, rule.destination, r);
        assert LostFrom(wf, w, name, i, r) <==> Lost(wf, w, rule.destination, r);
        VolumeCounts(wf, w, rule.destination, r);
      case Some(c) =>
        SplitCounts(wf, w, name, i, r, c);
    }
  }

  /** The count through a conditional rule is the count of its passing
      side at the destination plus the count of its failing side at the
      next rule. */
  lemma {:induction false} SplitCounts(wf: Workflows, w: map<string, nat>, name: string, i: nat, r: PartRange, c: Condition)
    requires Weighted(wf, w) && name in wf && !Terminal(name) && i < |wf[name]| && Proper(r)
    requires wf[name][i].condition == Some(c)
    ensures Through(wf, w, name, i, r, false) ==
      if LostFrom(wf, w, name, i, r) then None else Some(|WinnersFrom(wf, w, name, i, r)|)
    decreases Weight(w, name), 0, |wf[name]| - i, 0
  {
    var dest := wf[name][i].destination;
    var (acc, rej) := Split(r, c);
    DestBelow(w, wf[name], i);
    SplitProper(r, c);
    SplitWinners(wf, w, name, i, r, c);
    SplitLosses(wf, w, name, i, r, c);
    var va := if acc.Some? then Volume(wf, w, dest, acc.value, false) else Some(0);
    var vr := if rej.Some? then Through(wf, w, name, i + 1, rej.value, false) else Some(0);
    assert Through(wf, w, name, i, r, false) == Plus(va, vr);
    if acc.Some? {
      VolumeCounts(wf, w, dest, acc.value);
    }
    if rej.Some? {
      ThroughCounts(wf, w, name, i + 1, rej.value);
    }
    AddCounts(va, vr, SideWinners(wf, w, dest, acc), SideWinnersFrom(wf, w, name, i + 1, rej),
              SideLost(wf, w, dest, acc), SideLostFrom(wf, w, name, i + 1, rej));
  }

  /** Counts of disjoint sets add up, and a panic on either side is a panic. */
  lemma AddCounts<T>(va: Option<nat>, vr: Option<nat>, a: set<T>, b: set<T>, la: bool, lb: bool)
    requires va == (if la then None else Some(|a|))
    requires vr == (if lb then None else Some(|b|))
    requires a !! b
    ensures Plus(va, vr) == if la || lb then None else Some(|a + b|)
  {
  }

  /** The winners and the losses of one side of a split (none for `None`). */
  ghost function SideWinners(wf: Workflows, w: map<string, nat>, name: string, side: Option<PartRange>): set<Part>
    requires Weighted(wf, w)
  {
    if side.Some? then Winners(wf, w, name, side.value) else {}
  }

  ghost function SideWinnersFrom(wf: Workflows, w: map<string, nat>, name: string, i: nat, side: Option<PartRange>): set<Part>
    requires Weighted(wf, w) && name in wf && !Terminal(name) && i <= |wf[name]|
  {
    if side.Some? then WinnersFrom(wf, w, name, i, side.value) else {}
  }

  ghost predicate SideLost(wf: Workflows, w: map<string, nat>, name: string, side: Option<PartRange>)
    requires Weighted(wf, w)
  {
    side.Some? && Lost(wf, w, name, side.value)
  }

  ghost predicate SideLostFrom(wf: Workflows, w: map<string, nat>, name: string, i: nat, side: Option<PartRange>)
    requires Weighted(wf, w) && name in wf && !Terminal(name) && i <= |wf[name]|
  {
    side.Some? && LostFrom(wf, w, name, i, side.value)
  }

  /** One part under a conditional rule: it lies on exactly one side of
      the split when it lies in the range, and its fate is decided by the
      rule's destination on the passing side and by the next rule on the
      failing side. */
  lemma SplitFate(wf: Workflows, w: map<string, nat>, name: string, i: nat, r: PartRange, c: Condition, p: Part)
    requires Weighted(wf, w) && name in wf && !Terminal(name) && i < |wf[name]|
    requires wf[name][i].condition == Some(c)
    ensures p in Parts(r) <==> InSide(Split(r, c).0, p) || InSide(Split(r, c).1, p)
    ensures !(InSide(Split(r, c).0, p) && InSide(Split(r, c).1, p))
    ensures InSide(Split(r, c).0, p) ==>
      FateFrom(wf, w, name, i, p) == Fate(wf, w, wf[name][i].destination, p)
    ensures InSide(Split(r, c).1, p) ==> FateFrom(wf, w, name, i, p) == FateFrom(wf, w, name, i + 1, p)
  {
    SplitWithin(r, c, p);
    if InRange(r, p) {
      SplitSound(r, c, p);
    }
  }

  /** A conditional rule splits the winners of a range between the
      passing side, which goes to the rule's destination, and the failing
      side, which goes on to the next rule. */
  lemma SplitWinners(wf: Workflows, w: map<string, nat>, name: string, i: nat, r: PartRange, c: Condition)
    requires Weighted(wf, w) && name in wf && !Terminal(name) && i < |wf[name]|
    requires wf[name][i].condition == Some(c)
    ensures WinnersFrom(wf, w, name, i, r) ==
      SideWinners(wf, w, wf[name][i].destination, Split(r, c).0) + SideWinnersFrom(wf, w, name, i + 1, Split(r, c).1)
    ensures SideWinners(wf, w, wf[name][i].destination, Split(r, c).0) !! SideWinnersFrom(wf, w, name, i + 1, Split(r, c).1)
  {
    forall p
      ensures p in WinnersFrom(wf, w, name, i, r) <==>
        p in SideWinners(wf, w, wf[name][i].destination, Split(r, c).0) || p in SideWinnersFrom(wf, w, name, i + 1, Split(r, c).1)
      ensures !(p in SideWinners(wf, w, wf[name][i].destination, Split(r, c).0) && p in SideWinnersFrom(wf, w, name, i + 1, Split(r, c).1))
    {
      SplitFate(wf, w, name, i, r, c, p);
    }
  }

  /** The same split for the losses. */
  lemma SplitLosses(wf: Workflows, w: map<string, nat>, name: string, i: nat, r: PartRange, c: Condition)
    requires Weighted(wf, w) && name in wf && !Terminal(name) && i < |wf[name]|
    requires wf[name][i].condition == Some(c)
    ensures LostFrom(wf, w, name, i, r) <==>
      SideLost(wf, w, wf[name][i].destination, Split(r, c).0) || SideLostFrom(wf, w, name, i + 1, Split(r, c).1)
  {
    var dest := wf[name][i].destination;
    if LostFrom(wf, w, name, i, r) {
      var p :| p in Parts(r) && FateFrom(wf, w, name, i, p) == Missing;
      SplitFate(wf, w, name, i, r, c, p);
    }
    if SideLost(wf, w, dest, Split(r, c).0) {
      var p :| p in Parts(Split(r, c).0.value) && Fate(wf, w, dest, p) == Missing;
      SplitFate(wf, w, name, i, r, c, p);
      assert p in Parts(r);
    }
    if SideLostFrom(wf, w, name, i + 1, Split(r, c).1) {
      var p :| p in Parts(Split(r, c).1.value) && FateFrom(wf, w, name, i + 1, p) == Missing;
      SplitFate(wf, w, name, i, r, c, p);
      assert p in Parts(r);
    }
  }

  // ---------------------------------------------------------------------
  // Part 2: the work list of ranges
  // ---------------------------------------------------------------------

  /** What the ranges still waiting on the work list will add up to. */
  ghost function Pending(wf: Workflows, w: map<string, nat>, stack: seq<(PartRange, string)>): Option<nat>
    requires Weighted(wf, w)
  {
    if stack == [] then Some(0)
    else Plus(Pending(wf, w, stack[..|stack| - 1]), Volume(wf, w, stack[|stack| - 1].1, stack[|stack| - 1].0, false))
  }

  /** The weights of the workflows the waiting ranges are headed for. */
  function StackWeight(w: map<string, nat>, stack: seq<(PartRange, string)>): nat
  {
    if stack == [] then 0 else StackWeight(w, stack[..|stack| - 1]) + Weight(w, stack[|stack| - 1].1)
  }

  predicate AllProper(stack: seq<(PartRange, string)>)
  {
    forall k :: 0 <= k < |stack| ==> Proper(stack[k].0)
  }

  /** The number of parts in the accepted ranges. */
  function Sizes(accepted: seq<PartRange>): nat
  {
    if accepted == [] then 0 else Sizes(accepted[..|accepted| - 1]) + Size(accepted[|accepted| - 1])
  }

  /** Every rating from 1 to 4000. */
  function Box(): (r: PartRange)
    ensures Proper(r)
  {
    PartRange(Part(1, 1, 1, 1), Part(4000, 4000, 4000, 4000))
  }

  /** The box holds 4000^4 parts, so no answer exceeds that. */
  lemma BoxSize()
    ensures |Parts(Box())| == 256000000000000
  {
    PartsSize(Box());
  }

  /** Pushing one range onto the work list. */
  lemma PushPending(wf: Workflows, w: map<string, nat>, stack: seq<(PartRange, string)>, r: PartRange, name: string)
    requires Weighted(wf, w)
    ensures Pending(wf, w, stack + [(r, name)]) == Plus(Pending(wf, w, stack), Volume(wf, w, name, r, false))
    ensures StackWeight(w, stack + [(r, name)]) == StackWeight(w, stack) + Weight(w, name)
  {
    assert (stack + [(r, name)])[..|stack|] == stack;
  }

  lemma PlusAssociates(a: Option<nat>, b: Option<nat>, c: Option<nat>)
    ensures Plus(Plus(a, b), c) == Plus(a, Plus(b, c))
  {
  }

  /** The ranges still to be run through the rest of a workflow: at most
      one, since every rule lets through at most one range. */
  ghost function Rest(wf: Workflows, w: map<string, nat>, name: string, i: nat, remaining: Option<PartRange>): Option<nat>
    requires Weighted(wf, w) && name in wf && !Terminal(name) && i <= |wf[name]|
  {
    if remaining.Some? then Through(wf, w, name, i, remaining.value, false) else Some(0)
  }

  /** Running one workflow on a proper range pushes each range a rule
      passes onto the work list, tagged with the rule's destination: the
      work list then stands for what it stood for before plus what the
      workflow makes of the range, it weighs at most the destinations of
      the workflow's rules more, and its ranges stay proper. */
  method RunWorkflow(wf: Workflows, ghost w: map<string, nat>, name: string, range: PartRange,
                     stack: seq<(PartRange, string)>) returns (stack': seq<(PartRange, string)>)
    requires Weighted(wf, w) && name in wf && !Terminal(name)
    requires Proper(range) && AllProper(stack)
    ensures Pending(wf, w, stack') == Plus(Pending(wf, w, stack), Volume(wf, w, name, range, false))
    ensures StackWeight(w, stack') <= StackWeight(w, stack) + DestWeight(w, wf[name])
    ensures AllProper(stack')
  {
    var rules := wf[name];
    var remaining := Some(range);
    stack' := stack;
    for i := 0 to |rules|
      invariant Plus(Pending(wf, w, stack'), Rest(wf, w, name, i, remaining)) ==
                Plus(Pending(wf, w, stack), Volume(wf, w, name, range, false))
      invariant StackWeight(w, stack') <= StackWeight(w, stack) + DestWeight(w, rules[..i])
      invariant AllProper(stack') && (remaining.Some? ==> Proper(remaining.value))
    {
      var rule := rules[i];
      DestWeightStep(w, rules, i);
      if remaining.Some? {
        var pr := remaining.value;
        ghost var before := stack';
        if rule.condition.Some? {
          var (acc, rej) := Split(pr, rule.condition.value);
          SplitProper(pr, rule.condition.value);
          if acc.Some? {
            stack' := stack' + [(acc.value, rule.destination)];
          }
          PassStep(wf, w, name, i, pr, rule.condition.value, acc, rej, before, stack');
          remaining := rej;
        } else {
          stack' := stack' + [(pr, rule.destination)];
          SendStep(wf, w, name, i, pr, before);
          remaining := None;
        }
      }
    }
    assert rules[..|rules|] == rules;
  }

  lemma DestWeightStep(w: map<string, nat>, rules: seq<Rule>, i: nat)
    requires i < |rules|
    ensures DestWeight(w, rules[..i + 1]) == DestWeight(w, rules[..i]) + Weight(w, rules[i].destination)
  {
    assert rules[..i + 1][..i] == rules[..i];
  }

  /** A conditional rule on the one remaining range: the passing side is
      pushed and the failing side remains, which keeps what the work list
      and the remaining range stand for together. */
  lemma PassStep(wf: Workflows, w: map<string, nat>, name: string, i: nat, pr: PartRange, c: Condition,
                 acc: Option<PartRange>, rej: Option<PartRange>, before: seq<(PartRange, string)>,
                 after: seq<(PartRange, string)>)
    requires Weighted(wf, w) && name in wf && !Terminal(name) && i < |wf[name]|
    requires wf[name][i].condition == Some(c) && (acc, rej) == Split(pr, c)
    requires after == if acc.Some? then before + [(acc.value, wf[name][i].destination)] else before
    ensures Plus(Pending(wf, w, after), Rest(wf, w, name, i + 1, rej)) ==
            Plus(Pending(wf, w, before), Rest(wf, w, name, i, Some(pr)))
    ensures StackWeight(w, after) <= StackWeight(w, before) + Weight(w, wf[name][i].destination)
  {
    var dest := wf[name][i].destination;
    DestBelow(w, wf[name], i);
    if acc.Some? {
      PushPending(wf, w, before, acc.value, dest);
    }
    PlusAssociates(Pending(wf, w, before),
      if acc.Some? then Volume(wf, w, dest, acc.value, false) else Some(0),
      Rest(wf, w, name, i + 1, rej));
  }

  /** An unconditional rule sends the remaining range on whole. */
  lemma SendStep(wf: Workflows, w: map<string, nat>, name: string, i: nat, pr: PartRange,
                 before: seq<(PartRange, string)>)
    requires Weighted(wf, w) && name in wf && !Terminal(name) && i < |wf[name]|
    requires wf[name][i].condition.None?
    ensures Plus(Pending(wf, w, before + [(pr, wf[name][i].destination)]), Rest(wf, w, name, i + 1, None)) ==
            Plus(Pending(wf, w, before), Rest(wf, w, name, i, Some(pr)))
    ensures StackWeight(w, before + [(pr, wf[name][i].destination)]) ==
            StackWeight(w, before) + Weight(w, wf[name][i].destination)
  {
    DestBelow(w, wf[name], i);
    PushPending(wf, w, before, pr, wf[name][i].destination);
  }

  predicate AllProperRanges(accepted: seq<PartRange>)
  {
    forall k :: 0 <= k < |accepted| ==> Proper(accepted[k])
  }

  /** The work loop of part 2: starting from the whole box at "in", pops
      ranges until none is left, keeping those that reach "A"; `None` when
      a range reaches a workflow that does not exist. The accepted ranges
      hold as many parts as the range-by-range count says. */
  method Sift(wf: Workflows, ghost w: map<string, nat>) returns (accepted: Option<seq<PartRange>>)
    requires Weighted(wf, w)
    ensures accepted.None? <==> Volume(wf, w, "in", Box(), false).None?
    ensures accepted.Some? ==>
      Volume(wf, w, "in", Box(), false) == Some(Sizes(accepted.value)) && AllProperRanges(accepted.value)
  {
    ghost var goal := Volume(wf, w, "in", Box(), false);
    var stack := [(Box(), "in")];
    var kept := [];
    PushPending(wf, w, [], Box(), "in");
    while stack != []
      invariant Plus(Some(Sizes(kept)), Pending(wf, w, stack)) == goal
      invariant AllProper(stack) && AllProperRanges(kept)
      decreases StackWeight(w, stack), |stack|
    {
      var (range, name) := stack[|stack| - 1];
      var rest := stack[..|stack| - 1];
      PopStep(wf, w, kept, stack);
      ghost var v := Volume(wf, w, name, range, false);
      ghost var done := Plus(Some(Sizes(kept)), Pending(wf, w, rest));
      assert Plus(done, v) == goal;
      if name == "A" {
        KeepStep(kept, range);
        kept := kept + [range];
        stack := rest;
        assert v == Some(Size(range));
      } else if name == "R" {
        stack := rest;
        assert v == Some(0);
      } else if name !in wf {
        return None;
      } else {
        stack := RunWorkflow(wf, w, name, range, rest);
        PlusAssociates(Some(Sizes(kept)), Pending(wf, w, rest), v);
      }
    }
    accepted := Some(kept);
  }

  /** Popping the last range off the work list. */
  lemma PopStep(wf: Workflows, w: map<string, nat>, kept: seq<PartRange>, stack: seq<(PartRange, string)>)
    requires Weighted(wf, w) && stack != []
    ensures Plus(Some(Sizes(kept)), Pending(wf, w, stack)) ==
      Plus(Plus(Some(Sizes(kept)), Pending(wf, w, stack[..|stack| - 1])),
           Volume(wf, w, stack[|stack| - 1].1, stack[|stack| - 1].0, false))
    ensures StackWeight(w, stack) == StackWeight(w, stack[..|stack| - 1]) + Weight(w, stack[|stack| - 1].1)
  {
    PlusAssociates(Some(Sizes(kept)), Pending(wf, w, stack[..|stack| - 1]),
                   Volume(wf, w, stack[|stack| - 1].1, stack[|stack| - 1].0, false));
  }

  lemma KeepStep(kept: seq<PartRange>, r: PartRange)
    ensures Sizes(kept + [r]) == Sizes(kept) + Size(r)
  {
    assert (kept + [r])[..|kept|] == kept;
  }

  /** `get_area` summed over proper ranges counts their parts. */
  method TotalArea(accepted: seq<PartRange>) returns (total: nat)
    requires AllProperRanges(accepted)
    ensures total == Sizes(accepted)
  {
    total := 0;
    for j := 0 to |accepted|
      invariant total == Sizes(accepted[..j])
    {
      assert accepted[..j + 1][..j] == accepted[..j];
      var area := AreaAsWritten(accepted[j]);
      total := total + area.value;
    }
    assert accepted[..|accepted|] == accepted;
  }

  /** Part 2: the number of parts with ratings from 1 to 4000 that the
      workflows accept starting from "in", found by running whole ranges
      through them; `None` where the source panics (a workflow that is
      missing, or a rule naming a field other than x, m, a, s). */
  method Part2(raw: seq<(string, seq<RawRule>)>, ghost w: map<string, nat>) returns (r: Option<nat>)
    requires DecodeWorkflows(raw).Some? ==> Weighted(WorkflowMap(DecodeWorkflows(raw).value), w)
    ensures r.Some? <==> (DecodeWorkflows(raw).Some? &&
      !Lost(WorkflowMap(DecodeWorkflows(raw).value), w, "in", Box()))
    ensures r.Some? ==> r.value == |Winners(WorkflowMap(DecodeWorkflows(raw).value), w, "in", Box())|
    ensures r.Some? ==> r.value <= 256000000000000
  {
    var list := DecodeWorkflows(raw);
    if list.None? {
      return None;
    }
    var wf := WorkflowMap(list.value);
    VolumeCounts(wf, w, "in", Box());
    var accepted := Sift(wf, w);
    if accepted.None? {
      return None;
    }
    var total := TotalArea(accepted.value);
    WinnersBound(wf, w, "in", Box());
    BoxSize();
    r := Some(total);
  }

  lemma WinnersBound(wf: Workflows, w: map<string, nat>, name: string, r: PartRange)
    requires Weighted(wf, w)
    ensures |Winners(wf, w, name, r)| <= |Parts(r)|
  {
    assert Winners(wf, w, name, r) <= Parts(r);
    assert Parts(r) == Winners(wf, w, name, r) + (Parts(r) - Winners(wf, w, name, r));
  }

  // ---------------------------------------------------------------------
  // Part 2: the inverted range
  // ---------------------------------------------------------------------

  /** One workflow, `in{x>4000:A,R}`, weighted so that "in" outweighs "A"
      and "R". */
  function EdgeWorkflows(): (wf: Workflows)
    ensures "in" in wf && |wf["in"]| == 2
  {
    map["in" := [Rule(Some(Condition(X, Greater, 4000)), "A"), Rule(None, "R")]]
  }

  function EdgeWeights(): map<string, nat>
  {
    map["in" := 1]
  }

  /** As written, the split passes x from 4001 to 4000 to "A", and the
      area of that range underflows. */
  lemma InvertedRangeAsWritten()
    ensures Weighted(EdgeWorkflows(), EdgeWeights())
    ensures Volume(EdgeWorkflows(), EdgeWeights(), "in", Box(), true) == None
  {
    var wf := EdgeWorkflows();
    var w := EdgeWeights();
    assert DestWeight(w, wf["in"]) == 0 by {
      assert wf["in"][..1][..0] == [];
    }
    var c := Condition(X, Greater, 4000);
    var acc := PartRange(Part(4001, 1, 1, 1), Part(4000, 4000, 4000, 4000));
    assert SplitRange(Box(), c).0 == Some(acc);
    assert AreaAsWritten(acc) == None;
  }

  /** Corrected, the whole box fails the rule, and no part is accepted. */
  lemma InvertedRangeCorrected()
    ensures Weighted(EdgeWorkflows(), EdgeWeights())
    ensures Volume(EdgeWorkflows(), EdgeWeights(), "in", Box(), false) == Some(0)
    ensures Winners(EdgeWorkflows(), EdgeWeights(), "in", Box()) == {}
  {
    var wf := EdgeWorkflows();
    var w := EdgeWeights();
    assert DestWeight(w, wf["in"]) == 0 by {
      assert wf["in"][..1][..0] == [];
    }
    var c := Condition(X, Greater, 4000);
    assert Split(Box(), c) == (None, Some(Box()));
    assert Through(wf, w, "in", 1, Box(), false) == Some(0);
    VolumeCounts(wf, w, "in", Box());
  }
}
