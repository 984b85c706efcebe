/** Day 15: "Lens Library". The initialisation sequence is a comma-separated
    list of steps. Part 1 adds up the HASH value of every step; part 2 reads
    each step as an instruction that puts a lens into one of 256 boxes or
    takes one out, and reports the focusing power of the final arrangement. */
module Day15 {
  import opened Common

  // ---------------------------------------------------------------------
  // The HASH algorithm
  // ---------------------------------------------------------------------

  /** `c as u8`: the low eight bits of the character's code. */
  function Byte(c: char): nat
  {
    (c as int) % 256
  }

  /** One step of HASH on an 8-bit accumulator: `wrapping_add` of the
      byte, then `wrapping_mul` by 17. */
  function HashStep(h: nat, c: char): nat
  {
    ((h + Byte(c)) % 256) * 17 % 256
  }

  /** HASH folds `HashStep` over the characters from an accumulator of 0. */
  function Hash(s: string): (h: nat)
    ensures h < 256
  {
    if s == [] then 0 else HashStep(Hash(s[..|s| - 1]), s[|s| - 1])
  }

  /** The same computation without wrapping: add the byte, multiply by 17. */
  function Poly(s: string): nat
  {
    if s == [] then 0 else (Poly(s[..|s| - 1]) + Byte(s[|s| - 1])) * 17
  }

  /** Wrapping after every operation loses nothing: HASH is the unbounded
      polynomial `Σ byte(s[k]) * 17^(|s| - k)` reduced modulo 256. */
  lemma {:induction false} HashIsPoly(s: string)
    ensures Hash(s) == Poly(s) % 256
  {
    if s != [] {
      var init, c := s[..|s| - 1], s[|s| - 1];
      HashIsPoly(init);
      var a, b := Poly(init), Byte(c);
      ModAdd(a, b);
      ModMul((a + b) % 256, a + b, 17);
    }
  }

  lemma ModAdd(a: nat, b: nat)
    ensures (a % 256 + b) % 256 == (a + b) % 256
  {
    var q := a / 256;
    assert a == q * 256 + a % 256;
    ModShift(a % 256 + b, q);
  }

  /** Adding a multiple of 256 does not change the remainder. */
  lemma ModShift(x: nat, q: nat)
    ensures (x + q * 256) % 256 == x % 256
  {
    var r := x % 256;
    var d := x / 256;
    assert x + q * 256 == (d + q) * 256 + r;
  }

  /** Multiplying congruent numbers by the same factor keeps them congruent. */
  lemma ModMul(u: nat, v: nat, k: nat)
    requires u % 256 == v % 256
    ensures u * k % 256 == v * k % 256
  {
    var qu, qv := u / 256, v / 256;
    var r := u % 256;
    assert u == qu * 256 + r && v == qv * 256 + r;
    assert u * k == r * k + (qu * k) * 256;
    assert v * k == r * k + (qv * k) * 256;
    ModShift(r * k, qu * k);
    ModShift(r * k, qv * k);
  }

  /** The examples the source checks HASH against. */
  lemma HashExamples()
    ensures Hash("") == 0
    ensures Hash("H") == 200
    ensures Hash("HA") == 153
    ensures Hash("HAS") == 172
    ensures Hash("HASH") == 52
  {
    assert "HA"[..1] == "H";
    assert "HAS"[..2] == "HA";
    assert "HASH"[..3] == "HAS";
  }

  // ---------------------------------------------------------------------
  // Splitting on a separator
  // ---------------------------------------------------------------------

  /** `str::split`: the pieces between occurrences of `sep`; there is always
      at least one, possibly empty. */
  function Split(s: string, sep: char): (parts: seq<string>)
    ensures |parts| >= 1
    ensures forall k :: 0 <= k < |parts| ==> sep !in parts[k]
  {
    if s == [] then [[]]
    else
      var rest := Split(s[1..], sep);
      if s[0] == sep then [[]] + rest
      else [[s[0]] + rest[0]] + rest[1..]
  }

  /** The pieces glued back together with `sep` between them. */
  function Join(parts: seq<string>, sep: char): string
    requires |parts| >= 1
  {
    if |parts| == 1 then parts[0] else parts[0] + [sep] + Join(parts[1..], sep)
  }

  lemma {:induction false} JoinSplit(s: string, sep: char)
    ensures Join(Split(s, sep), sep) == s
  {
    if s != [] {
      var rest := Split(s[1..], sep);
      JoinSplit(s[1..], sep);
      if s[0] == sep {
        assert Split(s, sep)[1..] == rest;
      } else {
        var parts := Split(s, sep);
        if |rest| == 1 {
          assert parts == [[s[0]] + rest[0]];
        } else {
          assert parts[1..] == rest[1..];
          assert Join(rest, sep) == rest[0] + [sep] + Join(rest[1..], sep);
        }
      }
    }
  }

  lemma {:induction false} SplitJoin(parts: seq<string>, sep: char)
    requires |parts| >= 1 && forall k :: 0 <= k < |parts| ==> sep !in parts[k]
    ensures Split(Join(parts, sep), sep) == parts
    decreases |parts|, |parts[0]|
  {
    var p := parts[0];
    if p == [] {
      if |parts| > 1 {
        var tail := parts[1..];
        SplitJoin(tail, sep);
        assert Join(parts, sep) == [sep] + Join(tail, sep);
        assert Join(parts, sep)[1..] == Join(tail, sep);
        assert parts == [[]] + tail;
      }
    } else {
      var shorter := [p[1..]] + parts[1..];
      assert forall k :: 0 <= k < |shorter| ==> sep !in shorter[k] by {
        forall k | 0 <= k < |shorter| ensures sep !in shorter[k] {
          if k == 0 {
            assert forall c :: c in p[1..] ==> c in p;
          } else {
            assert shorter[k] == parts[k];
          }
        }
      }
      SplitJoin(shorter, sep);
      JoinHead(parts, sep);
      assert shorter[1..] == parts[1..];
      assert p[0] != sep by { assert p[0] in p; }
      assert p == [p[0]] + shorter[0];
      assert parts == [[p[0]] + shorter[0]] + shorter[1..];
    }
  }

  /** Joining, seen from the first character of a non-empty first piece. */
  lemma JoinHead(parts: seq<string>, sep: char)
    requires |parts| >= 1 && parts[0] != []
    ensures Join(parts, sep) != [] && Join(parts, sep)[0] == parts[0][0]
    ensures Join(parts, sep)[1..] == Join([parts[0][1..]] + parts[1..], sep)
  {
    var shorter := [parts[0][1..]] + parts[1..];
    assert shorter[1..] == parts[1..];
    if |parts| > 1 {
      assert Join(shorter, sep) == parts[0][1..] + [sep] + Join(parts[1..], sep);
    }
  }

  /** `str::split_terminator`: like `Split`, except that an empty last piece
      is dropped (so the empty string has no pieces at all). */
  function SplitTerminator(s: string, sep: char): (parts: seq<string>)
    ensures forall k :: 0 <= k < |parts| ==> sep !in parts[k]
  {
    var all := Split(s, sep);
    if all[|all| - 1] == [] then all[..|all| - 1] else all
  }

  /** The pieces `split_terminator` returns rebuild the input, up to the one
      separator that ended it. */
  lemma SplitTerminatorJoin(s: string, sep: char)
    ensures var parts := SplitTerminator(s, sep);
            if parts == [] then s == [] || s == [sep]
            else Join(parts, sep) == s || Join(parts, sep) + [sep] == s
  {
    var all := Split(s, sep);
    JoinSplit(s, sep);
    if all[|all| - 1] == [] {
      JoinDropLast(all, sep);
    }
  }

  /** Dropping an empty last piece removes the separator before it. */
  lemma {:induction false} JoinDropLast(parts: seq<string>, sep: char)
    requires |parts| >= 1 && parts[|parts| - 1] == []
    ensures |parts| == 1 ==> Join(parts, sep) == []
    ensures |parts| > 1 ==> Join(parts[..|parts| - 1], sep) + [sep] == Join(parts, sep)
  {
    if |parts| > 2 {
      var tail := parts[1..];
      JoinDropLast(tail, sep);
      assert parts[..|parts| - 1][1..] == tail[..|tail| - 1];
    } else if |parts| == 2 {
      assert parts[..1] == [parts[0]];
    }
  }

  // ---------------------------------------------------------------------
  // Part 1
  // ---------------------------------------------------------------------

  /** The HASH of every step, in order. */
  function StepHashes(input: string): (hs: seq<int>)
    ensures |hs| == |SplitTerminator(input, ',')|
    ensures forall k :: 0 <= k < |hs| ==> hs[k] == Hash(SplitTerminator(input, ',')[k])
  {
    var steps := SplitTerminator(input, ',');
    seq(|steps|, k requires 0 <= k < |steps| => Hash(steps[k]))
  }

  /** Part 1: the sum of the HASH values of the steps. */
  function Part1(input: string): int
  {
    Sum(StepHashes(input))
  }

  /** Every step adds between 0 and 255. */
  lemma Part1Bounds(input: string)
    ensures 0 <= Part1(input) <= 255 * |SplitTerminator(input, ',')|
  {
    SumBound(StepHashes(input), 0, 255);
  }

  // ---------------------------------------------------------------------
  // Part 2: reading the steps
  // ---------------------------------------------------------------------

  datatype Op = Place(focal: nat) | Take

  /** One step: a name and what to do with the lens of that name. */
  datatype Command = Command(name: string, op: Op)

  predicate IsDigit(c: char)
  {
    '0' <= c <= '9'
  }

  /** The value of a string of decimal digits. */
  function DigitsValue(d: string): nat
    requires forall k :: 0 <= k < |d| ==> IsDigit(d[k])
  {
    if d == [] then 0
    else
      assert IsDigit(d[|d| - 1]);
      DigitsValue(d[..|d| - 1]) * 10 + (d[|d| - 1] as int - '0' as int)
  }

  /** `str::parse::<u32>`: an optional `+`, then at least one decimal digit,
      and a value below 2^32. */
  function ParseU32(s: string): (r: Option<nat>)
    ensures r.Some? ==> r.value < 0x1_0000_0000
    ensures r.Some? ==> s != [] && IsDigit(s[|s| - 1])
  {
    var d := if s != [] && s[0] == '+' then s[1..] else s;
    if d != [] && (forall k :: 0 <= k < |d| ==> IsDigit(d[k])) && DigitsValue(d) < 0x1_0000_0000
    then Some(DigitsValue(d))
    else None
  }

  /** Reading one step; `None` where the source's `unwrap` would panic: a
      step with `=` must split into exactly a name and a number, and any
      other step must be a name with at most one `-` after it. */
  function ParseCommand(s: string): (r: Option<Command>)
    ensures r.Some? && r.value.op.Take? ==> '=' !in s && (r.value.name + ['-'] == s || r.value.name == s)
    ensures r.Some? && r.value.op.Place? ==> '=' !in r.value.name
  {
    if '=' in s then
      var parts := SplitTerminator(s, '=');
      if |parts| != 2 then None
      else match ParseU32(parts[1])
        case None => None
        case Some(f) => Some(Command(parts[0], Place(f)))
    else
      var parts := SplitTerminator(s, '-');
      if |parts| != 1 then None
      else
        SplitTerminatorJoin(s, '-');
        Some(Command(parts[0], Take))
  }

  /** A step that parses as a placement is its name, `=`, and the digits of
      its focal length. */
  lemma ParsePlace(s: string)
    requires ParseCommand(s).Some? && ParseCommand(s).value.op.Place?
    ensures var parts := SplitTerminator(s, '=');
            |parts| == 2 && parts[0] == ParseCommand(s).value.name &&
            (s == parts[0] + ['='] + parts[1] || s == parts[0] + ['='] + parts[1] + ['='])
  {
    var parts := SplitTerminator(s, '=');
    SplitTerminatorJoin(s, '=');
    assert Join(parts, '=') == parts[0] + ['='] + parts[1] by {
      assert parts[1..] == [parts[1]];
    }
  }

  // ---------------------------------------------------------------------
  // Part 2: boxes of lenses
  // ---------------------------------------------------------------------

  datatype Lens = Lens(name: string, focal: nat)

  /** The boxes that hold lenses, by box number; a box absent from the map
      has never received a lens. */
  type Boxes = map<nat, seq<Lens>>

  /** `iter().find`: the first slot holding a lens with `name`. */
  function FindLabel(lenses: seq<Lens>, name: string): (r: Option<nat>)
    ensures r.Some? ==> r.value < |lenses| && lenses[r.value].name == name
    ensures r.Some? ==> forall j :: 0 <= j < r.value ==> lenses[j].name != name
    ensures r.None? <==> forall j :: 0 <= j < |lenses| ==> lenses[j].name != name
  {
    if lenses == [] then None
    else if lenses[0].name == name then Some(0)
    else match FindLabel(lenses[1..], name)
      case None => None
      case Some(i) => Some(i + 1)
  }

  /** The lenses of a box after `label=focal`: the lens with that name gets
      the new focal length where it stands, or a new lens goes last. */
  function Placed(lenses: seq<Lens>, name: string, focal: nat): seq<Lens>
  {
    match FindLabel(lenses, name)
    case Some(i) => lenses[i := Lens(name, focal)]
    case None => lenses + [Lens(name, focal)]
  }

  /** The lenses of a box after `label-`: the lens with that name leaves,
      the others keep their order. */
  function Taken(lenses: seq<Lens>, name: string): seq<Lens>
  {
    match FindLabel(lenses, name)
    case Some(i) => lenses[..i] + lenses[i + 1..]
    case None => lenses
  }

  /** One step on the boxes, in the box HASH picks for the name. A removal
      from a box that has never held a lens does nothing. */
  function Apply(boxes: Boxes, cmd: Command): Boxes
  {
    var b := Hash(cmd.name);
    match cmd.op
    case Place(f) => boxes[b := Placed(if b in boxes then boxes[b] else [], cmd.name, f)]
    case Take => if b in boxes then boxes[b := Taken(boxes[b], cmd.name)] else boxes
  }

  /** The steps applied in order. */
  function Arrange(boxes: Boxes, cmds: seq<Command>): Boxes
  {
    if cmds == [] then boxes else Apply(Arrange(boxes, cmds[..|cmds| - 1]), cmds[|cmds| - 1])
  }

  predicate UniqueLabels(lenses: seq<Lens>)
  {
    forall i, j :: 0 <= i < j < |lenses| ==> lenses[i].name != lenses[j].name
  }

  /** What the steps keep true: boxes are numbered 0 to 255, no name occurs
      twice in a box, and each lens sits in the box its name hashes to. */
  predicate Valid(boxes: Boxes)
  {
    forall b :: b in boxes ==>
      b < 256 && UniqueLabels(boxes[b]) &&
      forall k :: 0 <= k < |boxes[b]| ==> Hash(boxes[b][k].name) == b
  }

  /** `label=focal` on a name already in the box: same slots, same
      labels, and only that lens's focal length changes. */
  lemma PlaceExisting(lenses: seq<Lens>, name: string, focal: nat, i: nat)
    requires i < |lenses| && lenses[i].name == name && UniqueLabels(lenses)
    ensures var r := Placed(lenses, name, focal);
            |r| == |lenses| && r[i] == Lens(name, focal) &&
            forall k :: 0 <= k < |r| && k != i ==> r[k] == lenses[k]
  {
    var f := FindLabel(lenses, name);
    assert f.Some?;
    assert f == Some(i);
  }

  /** `label=focal` on a name not in the box: the lens goes last. */
  lemma PlaceNew(lenses: seq<Lens>, name: string, focal: nat)
    requires forall k :: 0 <= k < |lenses| ==> lenses[k].name != name
    ensures Placed(lenses, name, focal) == lenses + [Lens(name, focal)]
  {
  }

  /** `label-` removes exactly the lens with that name, and no lens with
      that name is left. */
  lemma TakeExisting(lenses: seq<Lens>, name: string, i: nat)
    requires i < |lenses| && lenses[i].name == name && UniqueLabels(lenses)
    ensures var r := Taken(lenses, name);
            r == lenses[..i] + lenses[i + 1..] &&
            forall k :: 0 <= k < |r| ==> r[k].name != name
  {
    var f := FindLabel(lenses, name);
    assert f.Some?;
    assert f == Some(i);
    var r := Taken(lenses, name);
    forall k | 0 <= k < |r|
      ensures r[k].name != name
    {
      if k < i {
        assert r[k] == lenses[k];
      } else {
        assert r[k] == lenses[k + 1];
      }
    }
  }

  /** `label-` for a name not in the box changes nothing. */
  lemma TakeMissing(lenses: seq<Lens>, name: string)
    requires forall k :: 0 <= k < |lenses| ==> lenses[k].name != name
    ensures Taken(lenses, name) == lenses
  {
  }

  lemma PlacedValid(lenses: seq<Lens>, name: string, focal: nat, b: nat)
    requires UniqueLabels(lenses) && forall k :: 0 <= k < |lenses| ==> Hash(lenses[k].name) == b
    requires Hash(name) == b
    ensures var r := Placed(lenses, name, focal);
            UniqueLabels(r) && forall k :: 0 <= k < |r| ==> Hash(r[k].name) == b
  {
    var r := Placed(lenses, name, focal);
    match FindLabel(lenses, name)
    case Some(i) =>
      PlaceExisting(lenses, name, focal, i);
      assert forall k :: 0 <= k < |r| ==> r[k].name == lenses[k].name;
    case None =>
      assert forall k :: 0 <= k < |lenses| ==> r[k] == lenses[k];
  }

  lemma TakenValid(lenses: seq<Lens>, name: string, b: nat)
    requires UniqueLabels(lenses) && forall k :: 0 <= k < |lenses| ==> Hash(lenses[k].name) == b
    ensures var r := Taken(lenses, name);
            UniqueLabels(r) && forall k :: 0 <= k < |r| ==> Hash(r[k].name) == b
  {
    match FindLabel(lenses, name)
    case Some(i) =>
      var r := lenses[..i] + lenses[i + 1..];
      assert forall k :: 0 <= k < |r| ==> r[k] == lenses[if k < i then k else k + 1];
    case None =>
  }

  /** Every step keeps the boxes valid. */
  lemma ApplyValid(boxes: Boxes, cmd: Command)
    requires Valid(boxes)
    ensures Valid(Apply(boxes, cmd))
  {
    var b := Hash(cmd.name);
    match cmd.op
    case Place(f) =>
      PlacedValid(if b in boxes then boxes[b] else [], cmd.name, f, b);
    case Take =>
      if b in boxes {
        TakenValid(boxes[b], cmd.name, b);
      }
  }

  /** A step touches only the box its name hashes to. */
  lemma ApplyOtherBoxes(boxes: Boxes, cmd: Command, b: nat)
    requires b != Hash(cmd.name)
    ensures b in Apply(boxes, cmd) <==> b in boxes
    ensures b in boxes ==> Apply(boxes, cmd)[b] == boxes[b]
  {
  }

  lemma {:induction false} ArrangeValid(boxes: Boxes, cmds: seq<Command>)
    requires Valid(boxes)
    ensures Valid(Arrange(boxes, cmds))
  {
    if cmds != [] {
      ArrangeValid(boxes, cmds[..|cmds| - 1]);
      ApplyValid(Arrange(boxes, cmds[..|cmds| - 1]), cmds[|cmds| - 1]);
    }
  }

  // ---------------------------------------------------------------------
  // Part 2: focusing power
  // ---------------------------------------------------------------------

  /** The lenses of one box, each weighted by its slot number (from 1). */
  function BoxPower(lenses: seq<Lens>): nat
  {
    if lenses == [] then 0
    else BoxPower(lenses[..|lenses| - 1]) + |lenses| * lenses[|lenses| - 1].focal
  }

  /** Boxes `0 .. n - 1`, each box's power weighted by its number plus one.
      The source adds the boxes up in hash-map order; the total is the same
      in any order. */
  function PowerBelow(boxes: Boxes, n: nat): nat
  {
    if n == 0 then 0
    else PowerBelow(boxes, n - 1) + (if n - 1 in boxes then n * BoxPower(boxes[n - 1]) else 0)
  }

  function FocusingPower(boxes: Boxes): nat
  {
    PowerBelow(boxes, 256)
  }

  /** Changing the focal length of the lens in slot `i` changes a box's
      power by `(i + 1)` times the difference. */
  lemma {:induction false} BoxPowerRefocus(lenses: seq<Lens>, i: nat, focal: nat)
    requires i < |lenses|
    ensures BoxPower(lenses[i := Lens(lenses[i].name, focal)]) + (i + 1) * lenses[i].focal
            == BoxPower(lenses) + (i + 1) * focal
  {
    var r := lenses[i := Lens(lenses[i].name, focal)];
    var n := |lenses|;
    if i < n - 1 {
      assert r[..n - 1] == lenses[..n - 1][i := Lens(lenses[i].name, focal)];
      BoxPowerRefocus(lenses[..n - 1], i, focal);
    } else {
      assert r[..n - 1] == lenses[..n - 1];
    }
  }

  /** A lens put last in a box adds its focal length times its slot number. */
  lemma BoxPowerAppend(lenses: seq<Lens>, lens: Lens)
    ensures BoxPower(lenses + [lens]) == BoxPower(lenses) + (|lenses| + 1) * lens.focal
  {
    assert (lenses + [lens])[..|lenses|] == lenses;
  }

  /** Only boxes that hold lenses count: empty or absent boxes add nothing. */
  lemma {:induction false} PowerBelowEmpty(boxes: Boxes, n: nat)
    requires forall b :: b in boxes ==> boxes[b] == []
    ensures PowerBelow(boxes, n) == 0
  {
    if n > 0 {
      PowerBelowEmpty(boxes, n - 1);
    }
  }

  // ---------------------------------------------------------------------
  // Part 2: the procedure
  // ---------------------------------------------------------------------

  /** Every step read as a command; `None` as soon as one does not parse. */
  function ParseAll(steps: seq<string>): (r: Option<seq<Command>>)
    ensures r.Some? <==> forall k :: 0 <= k < |steps| ==> ParseCommand(steps[k]).Some?
    ensures r.Some? ==> (|r.value| == |steps| &&
              forall k :: 0 <= k < |steps| ==> r.value[k] == ParseCommand(steps[k]).value)
  {
    if steps == [] then Some([])
    else
      var init := ParseAll(steps[..|steps| - 1]);
      var last := ParseCommand(steps[|steps| - 1]);
      if init.Some? && last.Some? then Some(init.value + [last.value]) else None
  }

  /** One pass of the source's loop body: look up the box, then find,
      overwrite, push, insert or remove as the step says. */
  method Perform(boxes: Boxes, cmd: Command) returns (after: Boxes)
    ensures after == Apply(boxes, cmd)
  {
    var name := cmd.name;
    var b := Hash(name);
    after := boxes;
    match cmd.op {
      case Place(f) =>
        if b in boxes {
          var lenses := boxes[b];
          var found := FindLabel(lenses, name);
          if found.Some? {
            lenses := lenses[found.value := Lens(name, f)];
          } else {
            lenses := lenses + [Lens(name, f)];
          }
          after := boxes[b := lenses];
        } else {
          assert Placed([], name, f) == [Lens(name, f)];
          after := boxes[b := [Lens(name, f)]];
        }
      case Take =>
        if b in boxes {
          var lenses := boxes[b];
          var found := FindLabel(lenses, name);
          if found.Some? {
            after := boxes[b := lenses[..found.value] + lenses[found.value + 1..]];
          }
        }
    }
  }

  /** Reads every step; stops at the first that does not parse. */
  method ParseSteps(steps: seq<string>) returns (cmds: Option<seq<Command>>)
    ensures cmds == ParseAll(steps)
  {
    var acc: seq<Command> := [];
    for k := 0 to |steps|
      invariant ParseAll(steps[..k]) == Some(acc)
    {
      assert steps[..k + 1][..k] == steps[..k];
      var c := ParseCommand(steps[k]);
      if c.None? {
        assert !(forall j :: 0 <= j < |steps| ==> ParseCommand(steps[j]).Some?);
        assert ParseAll(steps).None?;
        return None;
      }
      acc := acc + [c.value];
    }
    assert steps[..|steps|] == steps;
    cmds := Some(acc);
  }

  /** Part 2: read the steps, run them on the boxes one after the other, and
      report the focusing power of the result. `None` where the source
      panics on a step it cannot read. */
  method Part2(input: string) returns (power: Option<nat>)
    ensures var cmds := ParseAll(SplitTerminator(input, ','));
            (power.Some? <==> cmds.Some?) &&
            (power.Some? ==> power.value == FocusingPower(Arrange(map[], cmds.value)))
  {
    var parsed := ParseSteps(SplitTerminator(input, ','));
    if parsed.None? {
      return None;
    }
    var cmds := parsed.value;
    var boxes: Boxes := map[];
    for k := 0 to |cmds|
      invariant boxes == Arrange(map[], cmds[..k])
    {
      assert cmds[..k + 1][..k] == cmds[..k];
      boxes := Perform(boxes, cmds[k]);
    }
    assert cmds[..|cmds|] == cmds;
    power := Some(FocusingPower(boxes));
  }
}
