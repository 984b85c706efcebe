/** Day 20: a network of modules passes high and low pulses. Flip-flops
    toggle on low pulses, conjunctions remember the last pulse from each
    input and send low once all of them are high, and a broadcaster
    forwards each button press as a low pulse. Pulses are handled first
    in, first out. Part 1 multiplies the numbers of low and high pulses
    over 1000 presses; part 2 records at which press each input of the
    module feeding "rx" first receives a low pulse, and multiplies those
    presses. */
module Day20 {
  import opened Common

  // ---------------------------------------------------------------------
  // Modules and their response to one pulse
  // ---------------------------------------------------------------------

  datatype Pulse = Low | High

  /** A flip-flop is on or off; a conjunction remembers the last pulse
      from each of its inputs. */
  datatype Kind = FlipFlop(on: bool) | Conjunction(mem: map<string, Pulse>)

  datatype Module = Module(outputs: seq<string>, kind: Kind)

  datatype Signal = Signal(source: string, destination: string, pulse: Pulse)

  /** The modules by name; the broadcaster is kept apart. */
  type Computer = map<string, Module>

  predicate AllHigh(mem: map<string, Pulse>)
  {
    forall n :: n in mem ==> mem[n] == High
  }

  /** `process_pulse`: the module's new state and the pulse it sends, if
      any. */
  function Respond(kind: Kind, pulse: Pulse, source: string): (Kind, Option<Pulse>)
  {
    match kind
    case FlipFlop(on) =>
      if pulse == High then (kind, None)
      else if on then (FlipFlop(false), Some(Low))
      else (FlipFlop(true), Some(High))
    case Conjunction(mem) =>
      var mem' := mem[source := pulse];
      (Conjunction(mem'), Some(if AllHigh(mem') then Low else High))
  }

  /** A flip-flop ignores a high pulse: it sends nothing and stays as it is. */
  lemma FlipFlopIgnoresHigh(on: bool, source: string)
    ensures Respond(FlipFlop(on), High, source) == (FlipFlop(on), None)
  {
  }

  /** A low pulse toggles a flip-flop, which sends high when it comes on
      and low when it goes off; two low pulses bring it back. */
  lemma FlipFlopToggles(on: bool, a: string, b: string)
    ensures Respond(FlipFlop(on), Low, a).0 == FlipFlop(!on)
    ensures Respond(FlipFlop(on), Low, a).1 == Some(if on then Low else High)
    ensures Respond(Respond(FlipFlop(on), Low, a).0, Low, b).0 == FlipFlop(on)
  {
  }

  /** A conjunction always sends, and sends low exactly when the pulse it
      received and every other pulse it remembers are high; it remembers
      the new pulse for its sender and nothing else changes. */
  lemma ConjunctionSendsLow(mem: map<string, Pulse>, pulse: Pulse, source: string)
    ensures Respond(Conjunction(mem), pulse, source).0 == Conjunction(mem[source := pulse])
    ensures Respond(Conjunction(mem), pulse, source).1 == Some(Low) <==>
      pulse == High && forall n :: n in mem && n != source ==> mem[n] == High
    ensures Respond(Conjunction(mem), pulse, source).1.Some?
  {
    var mem' := mem[source := pulse];
    if pulse == High && forall n :: n in mem && n != source ==> mem[n] == High {
      assert AllHigh(mem');
    } else if pulse == Low {
      assert mem'[source] == Low;
    } else {
      var n :| n in mem && n != source && mem[n] != High;
      assert mem'[n] != High;
    }
  }

  /** The pulse sequences of the module tests: an off flip-flop answers
      high with nothing, then low with high, then low with low; a
      conjunction remembering low from "a" and "b" answers high from "a"
      with high, then high from "b" with low, then low from "a" with high. */
  lemma ProcessPulseExamples()
    ensures var f0 := FlipFlop(false);
      var (f1, o1) := Respond(f0, High, "hi");
      var (f2, o2) := Respond(f1, Low, "hi");
      var (f3, o3) := Respond(f2, Low, "hi");
      o1 == None && o2 == Some(High) && o3 == Some(Low)
    ensures var c0 := Conjunction(map["a" := Low, "b" := Low]);
      var (c1, p1) := Respond(c0, High, "a");
      var (c2, p2) := Respond(c1, High, "b");
      var (c3, p3) := Respond(c2, Low, "a");
      p1 == Some(High) && p2 == Some(Low) && p3 == Some(High)
  {
    var c0 := Conjunction(map["a" := Low, "b" := Low]);
    ConjunctionSendsLow(c0.mem, High, "a");
    var c1 := Conjunction(map["a" := High, "b" := Low]);
    assert Respond(c0, High, "a").0 == c1 by {
      assert c0.mem["a" := High] == c1.mem;
    }
    assert "b" in c0.mem && "b" != "a" && c0.mem["b"] != High;
    ConjunctionSendsLow(c1.mem, High, "b");
    var c2 := Conjunction(map["a" := High, "b" := High]);
    assert Respond(c1, High, "b").0 == c2 by {
      assert c1.mem["b" := High] == c2.mem;
    }
    ConjunctionSendsLow(c2.mem, Low, "a");
  }

  // ---------------------------------------------------------------------
  // The network, one signal at a time
  // ---------------------------------------------------------------------

  /** What a module sends: its pulse to each of its outputs, in list order. */
  function Fanout(name: string, outputs: seq<string>, p: Pulse): (sent: seq<Signal>)
    ensures |sent| == |outputs|
    ensures forall i :: 0 <= i < |sent| ==> sent[i] == Signal(name, outputs[i], p)
  {
    if outputs == [] then [] else Fanout(name, outputs[..|outputs| - 1], p) + [Signal(name, outputs[|outputs| - 1], p)]
  }

  /** One signal reaches its destination: a name without a module takes
      it silently. */
  function Deliver(c: Computer, s: Signal): (Computer, seq<Signal>)
  {
    if s.destination !in c then (c, [])
    else
      var m := c[s.destination];
      var (kind, out) := Respond(m.kind, s.pulse, s.source);
      (c[s.destination := m.(kind := kind)],
       if out.Some? then Fanout(s.destination, m.outputs, out.value) else [])
  }

  /** The modules, the signals waiting in the queue, and the pulses
      counted so far. */
  datatype Wave = Wave(computer: Computer, queue: seq<Signal>, low: nat, high: nat)

  /** Take the signal at the front of the queue, count it, deliver it and
      queue what it makes its destination send behind everything else. */
  function Step(w: Wave): Wave
    requires w.queue != []
  {
    var s := w.queue[0];
    var (c, sent) := Deliver(w.computer, s);
    Wave(c, w.queue[1..] + sent,
         if s.pulse == Low then w.low + 1 else w.low,
         if s.pulse == High then w.high + 1 else w.high)
  }

  /** At most `k` steps, stopping when the queue is empty. */
  function Run(w: Wave, k: nat): Wave
    decreases k
  {
    if k == 0 || w.queue == [] then w else Run(Step(w), k - 1)
  }

  /** The signals those steps take off the queue, in order. */
  function Trace(w: Wave, k: nat): seq<Signal>
    decreases k
  {
    if k == 0 || w.queue == [] then [] else [w.queue[0]] + Trace(Step(w), k - 1)
  }

  predicate Settled(w: Wave, k: nat)
  {
    Run(w, k).queue == []
  }

  /** The queue empties: the press is over. On a network whose pulses
      feed back for ever the source's loop never ends. */
  ghost predicate Ends(w: Wave)
  {
    exists k: nat :: Settled(w, k)
  }

  ghost function SettleTime(w: Wave): nat
    requires Ends(w)
  {
    var k: nat :| Settled(w, k); k
  }

  /** Where the press leaves the network, and the signals it handled. */
  ghost function Final(w: Wave): Wave
    requires Ends(w)
  {
    Run(w, SettleTime(w))
  }

  ghost function PressTrace(w: Wave): seq<Signal>
    requires Ends(w)
  {
    Trace(w, SettleTime(w))
  }

  /** A signal for a name without a module changes nothing but the
      count and the queue; otherwise the signals behind it keep their
      order and what the destination sends is queued after them. */
  lemma StepQueue(w: Wave)
    requires w.queue != []
    ensures w.queue[0].destination !in w.computer ==>
      Step(w).computer == w.computer && Step(w).queue == w.queue[1..]
    ensures Step(w).queue[..|w.queue| - 1] == w.queue[1..]
    ensures forall i :: |w.queue| - 1 <= i < |Step(w).queue| ==>
      Step(w).queue[i].source == w.queue[0].destination &&
      Step(w).queue[i].destination == w.computer[w.queue[0].destination].outputs[i - (|w.queue| - 1)]
  {
    var s := w.queue[0];
    var (c, sent) := Deliver(w.computer, s);
    assert Step(w).queue == w.queue[1..] + sent;
  }

  /** Each step counts the pulse it takes off the queue. */
  function Lows(t: seq<Signal>): nat
  {
    if t == [] then 0 else Lows(t[..|t| - 1]) + (if t[|t| - 1].pulse == Low then 1 else 0)
  }

  function Highs(t: seq<Signal>): nat
  {
    if t == [] then 0 else Highs(t[..|t| - 1]) + (if t[|t| - 1].pulse == High then 1 else 0)
  }

  lemma {:induction false} LowsHighsFront(s: Signal, t: seq<Signal>)
    ensures Lows([s] + t) == (if s.pulse == Low then 1 else 0) + Lows(t)
    ensures Highs([s] + t) == (if s.pulse == High then 1 else 0) + Highs(t)
    ensures Lows(t) + Highs(t) == |t|
  {
    if t != [] {
      assert ([s] + t)[..|[s] + t| - 1] == [s] + t[..|t| - 1];
      LowsHighsFront(s, t[..|t| - 1]);
    }
  }

  lemma {:induction false} TraceCounts(w: Wave, k: nat)
    ensures Run(w, k).low == w.low + Lows(Trace(w, k))
    ensures Run(w, k).high == w.high + Highs(Trace(w, k))
    decreases k
  {
    if k != 0 && w.queue != [] {
      TraceCounts(Step(w), k - 1);
      LowsHighsFront(w.queue[0], Trace(Step(w), k - 1));
    }
  }

  /** Further steps after the queue has emptied change nothing. */
  lemma {:induction false} RunStays(w: Wave, k: nat, j: nat)
    requires Settled(w, k) && k <= j
    ensures Run(w, j) == Run(w, k) && Trace(w, j) == Trace(w, k)
    decreases k
  {
    if k != 0 && w.queue != [] {
      RunStays(Step(w), k - 1, j - 1);
    }
  }

  lemma OneOutcome(w: Wave, k: nat, j: nat)
    requires Settled(w, k) && Settled(w, j)
    ensures Run(w, j) == Run(w, k) && Trace(w, j) == Trace(w, k)
  {
    if k <= j {
      RunStays(w, k, j);
    } else {
      RunStays(w, j, k);
    }
  }

  /** First in, first out: a press handles the signals queued at its start
      before any other, in their order. */
  lemma {:induction false} TraceStartsWithQueue(w: Wave, k: nat)
    requires Settled(w, k)
    ensures w.queue <= Trace(w, k)
    decreases k
  {
    if k != 0 && w.queue != [] {
      TraceStartsWithQueue(Step(w), k - 1);
      StepQueue(w);
      assert w.queue[1..] <= Step(w).queue;
    }
  }

  /** Stepping `j` times and then `k` more is stepping `j + k` times. */
  lemma {:induction false} RunSplits(w: Wave, j: nat, k: nat)
    ensures Run(Run(w, j), k) == Run(w, j + k)
    ensures Trace(w, j + k) == Trace(w, j) + Trace(Run(w, j), k)
    decreases j
  {
    if j != 0 && w.queue != [] {
      RunSplits(Step(w), j - 1, k);
      assert [w.queue[0]] + Trace(Step(w), j - 1) + Trace(Run(Step(w), j - 1), k) ==
             [w.queue[0]] + (Trace(Step(w), j - 1) + Trace(Run(Step(w), j - 1), k));
    }
  }

  // ---------------------------------------------------------------------
  // One press of the button
  // ---------------------------------------------------------------------

  /** A press: the button's low pulse to the broadcaster is counted, and
      the broadcaster's low pulses to its outputs wait in the queue. */
  function Start(c: Computer, broadcaster: seq<string>, low: nat, high: nat): Wave
  {
    Wave(c, Fanout("broadcaster", broadcaster, Low), low + 1, high)
  }

  /** Queues a module's pulse for each of its outputs, in list order. */
  method Send(queue: seq<Signal>, name: string, outputs: seq<string>, p: Pulse) returns (queue': seq<Signal>)
    ensures queue' == queue + Fanout(name, outputs, p)
  {
    queue' := queue;
    for i := 0 to |outputs|
      invariant queue' == queue + Fanout(name, outputs[..i], p)
    {
      assert outputs[..i + 1][..i] == outputs[..i];
      queue' := queue' + [Signal(name, outputs[i], p)];
    }
    assert outputs[..|outputs|] == outputs;
  }

  /** Takes the signal at the front of the queue and delivers it: its
      destination, if it is a module, updates its state and queues what
      it sends behind everything else. */
  method Handle(c: Computer, queue: seq<Signal>) returns (c': Computer, queue': seq<Signal>)
    requires queue != []
    ensures c' == Deliver(c, queue[0]).0
    ensures queue' == queue[1..] + Deliver(c, queue[0]).1
  {
    var s := queue[0];
    c', queue' := c, queue[1..];
    if s.destination in c {
      var m := c[s.destination];
      var (kind, out) := Respond(m.kind, s.pulse, s.source);
      c' := c[s.destination := m.(kind := kind)];
      if out.Some? {
        queue' := Send(queue', s.destination, m.outputs, out.value);
      }
    }
  }

  /** Handles signals until the queue is empty: the network and the
      counts end where the press ends, and `processed` lists the signals
      handled, in order. */
  method Press(c: Computer, broadcaster: seq<string>, low: nat, high: nat)
    returns (c': Computer, low': nat, high': nat, processed: seq<Signal>)
    requires Ends(Start(c, broadcaster, low, high))
    ensures Wave(c', [], low', high') == Final(Start(c, broadcaster, low, high))
    ensures processed == PressTrace(Start(c, broadcaster, low, high))
  {
    ghost var start := Start(c, broadcaster, low, high);
    ghost var k := SettleTime(start);
    var signals := Fanout("broadcaster", broadcaster, Low);
    c', low', high' := c, low + 1, high;
    processed := [];
    ghost var steps := 0;
    while signals != []
      invariant steps <= k
      invariant Run(Wave(c', signals, low', high'), k - steps) == Run(start, k)
      invariant Trace(start, k) == processed + Trace(Wave(c', signals, low', high'), k - steps)
      decreases k - steps
    {
      ghost var w := Wave(c', signals, low', high');
      var s := signals[0];
      processed := processed + [s];
      if s.pulse == Low {
        low' := low' + 1;
      } else {
        high' := high' + 1;
      }
      c', signals := Handle(c', signals);
      assert Wave(c', signals, low', high') == Step(w);
      steps := steps + 1;
    }
  }

  // ---------------------------------------------------------------------
  // Presses one after another
  // ---------------------------------------------------------------------

  /** A handled signal, with the number of the press it belongs to. */
  type Tagged = (nat, Signal)

  function Tag(press: nat, t: seq<Signal>): (h: seq<Tagged>)
    ensures |h| == |t|
    ensures forall i :: 0 <= i < |h| ==> h[i] == (press, t[i])
  {
    seq(|t|, i requires 0 <= i < |t| => (press, t[i]))
  }

  lemma TagAppend(press: nat, t: seq<Signal>, u: seq<Signal>)
    ensures Tag(press, t + u) == Tag(press, t) + Tag(press, u)
  {
  }

  /** Where `n` presses leave the network, and every signal they handled. */
  datatype Session = Session(wave: Wave, history: seq<Tagged>)

  function NextPress(w: Wave, broadcaster: seq<string>): Wave
  {
    Start(w.computer, broadcaster, w.low, w.high)
  }

  /** `None` when one of the presses never ends. */
  ghost function Presses(c: Computer, broadcaster: seq<string>, n: nat): Option<Session>
  {
    if n == 0 then Some(Session(Wave(c, [], 0, 0), []))
    else
      var before := Presses(c, broadcaster, n - 1);
      if before.None? then None
      else
        var w := NextPress(before.value.wave, broadcaster);
        if Ends(w) then Some(Session(Final(w), before.value.history + Tag(n, PressTrace(w))))
        else None
  }

  /** Fewer presses end when more do, and their history comes first. */
  lemma {:induction false} PressesPrefix(c: Computer, broadcaster: seq<string>, i: nat, n: nat)
    requires i <= n && Presses(c, broadcaster, n).Some?
    ensures Presses(c, broadcaster, i).Some?
    ensures Presses(c, broadcaster, i).value.history <= Presses(c, broadcaster, n).value.history
    decreases n
  {
    if i < n {
      PressesPrefix(c, broadcaster, i, n - 1);
    }
  }

  /** One more press, when it ends, extends the session by its trace. */
  lemma PressesNext(c: Computer, broadcaster: seq<string>, n: nat)
    requires Presses(c, broadcaster, n + 1).Some?
    ensures Presses(c, broadcaster, n).Some?
    ensures Ends(NextPress(Presses(c, broadcaster, n).value.wave, broadcaster))
    ensures var w := NextPress(Presses(c, broadcaster, n).value.wave, broadcaster);
      Presses(c, broadcaster, n + 1) ==
        Some(Session(Final(w), Presses(c, broadcaster, n).value.history + Tag(n + 1, PressTrace(w))))
  {
  }

  /** After the presses the queue is empty, each press has counted one
      low pulse for the button, and every handled signal has been counted
      by its pulse. */
  lemma {:induction false} PressCounts(c: Computer, broadcaster: seq<string>, n: nat)
    requires Presses(c, broadcaster, n).Some?
    ensures Presses(c, broadcaster, n).value.wave.queue == []
    ensures Presses(c, broadcaster, n).value.wave.low == n + Lows(Signals(Presses(c, broadcaster, n).value.history))
    ensures Presses(c, broadcaster, n).value.wave.high == Highs(Signals(Presses(c, broadcaster, n).value.history))
    decreases n
  {
    if n > 0 {
      var before := Presses(c, broadcaster, n - 1).value;
      PressCounts(c, broadcaster, n - 1);
      var w := NextPress(before.wave, broadcaster);
      TraceCounts(w, SettleTime(w));
      SignalsAppend(before.history, Tag(n, PressTrace(w)));
      assert Signals(Tag(n, PressTrace(w))) == PressTrace(w);
      LowsHighsAppend(Signals(before.history), PressTrace(w));
    }
  }

  function Signals(h: seq<Tagged>): (t: seq<Signal>)
    ensures |t| == |h|
    ensures forall i :: 0 <= i < |t| ==> t[i] == h[i].1
  {
    seq(|h|, i requires 0 <= i < |h| => h[i].1)
  }

  lemma SignalsAppend(h: seq<Tagged>, g: seq<Tagged>)
    ensures Signals(h + g) == Signals(h) + Signals(g)
  {
  }

  lemma {:induction false} LowsHighsAppend(t: seq<Signal>, u: seq<Signal>)
    ensures Lows(t + u) == Lows(t) + Lows(u)
    ensures Highs(t + u) == Highs(t) + Highs(u)
  {
    if u != [] {
      assert (t + u)[..|t + u| - 1] == t + u[..|u| - 1];
      LowsHighsAppend(t, u[..|u| - 1]);
    } else {
      assert t + u == t;
    }
  }

  // ---------------------------------------------------------------------
  // Building the network
  // ---------------------------------------------------------------------

  /** The kind a module line's first character names; any other panics. */
  function KindOf(c: char): (k: Option<Kind>)
    ensures k.Some? <==> c == '&' || c == '%'
  {
    if c == '&' then Some(Conjunction(map[]))
    else if c == '%' then Some(FlipFlop(false))
    else None
  }

  /** The module lines read so far: the broadcaster's outputs (those of
      the last "broadcaster" line) and the modules by the name after the
      kind character, a later line replacing an earlier one; `None` once
      a line names no kind. */
  function Built(lines: seq<(string, seq<string>)>): Option<(seq<string>, Computer)>
  {
    if lines == [] then Some(([], map[]))
    else
      var before := Built(lines[..|lines| - 1]);
      var (name, outputs) := lines[|lines| - 1];
      if before.None? then None
      else if name == "broadcaster" then Some((outputs, before.value.1))
      else if name == [] || KindOf(name[0]).None? then None
      else Some((before.value.0, before.value.1[name[1..] := Module(outputs, KindOf(name[0]).value)]))
  }

  /** Line `i` defines the module called `name`. */
  predicate Defines(line: (string, seq<string>), name: string)
  {
    line.0 != "broadcaster" && line.0 != [] && line.0[1..] == name
  }

  predicate Readable(line: (string, seq<string>))
  {
    line.0 == "broadcaster" || (line.0 != [] && KindOf(line.0[0]).Some?)
  }

  /** The lines are read exactly when every line other than the
      broadcaster's starts with '&' or '%'; a module exists exactly when
      some line defines it, and it comes from the last such line; the
      conjunctions start with nothing remembered. */
  lemma {:induction false} BuiltLast(lines: seq<(string, seq<string>)>, name: string)
    ensures Built(lines).Some? <==> forall i :: 0 <= i < |lines| ==> Readable(lines[i])
    ensures Built(lines).Some? ==>
      (name in Built(lines).value.1 <==> exists i :: 0 <= i < |lines| && Defines(lines[i], name))
    ensures Built(lines).Some? && name in Built(lines).value.1 ==>
      exists i :: 0 <= i < |lines| && Defines(lines[i], name) &&
        Built(lines).value.1[name] == Module(lines[i].1, KindOf(lines[i].0[0]).value) &&
        forall j :: i < j < |lines| ==> !Defines(lines[j], name)
    ensures Built(lines).Some? && name in Built(lines).value.1 && Built(lines).value.1[name].kind.Conjunction? ==>
      Built(lines).value.1[name].kind.mem == map[]
  {
    if lines != [] {
      var init := lines[..|lines| - 1];
      var last := lines[|lines| - 1];
      BuiltLast(init, name);
      assert forall i :: 0 <= i < |init| ==> init[i] == lines[i];
      if Built(lines).Some? && name in Built(lines).value.1 {
        if Defines(last, name) {
          assert Built(lines).value.1[name] == Module(last.1, KindOf(last.0[0]).value);
        } else {
          var i :| 0 <= i < |init| && Defines(init[i], name) &&
            Built(init).value.1[name] == Module(init[i].1, KindOf(init[i].0[0]).value) &&
            forall j :: i < j < |init| ==> !Defines(init[j], name);
          assert forall j :: i < j < |lines| ==> !Defines(lines[j], name) by {
            forall j | i < j < |lines|
              ensures !Defines(lines[j], name)
            {
              if j < |init| {
                assert lines[j] == init[j];
              }
            }
          }
        }
      }
    }
  }

  predicate LastBroadcaster(lines: seq<(string, seq<string>)>, i: nat)
    requires i < |lines|
  {
    lines[i].0 == "broadcaster" && forall j :: i < j < |lines| ==> lines[j].0 != "broadcaster"
  }

  /** The broadcaster's outputs are those of the last "broadcaster" line,
      and none when there is no such line. */
  lemma {:induction false} BuiltBroadcaster(lines: seq<(string, seq<string>)>)
    requires Built(lines).Some?
    ensures (forall i :: 0 <= i < |lines| ==> lines[i].0 != "broadcaster") ==> Built(lines).value.0 == []
    ensures forall i :: 0 <= i < |lines| && LastBroadcaster(lines, i) ==> Built(lines).value.0 == lines[i].1
  {
    if lines != [] {
      var init := lines[..|lines| - 1];
      BuiltBroadcaster(init);
      assert forall i :: 0 <= i < |init| ==> init[i] == lines[i];
    }
  }

  /** Reads the module lines one by one. */
  method Build(lines: seq<(string, seq<string>)>) returns (r: Option<(seq<string>, Computer)>)
    ensures r == Built(lines)
  {
    var broadcaster: seq<string> := [];
    var computer: Computer := map[];
    for i := 0 to |lines|
      invariant Built(lines[..i]) == Some((broadcaster, computer))
    {
      assert lines[..i + 1][..i] == lines[..i];
      var (name, outputs) := lines[i];
      if name == "broadcaster" {
        broadcaster := outputs;
      } else {
        if name == [] {
          BuiltNone(lines, i + 1);
          return None;
        }
        var kind := KindOf(name[0]);
        if kind.None? {
          BuiltNone(lines, i + 1);
          return None;
        }
        computer := computer[name[1..] := Module(outputs, kind.value)];
      }
    }
    assert lines[..|lines|] == lines;
    r := Some((broadcaster, computer));
  }

  /** Once a line cannot be read, no longer list can be. */
  lemma {:induction false} BuiltNone(lines: seq<(string, seq<string>)>, i: nat)
    requires i <= |lines| && Built(lines[..i]).None?
    ensures Built(lines).None?
    decreases |lines| - i
  {
    if i < |lines| {
      assert lines[..i + 1][..i] == lines[..i];
      BuiltNone(lines, i + 1);
    } else {
      assert lines[..i] == lines;
    }
  }

  /** The modules that list `name` among their outputs, each remembered
      as having sent low. */
  function InputsLow(c: Computer, name: string): (mem: map<string, Pulse>)
    ensures forall x :: x in mem <==> x in c && name in c[x].outputs
    ensures forall x :: x in mem ==> mem[x] == Low
  {
    map x | x in c && name in c[x].outputs :: Low
  }

  /** The network once every conjunction remembers a low pulse from each
      of its inputs. */
  function Wired(c: Computer): (wired: Computer)
    ensures wired.Keys == c.Keys
    ensures forall n :: n in c ==> wired[n].outputs == c[n].outputs
    ensures forall n :: n in c && c[n].kind.FlipFlop? ==> wired[n] == c[n]
    ensures forall n :: n in c && c[n].kind.Conjunction? ==>
      wired[n].kind == Conjunction(c[n].kind.mem + InputsLow(c, n))
  {
    map n | n in c :: WiredModule(c, n)
  }

  function WiredModule(c: Computer, n: string): Module
    requires n in c
  {
    match c[n].kind
    case FlipFlop(_) => c[n]
    case Conjunction(mem) => c[n].(kind := Conjunction(mem + InputsLow(c, n)))
  }

  /** Every name of the network appears in `order`, once: the order in
      which the source's hash map happens to hand them out. */
  ghost predicate Lists(order: seq<string>, c: Computer)
  {
    (forall x :: x in c <==> x in order) &&
    (forall i, j :: 0 <= i < j < |order| ==> order[i] != order[j])
  }

  /** Fills in one conjunction's memory, going through the network. */
  method Inputs(c: Computer, order: seq<string>, name: string, mem: map<string, Pulse>)
    returns (mem': map<string, Pulse>)
    requires forall x :: x in c <==> x in order
    ensures mem' == mem + InputsLow(c, name)
  {
    mem' := mem;
    for i := 0 to |order|
      invariant forall x :: x in mem' <==> x in mem || (x in order[..i] && x in c && name in c[x].outputs)
      invariant forall x :: x in mem' ==> mem'[x] == if x in order[..i] && x in c && name in c[x].outputs then Low else mem[x]
    {
      assert order[..i + 1] == order[..i] + [order[i]];
      var x := order[i];
      if x in c && name in c[x].outputs {
        mem' := mem'[x := Low];
      }
    }
    assert order[..|order|] == order;
  }

  /** Gives every conjunction a memory of low pulses from its inputs. */
  method Wire(c: Computer, order: seq<string>) returns (wired: Computer)
    requires forall x :: x in c <==> x in order
    ensures wired == Wired(c)
  {
    wired := map[];
    for i := 0 to |order|
      invariant wired == map n | n in order[..i] && n in c :: WiredModule(c, n)
    {
      assert order[..i + 1] == order[..i] + [order[i]];
      var n := order[i];
      if n in c {
        var m := c[n];
        if m.kind.Conjunction? {
          var mem := Inputs(c, order, n, m.kind.mem);
          m := m.(kind := Conjunction(mem));
        }
        wired := wired[n := m];
      }
    }
    assert order[..|order|] == order;
  }

  /** Each conjunction of a freshly read network starts out remembering
      low for exactly the modules that list it as an output. */
  lemma WiredMemory(lines: seq<(string, seq<string>)>, n: string)
    requires Built(lines).Some?
    requires n in Built(lines).value.1 && Built(lines).value.1[n].kind.Conjunction?
    ensures var c := Built(lines).value.1;
      forall x :: (x in Wired(c)[n].kind.mem <==> x in c && n in c[x].outputs) &&
                  (x in Wired(c)[n].kind.mem ==> Wired(c)[n].kind.mem[x] == Low)
  {
    BuiltLast(lines, n);
    var c := Built(lines).value.1;
    assert c[n].kind.mem + InputsLow(c, n) == InputsLow(c, n);
  }

  // ---------------------------------------------------------------------
  // Part 1
  // ---------------------------------------------------------------------

  /** Part 1: the number of low pulses times the number of high pulses
      over 1000 presses; `None` where the source panics on a line whose
      kind character is neither '&' nor '%'. */
  method Part1(lines: seq<(string, seq<string>)>, order: seq<string>) returns (r: Option<nat>)
    requires Built(lines).Some? ==>
      Lists(order, Built(lines).value.1) &&
      Presses(Wired(Built(lines).value.1), Built(lines).value.0, 1000).Some?
    ensures r.Some? <==> Built(lines).Some?
    ensures r.Some? ==>
      var w := Presses(Wired(Built(lines).value.1), Built(lines).value.0, 1000).value.wave;
      r.value == w.low * w.high
  {
    var built := Build(lines);
    if built.None? {
      return None;
    }
    var (broadcaster, c0) := built.value;
    var c := Wire(c0, order);
    ghost var wired := c;
    var low: nat, high: nat := 0, 0;
    ghost var history: seq<Tagged> := [];
    for n := 0 to 1000
      invariant Presses(wired, broadcaster, n) == Some(Session(Wave(c, [], low, high), history))
    {
      PressesPrefix(wired, broadcaster, n + 1, 1000);
      var processed;
      c, low, high, processed := Press(c, broadcaster, low, high);
      history := history + Tag(n + 1, processed);
    }
    ProductOfNats(low, high);
    r := Some(low * high);
  }

  // ---------------------------------------------------------------------
  // Part 2: watching the inputs of the module that feeds "rx"
  // ---------------------------------------------------------------------

  /** A low pulse for a watched module. */
  predicate LowTo(t: Tagged, name: string)
  {
    t.1.destination == name && t.1.pulse == Low
  }

  /** Every watched module has a press recorded. */
  predicate AllRecorded(keys: map<string, nat>)
  {
    forall x :: x in keys ==> keys[x] != 0
  }

  /** The press of the first low pulse for `name` in a history, 0 if none. */
  function FirstLow(h: seq<Tagged>, name: string): nat
  {
    if h == [] then 0
    else if LowTo(h[0], name) then h[0].0
    else FirstLow(h[1..], name)
  }

  /** `FirstLow` finds the earliest low pulse for the module. */
  lemma {:induction false} FirstLowIsFirst(h: seq<Tagged>, name: string)
    requires forall i :: 0 <= i < |h| ==> h[i].0 != 0
    ensures FirstLow(h, name) != 0 <==> exists i :: 0 <= i < |h| && LowTo(h[i], name)
    ensures FirstLow(h, name) != 0 ==>
      exists i :: 0 <= i < |h| && LowTo(h[i], name) && h[i].0 == FirstLow(h, name) &&
        forall j :: 0 <= j < i ==> !LowTo(h[j], name)
  {
    if h != [] && !LowTo(h[0], name) {
      FirstLowIsFirst(h[1..], name);
      if exists i :: 0 <= i < |h| && LowTo(h[i], name) {
        var i :| 0 <= i < |h| && LowTo(h[i], name);
        assert h[1..][i - 1] == h[i];
      }
      if FirstLow(h, name) != 0 {
        var i :| 0 <= i < |h[1..]| && LowTo(h[1..][i], name) && h[1..][i].0 == FirstLow(h, name) &&
          forall j :: 0 <= j < i ==> !LowTo(h[1..][j], name);
        assert forall j :: 0 <= j < i + 1 ==> !LowTo(h[j], name) by {
          forall j | 0 <= j < i + 1
            ensures !LowTo(h[j], name)
          {
            if j > 0 {
              assert h[j] == h[1..][j - 1];
            }
          }
        }
      }
    }
  }

  lemma {:induction false} FirstLowAppend(h: seq<Tagged>, t: Tagged, name: string)
    ensures FirstLow(h + [t], name) ==
      if FirstLow(h, name) != 0 || exists i :: 0 <= i < |h| && LowTo(h[i], name) then FirstLow(h, name)
      else if LowTo(t, name) then t.0 else 0
  {
    if h == [] {
      assert [t][1..] == [];
    } else {
      assert (h + [t])[1..] == h[1..] + [t];
      FirstLowAppend(h[1..], t, name);
      if exists i :: 0 <= i < |h[1..]| && LowTo(h[1..][i], name) {
        var i :| 0 <= i < |h[1..]| && LowTo(h[1..][i], name);
        assert LowTo(h[i + 1], name);
      }
      if exists i :: 0 <= i < |h| && LowTo(h[i], name) {
        var i :| 0 <= i < |h| && LowTo(h[i], name);
        if i > 0 {
          assert LowTo(h[1..][i - 1], name);
        }
      }
    }
  }

  /** Recording a low pulse, corrected: a module keeps the first press it
      was seen at. */
  function Record(keys: map<string, nat>, t: Tagged): map<string, nat>
  {
    if t.1.destination in keys && t.1.pulse == Low && keys[t.1.destination] == 0
    then keys[t.1.destination := t.0] else keys
  }

  function Watch(keys: map<string, nat>, h: seq<Tagged>): (watched: map<string, nat>)
    ensures watched.Keys == keys.Keys
  {
    if h == [] then keys else Record(Watch(keys, h[..|h| - 1]), h[|h| - 1])
  }

  /** Watching a history in two parts. */
  lemma {:induction false} WatchAppend(keys: map<string, nat>, h: seq<Tagged>, g: seq<Tagged>)
    ensures Watch(keys, h + g) == Watch(Watch(keys, h), g)
  {
    if g == [] {
      assert h + g == h;
    } else {
      assert (h + g)[..|h + g| - 1] == h + g[..|g| - 1];
      WatchAppend(keys, h, g[..|g| - 1]);
    }
  }

  /** Once every watched module has a press, nothing changes any more. */
  lemma {:induction false} WatchDone(keys: map<string, nat>, h: seq<Tagged>)
    requires AllRecorded(keys)
    ensures Watch(keys, h) == keys
  {
    if h != [] {
      WatchDone(keys, h[..|h| - 1]);
    }
  }

  /** Starting from nothing recorded, the watch records for each module
      the press of its first low pulse in the history. */
  lemma {:induction false} WatchFindsFirst(keys: map<string, nat>, h: seq<Tagged>, name: string)
    requires name in keys && keys[name] == 0
    requires forall i :: 0 <= i < |h| ==> h[i].0 != 0
    ensures Watch(keys, h)[name] == FirstLow(h, name)
  {
    if h != [] {
      var init := h[..|h| - 1];
      WatchFindsFirst(keys, init, name);
      FirstLowAppend(init, h[|h| - 1], name);
      FirstLowIsFirst(init, name);
      assert init + [h[|h| - 1]] == h;
    }
  }

  /** Recording as written: every low pulse overwrites the press recorded
      for its module. */
  function RecordAsWritten(keys: map<string, nat>, t: Tagged): (r: map<string, nat>)
    ensures r.Keys == keys.Keys
    ensures forall x :: x in r ==> r[x] == if x == t.1.destination && t.1.pulse == Low then t.0 else keys[x]
  {
    if t.1.destination in keys && t.1.pulse == Low then keys[t.1.destination := t.0] else keys
  }

  /** The source's watch: stops at the first low pulse for a watched
      module after which every watched module has a press. */
  function WatchAsWritten(keys: map<string, nat>, h: seq<Tagged>): (r: (map<string, nat>, bool))
    ensures r.0.Keys == keys.Keys
    ensures r.1 ==> AllRecorded(r.0)
  {
    if h == [] then (keys, false)
    else
      var (before, stopped) := WatchAsWritten(keys, h[..|h| - 1]);
      var t := h[|h| - 1];
      if stopped then (before, true)
      else if t.1.destination in before && t.1.pulse == Low then
        var after := RecordAsWritten(before, t);
        (after, AllRecorded(after))
      else (before, false)
  }

  /** Module "a" gets low pulses at presses 1 and 2, module "b" its first
      at press 3: as written "a" ends with press 2, so the product is 6,
      where the first presses multiply to 3. */
  lemma OverwrittenPress()
    ensures var keys := map["a" := 0, "b" := 0];
      var h := [(1, Signal("broadcaster", "a", Low)), (2, Signal("broadcaster", "a", Low)),
                (3, Signal("c", "b", Low))];
      WatchAsWritten(keys, h).0 == map["a" := 2, "b" := 3] &&
      FirstLow(h, "a") == 1 && FirstLow(h, "b") == 3 &&
      Watch(keys, h) == map["a" := 1, "b" := 3]
  {
    var keys := map["a" := 0, "b" := 0];
    var t1: Tagged, t2: Tagged, t3: Tagged := (1, Signal("broadcaster", "a", Low)), (2, Signal("broadcaster", "a", Low)), (3, Signal("c", "b", Low));
    var h: seq<Tagged> := [t1, t2, t3];
    var none: seq<Tagged> := [];
    assert h[..2] == [t1, t2] && h[..2][..1] == [t1] && [t1][..0] == none;
    assert WatchAsWritten(keys, none) == (keys, false);
    assert RecordAsWritten(keys, t1) == map["a" := 1, "b" := 0];
    assert WatchAsWritten(keys, [t1]) == (map["a" := 1, "b" := 0], false) by {
      assert !AllRecorded(map["a" := 1, "b" := 0]) by {
        assert map["a" := 1, "b" := 0]["b"] == 0;
      }
    }
    assert RecordAsWritten(map["a" := 1, "b" := 0], t2) == map["a" := 2, "b" := 0];
    assert WatchAsWritten(keys, [t1, t2]) == (map["a" := 2, "b" := 0], false) by {
      assert !AllRecorded(map["a" := 2, "b" := 0]) by {
        assert map["a" := 2, "b" := 0]["b"] == 0;
      }
    }
    assert map["a" := 2, "b" := 0]["b" := 3] == map["a" := 2, "b" := 3];
    assert Watch(keys, [t1]) == map["a" := 1, "b" := 0];
    assert Watch(keys, [t1, t2]) == map["a" := 1, "b" := 0];
    assert map["a" := 1, "b" := 0]["b" := 3] == map["a" := 1, "b" := 3];
    assert h[1..] == [t2, t3] && h[1..][1..] == [t3];
  }

  lemma WatchStep(keys: map<string, nat>, h: seq<Tagged>, t: Tagged)
    ensures Watch(keys, h + [t]) == Record(Watch(keys, h), t)
  {
    assert (h + [t])[..|h + [t]| - 1] == h;
  }

  /** Every signal the presses handled carries the number of its press,
      counting from 1. */
  lemma {:induction false} HistoryTags(c: Computer, broadcaster: seq<string>, n: nat)
    requires Presses(c, broadcaster, n).Some?
    ensures forall i :: 0 <= i < |Presses(c, broadcaster, n).value.history| ==>
      1 <= Presses(c, broadcaster, n).value.history[i].0 <= n
    decreases n
  {
    if n > 0 {
      HistoryTags(c, broadcaster, n - 1);
    }
  }

  /** A module that sends to "rx". */
  predicate FeedsRx(c: Computer, name: string)
  {
    name in c && "rx" in c[name].outputs
  }

  /** The first module, in the order the hash map hands them out, that
      sends to "rx"; `None` where the source's `unwrap` panics. */
  function Feeder(c: Computer, order: seq<string>): (f: Option<string>)
    ensures f.Some? ==> FeedsRx(c, f.value) && f.value in order
  {
    if order == [] then None
    else if FeedsRx(c, order[0]) then Some(order[0])
    else Feeder(c, order[1..])
  }

  /** `Feeder` misses no module that sends to "rx" and takes the first. */
  lemma {:induction false} FeederIsFirst(c: Computer, order: seq<string>)
    ensures Feeder(c, order).None? <==> forall x :: x in order ==> !FeedsRx(c, x)
    ensures Feeder(c, order).Some? ==>
      exists i :: 0 <= i < |order| && order[i] == Feeder(c, order).value &&
        forall j :: 0 <= j < i ==> !FeedsRx(c, order[j])
  {
    if order != [] && !FeedsRx(c, order[0]) {
      var rest := order[1..];
      FeederIsFirst(c, rest);
      assert forall x :: x in order <==> x == order[0] || x in rest;
      if Feeder(c, rest).Some? {
        var i :| 0 <= i < |rest| && rest[i] == Feeder(c, rest).value &&
          forall j :: 0 <= j < i ==> !FeedsRx(c, rest[j]);
        assert forall j :: 0 <= j < i + 1 ==> !FeedsRx(c, order[j]) by {
          forall j | 0 <= j < i + 1
            ensures !FeedsRx(c, order[j])
          {
            if j > 0 {
              assert order[j] == rest[j - 1];
            }
          }
        }
        assert order[i + 1] == rest[i];
      }
    }
  }

  /** The names in `order` that belong to `keys`, in that order. */
  function Among(order: seq<string>, keys: set<string>): (named: seq<string>)
    ensures forall x :: x in named <==> x in order && x in keys
  {
    if order == [] then []
    else Among(order[..|order| - 1], keys) + (if order[|order| - 1] in keys then [order[|order| - 1]] else [])
  }

  /** Each name is taken once when `order` names it once. */
  lemma {:induction false} AmongOnce(order: seq<string>, keys: set<string>)
    requires forall i, j :: 0 <= i < j < |order| ==> order[i] != order[j]
    ensures forall i, j :: 0 <= i < j < |Among(order, keys)| ==> Among(order, keys)[i] != Among(order, keys)[j]
  {
    if order != [] {
      var init := order[..|order| - 1];
      AmongOnce(init, keys);
      assert order[|order| - 1] !in init;
    }
  }

  function Product(s: seq<nat>): nat
  {
    if s == [] then 1 else Product(s[..|s| - 1]) * s[|s| - 1]
  }

  /** The product is zero exactly when one of the factors is. */
  lemma {:induction false} ProductZero(s: seq<nat>)
    ensures Product(s) == 0 <==> 0 in s
  {
    if s != [] {
      ProductZero(s[..|s| - 1]);
      assert s == s[..|s| - 1] + [s[|s| - 1]];
    }
  }

  function FirstLows(h: seq<Tagged>, names: seq<string>): (presses: seq<nat>)
    ensures |presses| == |names|
    ensures forall i :: 0 <= i < |names| ==> presses[i] == FirstLow(h, names[i])
  {
    seq(|names|, i requires 0 <= i < |names| => FirstLow(h, names[i]))
  }

  /** Records one signal (corrected); `all` tells whether it was a low
      pulse for a watched module after which every watched module has a
      press. */
  method Notice(keys: map<string, nat>, press: nat, s: Signal) returns (keys': map<string, nat>, all: bool)
    ensures keys' == Record(keys, (press, s))
    ensures all <==> s.destination in keys && s.pulse == Low && AllRecorded(keys')
  {
    keys', all := keys, false;
    if s.destination in keys && s.pulse == Low {
      if keys[s.destination] == 0 {
        keys' := keys[s.destination := press];
      }
      all := AllRecorded(keys');
    }
  }

  /** Once every watched module has a press, the rest of a press changes
      nothing. */
  lemma StopEarly(keys: map<string, nat>, press: nat, done: seq<Signal>, rest: seq<Signal>)
    requires AllRecorded(Watch(keys, Tag(press, done)))
    ensures Watch(keys, Tag(press, done + rest)) == Watch(keys, Tag(press, done))
  {
    TagAppend(press, done, rest);
    WatchAppend(keys, Tag(press, done), Tag(press, rest));
    WatchDone(Watch(keys, Tag(press, done)), Tag(press, rest));
  }

  /** One step further into a press that has not ended yet. */
  lemma TakeStep(start: Wave, k: nat, steps: nat, w: Wave, done: seq<Signal>)
    requires Settled(start, k) && steps <= k && w.queue != []
    requires Run(w, k - steps) == Run(start, k)
    requires Trace(start, k) == done + Trace(w, k - steps)
    ensures steps < k
    ensures Run(Step(w), k - steps - 1) == Run(start, k)
    ensures Trace(start, k) == (done + [w.queue[0]]) + Trace(Step(w), k - steps - 1)
  {
  }

  lemma WatchTagStep(keys: map<string, nat>, press: nat, done: seq<Signal>, s: Signal)
    ensures Watch(keys, Tag(press, done + [s])) == Record(Watch(keys, Tag(press, done)), (press, s))
  {
    TagAppend(press, done, [s]);
    WatchStep(keys, Tag(press, done), (press, s));
  }

  /** One press of part 2: each low pulse for a watched module is recorded
      before it is delivered, and the press breaks off as soon as every
      watched module has a press. */
  method PressWatching(c: Computer, broadcaster: seq<string>, press: nat, keys: map<string, nat>,
                       ghost low: nat, ghost high: nat)
    returns (c': Computer, keys': map<string, nat>, stop: bool, ghost low': nat, ghost high': nat)
    requires Ends(Start(c, broadcaster, low, high))
    ensures keys' == Watch(keys, Tag(press, PressTrace(Start(c, broadcaster, low, high))))
    ensures stop ==> AllRecorded(keys')
    ensures !stop ==> Wave(c', [], low', high') == Final(Start(c, broadcaster, low, high))
  {
    ghost var start := Start(c, broadcaster, low, high);
    ghost var k := SettleTime(start);
    var signals := Fanout("broadcaster", broadcaster, Low);
    c', low', high' := c, low + 1, high;
    keys', stop := keys, false;
    ghost var processed: seq<Signal> := [];
    ghost var steps := 0;
    while signals != []
      invariant steps <= k
      invariant Run(Wave(c', signals, low', high'), k - steps) == Run(start, k)
      invariant Trace(start, k) == processed + Trace(Wave(c', signals, low', high'), k - steps)
      invariant keys' == Watch(keys, Tag(press, processed))
      decreases k - steps
    {
      ghost var w := Wave(c', signals, low', high');
      var s := signals[0];
      TakeStep(start, k, steps, w, processed);
      WatchTagStep(keys, press, processed, s);
      processed := processed + [s];
      var all;
      keys', all := Notice(keys', press, s);
      if all {
        stop := true;
        StopEarly(keys, press, processed, Trace(Step(w), k - steps - 1));
        return;
      }
      if s.pulse == Low {
        low' := low' + 1;
      } else {
        high' := high' + 1;
      }
      c', signals := Handle(c', signals);
      assert Wave(c', signals, low', high') == Step(w);
      steps := steps + 1;
    }
    assert processed == PressTrace(start);
  }

  /** After the loop of part 2: what was recorded over the presses made
      is what the full 10001 presses would record, and for each watched
      module that is the press of its first low pulse. */
  lemma WatchedAll(c: Computer, broadcaster: seq<string>, n: nat, total: nat,
                   keys0: map<string, nat>, keys: map<string, nat>)
    requires n <= total && Presses(c, broadcaster, total).Some?
    requires Presses(c, broadcaster, n).Some?
    requires keys == Watch(keys0, Presses(c, broadcaster, n).value.history)
    requires n == total || AllRecorded(keys)
    requires forall x :: x in keys0 ==> keys0[x] == 0
    ensures keys.Keys == keys0.Keys
    ensures forall x :: x in keys ==> keys[x] == FirstLow(Presses(c, broadcaster, total).value.history, x)
  {
    var full := Presses(c, broadcaster, total).value.history;
    PressesPrefix(c, broadcaster, n, total);
    WatchRest(keys0, Presses(c, broadcaster, n).value.history, full);
    HistoryTags(c, broadcaster, total);
    forall x | x in keys
      ensures keys[x] == FirstLow(full, x)
    {
      WatchFindsFirst(keys0, full, x);
    }
  }

  /** The presses recorded for the watched modules, in the order given. */
  function Recorded(keys: map<string, nat>, watched: seq<string>): (presses: seq<nat>)
    requires forall x :: x in watched ==> x in keys
    ensures |presses| == |watched|
    ensures forall i :: 0 <= i < |watched| ==> presses[i] == keys[watched[i]]
  {
    seq(|watched|, i requires 0 <= i < |watched| => keys[watched[i]])
  }

  lemma RecordedFirst(keys: map<string, nat>, watched: seq<string>, h: seq<Tagged>)
    requires forall x :: x in watched ==> x in keys && keys[x] == FirstLow(h, x)
    ensures Recorded(keys, watched) == FirstLows(h, watched)
  {
  }

  /** Stopping early loses nothing once every watched module has a press. */
  lemma WatchRest(keys0: map<string, nat>, history: seq<Tagged>, full: seq<Tagged>)
    requires history <= full
    requires history == full || AllRecorded(Watch(keys0, history))
    ensures Watch(keys0, full) == Watch(keys0, history)
  {
    var rest := full[|history|..];
    assert history + rest == full;
    WatchAppend(keys0, history, rest);
    if history != full {
      WatchDone(Watch(keys0, history), rest);
    }
  }

  /** The presses of part 2: the button is pressed until every watched
      module has been sent a low pulse, or 10001 times; the press at
      which each watched module first got a low pulse is then recorded. */
  method PressUntilRecorded(c: Computer, broadcaster: seq<string>, keys: map<string, nat>)
    returns (keys': map<string, nat>)
    requires Presses(c, broadcaster, 10001).Some?
    requires forall x :: x in keys ==> keys[x] == 0
    ensures keys'.Keys == keys.Keys
    ensures forall x :: x in keys' ==> keys'[x] == FirstLow(Presses(c, broadcaster, 10001).value.history, x)
  {
    var net := c;
    keys' := keys;
    ghost var low, high := 0, 0;
    var presses := 0;
    var stop := false;
    while !stop && presses <= 10000
      invariant Recording(c, broadcaster, keys, presses, net, low, high, keys', stop)
      decreases 10001 - presses
    {
      net, keys', stop, low, high := RecordPress(c, broadcaster, keys, presses, net, keys', low, high);
      presses := presses + 1;
    }
    WatchedAll(c, broadcaster, presses, 10001, keys, keys');
  }

  /** The state of part 2's loop after `presses` presses: `keys` is what
      those presses recorded and, unless the loop stopped early, `net`
      and the counts are the network after them. */
  ghost predicate Recording(c: Computer, broadcaster: seq<string>, keys0: map<string, nat>, presses: nat,
                            net: Computer, low: nat, high: nat, keys: map<string, nat>, stop: bool)
  {
    presses <= 10001 && Presses(c, broadcaster, 10001).Some? && Presses(c, broadcaster, presses).Some? &&
    keys == Watch(keys0, Presses(c, broadcaster, presses).value.history) &&
    (!stop ==> Presses(c, broadcaster, presses).value.wave == Wave(net, [], low, high)) &&
    (stop ==> AllRecorded(keys))
  }

  /** One turn of part 2's loop: one more press, watched. */
  method RecordPress(c: Computer, broadcaster: seq<string>, ghost keys0: map<string, nat>, presses: nat,
                     net: Computer, keys: map<string, nat>, ghost low: nat, ghost high: nat)
    returns (net': Computer, keys': map<string, nat>, stop: bool, ghost low': nat, ghost high': nat)
    requires presses <= 10000 && Recording(c, broadcaster, keys0, presses, net, low, high, keys, false)
    ensures Recording(c, broadcaster, keys0, presses + 1, net', low', high', keys', stop)
  {
    RecordingEnds(c, broadcaster, keys0, presses, net, low, high, keys);
    net', keys', stop, low', high' := PressWatching(net, broadcaster, presses + 1, keys, low, high);
    RecordingNext(c, broadcaster, keys0, presses, net, low, high, keys, net', low', high', keys', stop);
  }

  /** Within the 10001 presses, the next press settles. */
  lemma RecordingEnds(c: Computer, broadcaster: seq<string>, keys0: map<string, nat>, presses: nat,
                      net: Computer, low: nat, high: nat, keys: map<string, nat>)
    requires presses <= 10000 && Recording(c, broadcaster, keys0, presses, net, low, high, keys, false)
    ensures Ends(Start(net, broadcaster, low, high))
  {
    PressesPrefix(c, broadcaster, presses + 1, 10001);
    PressesNext(c, broadcaster, presses);
  }

  /** A watched press keeps the loop's state in step with the presses. */
  lemma RecordingNext(c: Computer, broadcaster: seq<string>, keys0: map<string, nat>, presses: nat,
                      net: Computer, low: nat, high: nat, keys: map<string, nat>,
                      net': Computer, low': nat, high': nat, keys': map<string, nat>, stop: bool)
    requires presses <= 10000 && Recording(c, broadcaster, keys0, presses, net, low, high, keys, false)
    requires Ends(Start(net, broadcaster, low, high))
    requires keys' == Watch(keys, Tag(presses + 1, PressTrace(Start(net, broadcaster, low, high))))
    requires stop ==> AllRecorded(keys')
    requires !stop ==> Wave(net', [], low', high') == Final(Start(net, broadcaster, low, high))
    ensures Recording(c, broadcaster, keys0, presses + 1, net', low', high', keys', stop)
  {
    var history := Presses(c, broadcaster, presses).value.history;
    var start := Start(net, broadcaster, low, high);
    PressesPrefix(c, broadcaster, presses + 1, 10001);
    PressesNext(c, broadcaster, presses);
    WatchAppend(keys0, history, Tag(presses + 1, PressTrace(start)));
  }

  /** Part 2: presses the button until every input of the conjunction
      that feeds "rx" has been sent a low pulse, or 10001 times, and
      multiplies the press numbers recorded for those inputs. `None`
      where the source panics: a bad line, no module sending to "rx", or
      a flip-flop sending to it. */
  method Part2(lines: seq<(string, seq<string>)>, order: seq<string>) returns (r: Option<nat>)
    requires Built(lines).Some? ==>
      Lists(order, Built(lines).value.1) &&
      Presses(Wired(Built(lines).value.1), Built(lines).value.0, 10001).Some?
    ensures Built(lines).None? ==> r.None?
    ensures Built(lines).Some? ==>
      var broadcaster := Built(lines).value.0;
      var c := Wired(Built(lines).value.1);
      var f := Feeder(c, order);
      (r.Some? <==> f.Some? && c[f.value].kind.Conjunction?) &&
      (r.Some? ==> r.value == Product(FirstLows(Presses(c, broadcaster, 10001).value.history,
                                                Among(order, c[f.value].kind.mem.Keys))))
  {
    var built := Build(lines);
    if built.None? {
      return None;
    }
    var (broadcaster, c0) := built.value;
    var c := Wire(c0, order);
    var f := Feeder(c, order);
    if f.None? {
      return None;
    }
    var special := c[f.value];
    if special.kind.FlipFlop? {
      return None;
    }
    var watched := Among(order, special.kind.mem.Keys);
    var keys := PressUntilRecorded(c, broadcaster, map x | x in special.kind.mem :: 0);
    RecordedFirst(keys, watched, Presses(c, broadcaster, 10001).value.history);
    r := Some(Product(Recorded(keys, watched)));
  }
}
