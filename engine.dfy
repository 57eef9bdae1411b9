/**
 * The pin-sequencing engine as values: the calls the engine makes into the
 * GPIO library and the clock, what each call does to the pins, how a run of
 * calls stops at the first one that raises, and the fixed call lists of each
 * engine operation.
 *
 * A GPIO call that raises is decided by an oracle `failing`: the set of
 * indices (counted over the lifetime of the library) of the GPIO calls that
 * raise. `time.sleep` raises exactly when its argument is negative.
 */
module PinEngine {

  datatype Level = Low | High

  /** One call into the GPIO library or the clock. */
  datatype Op =
    | SetMode                         // GPIO.setmode(GPIO.BCM); GPIO.setwarnings(False)
    | Setup(pin: int)                 // GPIO.setup(pin, GPIO.OUT, initial=GPIO.HIGH)
    | Write(pin: int, level: Level)   // GPIO.output(pin, level)
    | Sleep(seconds: real)            // time.sleep(seconds)
    | Cleanup                         // GPIO.cleanup()

  /**
   * What the hardware side looks like: the level of every pin configured as
   * an output, the calls that completed (in order) and how many GPIO calls
   * have been attempted.
   */
  datatype HwState = HwState(pins: map<int, Level>, trace: seq<Op>, calls: nat)

  /** The three ways the engine runs. */
  datatype Mode =
    | Mock              // the GPIO library could not be imported
    | NotInitialised    // the library is there but setting it up raised
    | Hardware

  /** The engine's fixed durations, in seconds. */
  const PulseDefault: real := 0.5
  const HoldDefault: real := 2.0
  const SequenceHoldDefault: real := 2.0
  const SequencePulseDefault: real := 0.5
  const SettleDelay: real := 0.5

  function Effect(pins: map<int, Level>, op: Op): map<int, Level> {
    match op
    case Setup(p) => pins[p := High]
    case Write(p, l) => pins[p := l]
    case Cleanup => map[]
    case _ => pins
  }

  /** Does `op` raise when it is attempted with `calls` GPIO calls made before it? */
  predicate Raises(calls: nat, op: Op, failing: set<nat>) {
    if op.Sleep? then op.seconds < 0.0 else calls in failing
  }

  function CallsOf(op: Op): nat {
    if op.Sleep? then 0 else 1
  }

  /** One call: it either completes or raises and leaves pins and trace as they were. */
  function Apply(s: HwState, op: Op, failing: set<nat>): (HwState, bool) {
    if Raises(s.calls, op, failing) then (s.(calls := s.calls + CallsOf(op)), false)
    else (HwState(Effect(s.pins, op), s.trace + [op], s.calls + CallsOf(op)), true)
  }

  /**
   * A straight run of calls inside one `try` block: it stops at the first
   * call that raises and reports false; nothing done before it is undone.
   */
  function Perform(s: HwState, ops: seq<Op>, failing: set<nat>): (HwState, bool)
    decreases |ops|
  {
    if ops == [] then (s, true)
    else
      var (s1, ok) := Apply(s, ops[0], failing);
      if !ok then (s1, false) else Perform(s1, ops[1..], failing)
  }

  /**
   * _init_gpio: with the library present it sets the numbering mode, and the
   * engine is initialised exactly when that call did not raise.
   */
  function Boot(hasGpio: bool, s: HwState, failing: set<nat>): (r: (HwState, bool))
    ensures r.1 <==> hasGpio && s.calls !in failing
    ensures r.0.pins == s.pins
    ensures r.0.trace == if r.1 then s.trace + [SetMode] else s.trace
  {
    if hasGpio then Apply(s, SetMode, failing) else (s, false)
  }

  /** What each mode does with an operation's calls. */
  function Run(mode: Mode, s: HwState, ops: seq<Op>, failing: set<nat>): (HwState, bool) {
    match mode
    case Mock => (s, true)
    case NotInitialised => (s, false)
    case Hardware => Perform(s, ops, failing)
  }

  /** The GPIO calls a list of calls makes (sleeps are not GPIO calls). */
  function GpioCalls(ops: seq<Op>): nat
    decreases |ops|
  {
    if ops == [] then 0 else CallsOf(ops[0]) + GpioCalls(ops[1..])
  }

  /** The pins after every call in `ops` completed. */
  function Effects(pins: map<int, Level>, ops: seq<Op>): map<int, Level>
    decreases |ops|
  {
    if ops == [] then pins else Effects(Effect(pins, ops[0]), ops[1..])
  }

  /** No call in `ops` raises, the first being attempted after `calls` GPIO calls. */
  predicate NoFault(calls: nat, ops: seq<Op>, failing: set<nat>)
    decreases |ops|
  {
    ops == [] || (!Raises(calls, ops[0], failing) && NoFault(calls + CallsOf(ops[0]), ops[1..], failing))
  }

  /** The pins that `ops` configures or writes. */
  function Touched(ops: seq<Op>): set<int>
    decreases |ops|
  {
    if ops == [] then {}
    else (match ops[0] case Setup(p) => {p} case Write(p, _) => {p} case _ => {}) + Touched(ops[1..])
  }

  function TotalSleep(ops: seq<Op>): real
    decreases |ops|
  {
    if ops == [] then 0.0 else (if ops[0].Sleep? then ops[0].seconds else 0.0) + TotalSleep(ops[1..])
  }

  // ---------------------------------------------------------------------
  // The calls of each engine operation (services.py).

  /** pulse_pin: LOW, wait, HIGH. */
  function PulseOps(pin: int, duration: real): seq<Op> {
    [Write(pin, Low), Sleep(duration), Write(pin, High)]
  }

  /** hold_pin_low: the same calls as pulse_pin. */
  function HoldLowOps(pin: int, duration: real): seq<Op> {
    [Write(pin, Low), Sleep(duration), Write(pin, High)]
  }

  /** sequence_ab: hold a LOW, pulse b inside the hold, settle, release a. */
  function SequenceABOps(a: int, b: int, hold: real, pulse: real): seq<Op> {
    [Write(a, Low), Sleep(hold), Write(b, Low), Sleep(pulse), Write(b, High), Sleep(SettleDelay), Write(a, High)]
  }

  /** sequence_ba: hold b LOW, pulse a inside the hold, settle, release b. */
  function SequenceBAOps(a: int, b: int, hold: real, pulse: real): seq<Op> {
    [Write(b, Low), Sleep(hold), Write(a, Low), Sleep(pulse), Write(a, High), Sleep(SettleDelay), Write(b, High)]
  }

  /** set_pin_state: one write, HIGH for true. */
  function SetPinOps(pin: int, state: bool): seq<Op> {
    [Write(pin, if state then High else Low)]
  }

  /** setup_pins: both pins become outputs at HIGH, reset pin first. */
  function SetupOps(resetPin: int, recoveryPin: int): seq<Op> {
    [Setup(resetPin), Setup(recoveryPin)]
  }

  // ---------------------------------------------------------------------
  // Lemmas about runs of calls.

  lemma PerformCons(s: HwState, op: Op, rest: seq<Op>, failing: set<nat>)
    ensures Perform(s, [op] + rest, failing) ==
      (var (s1, ok) := Apply(s, op, failing); if !ok then (s1, false) else Perform(s1, rest, failing))
  {
    assert ([op] + rest)[0] == op;
    assert ([op] + rest)[1..] == rest;
  }

  /**
   * A run only appends to the trace (nothing already done is erased) and
   * attempts at most one GPIO call per GPIO step.
   */
  lemma {:induction false} PerformExtends(s: HwState, ops: seq<Op>, failing: set<nat>)
    ensures s.trace <= Perform(s, ops, failing).0.trace
    ensures s.calls <= Perform(s, ops, failing).0.calls <= s.calls + GpioCalls(ops)
    decreases |ops|
  {
    if ops != [] {
      var s1 := Apply(s, ops[0], failing).0;
      PerformExtends(s1, ops[1..], failing);
    }
  }

  /** When nothing raises, every call lands: the trace grows by exactly `ops`. */
  lemma {:induction false} PerformNoFault(s: HwState, ops: seq<Op>, failing: set<nat>)
    requires NoFault(s.calls, ops, failing)
    ensures Perform(s, ops, failing) ==
      (HwState(Effects(s.pins, ops), s.trace + ops, s.calls + GpioCalls(ops)), true)
    decreases |ops|
  {
    if ops == [] {
      assert s.trace + ops == s.trace;
    } else {
      var s1 := Apply(s, ops[0], failing).0;
      PerformNoFault(s1, ops[1..], failing);
      assert s1.trace + ops[1..] == s.trace + ops by {
        assert [ops[0]] + ops[1..] == ops;
      }
    }
  }

  /** A run reports success exactly when none of its calls raises. */
  lemma {:induction false} PerformSucceedsIff(s: HwState, ops: seq<Op>, failing: set<nat>)
    ensures Perform(s, ops, failing).1 <==> NoFault(s.calls, ops, failing)
    decreases |ops|
  {
    if ops != [] {
      PerformSucceedsIff(Apply(s, ops[0], failing).0, ops[1..], failing);
    }
  }

  /**
   * Running `xs` then `ys` is the same as one run of `xs + ys`; in
   * particular, once a call in `xs` raises, no call of `ys` is made.
   */
  lemma {:induction false} PerformAppend(s: HwState, xs: seq<Op>, ys: seq<Op>, failing: set<nat>)
    ensures Perform(s, xs + ys, failing) ==
      (var (s1, ok) := Perform(s, xs, failing); if ok then Perform(s1, ys, failing) else (s1, false))
    decreases |xs|
  {
    if xs == [] {
      assert xs + ys == ys;
    } else {
      assert (xs + ys)[0] == xs[0];
      assert (xs + ys)[1..] == xs[1..] + ys;
      PerformAppend(Apply(s, xs[0], failing).0, xs[1..], ys, failing);
    }
  }

  /**
   * If the call at position `j` is the first to raise, the run ends there:
   * the calls after it are never made and the ones before it stay done.
   */
  lemma StopsAtFirstFault(s: HwState, ops: seq<Op>, j: nat, failing: set<nat>)
    requires j < |ops|
    requires Perform(s, ops[..j], failing).1
    requires Raises(Perform(s, ops[..j], failing).0.calls, ops[j], failing)
    ensures Perform(s, ops, failing) ==
      (Apply(Perform(s, ops[..j], failing).0, ops[j], failing).0, false)
  {
    assert ops == ops[..j] + ops[j..];
    PerformAppend(s, ops[..j], ops[j..], failing);
    assert ops[j..] == [ops[j]] + ops[j + 1..];
    PerformCons(Perform(s, ops[..j], failing).0, ops[j], ops[j + 1..], failing);
  }

  /** A pin that `ops` neither configures nor writes keeps its level (when there is no cleanup). */
  lemma {:induction false} PerformFrame(s: HwState, ops: seq<Op>, failing: set<nat>, q: int)
    requires forall i :: 0 <= i < |ops| ==> !ops[i].Cleanup?
    requires q !in Touched(ops)
    ensures q in Perform(s, ops, failing).0.pins <==> q in s.pins
    ensures q in s.pins ==> Perform(s, ops, failing).0.pins[q] == s.pins[q]
    decreases |ops|
  {
    if ops != [] {
      var s1 := Apply(s, ops[0], failing).0;
      assert q in s1.pins <==> q in s.pins;
      assert q in s.pins ==> s1.pins[q] == s.pins[q];
      PerformFrame(s1, ops[1..], failing, q);
    }
  }

  // ---------------------------------------------------------------------
  // Lemmas about the engine operations.

  /**
   * Every outcome of pulse_pin on the hardware: which call raised decides
   * the trace, the pins and the result. A raise after the LOW write leaves
   * the pin LOW.
   */
  lemma PulseOutcome(s: HwState, p: int, d: real, failing: set<nat>)
    ensures var k := s.calls;
      Perform(s, PulseOps(p, d), failing) ==
        if k in failing then (s.(calls := k + 1), false)
        else if d < 0.0 then (HwState(s.pins[p := Low], s.trace + [Write(p, Low)], k + 1), false)
        else if k + 1 in failing then
          (HwState(s.pins[p := Low], s.trace + [Write(p, Low)] + [Sleep(d)], k + 2), false)
        else (HwState(s.pins[p := High], s.trace + [Write(p, Low), Sleep(d), Write(p, High)], k + 2), true)
  {
    var k := s.calls;
    PerformCons(s, Write(p, Low), [Sleep(d), Write(p, High)], failing);
    var s1 := Apply(s, Write(p, Low), failing).0;
    PerformCons(s1, Sleep(d), [Write(p, High)], failing);
    var s2 := Apply(s1, Sleep(d), failing).0;
    PerformCons(s2, Write(p, High), [], failing);
    assert [Write(p, High)] + [] == [Write(p, High)];
    assert s.pins[p := Low][p := High] == s.pins[p := High];
    assert s.trace + [Write(p, Low)] + [Sleep(d)] == s.trace + [Write(p, Low), Sleep(d)];
    assert s.trace + [Write(p, Low), Sleep(d)] + [Write(p, High)] == s.trace + [Write(p, Low), Sleep(d), Write(p, High)];
  }

  /** hold_pin_low makes the same calls as pulse_pin; only their default durations differ. */
  lemma HoldLowIsPulse(p: int, d: real)
    ensures HoldLowOps(p, d) == PulseOps(p, d)
    ensures HoldDefault == 2.0 && PulseDefault == 0.5
  {
  }

  /**
   * Every outcome of sequence_ab on the hardware. In particular a raise while
   * writing b LOW (call k + 1) leaves a LOW, and a complete run leaves both
   * pins HIGH.
   */
  lemma SequenceABOutcome(s: HwState, a: int, b: int, h: real, t: real, failing: set<nat>)
    ensures var k := s.calls;
      var aLow := s.pins[a := Low];
      var bothLow := aLow[b := Low];
      var t1 := s.trace + [Write(a, Low)];
      var t2 := t1 + [Sleep(h)];
      var t3 := t2 + [Write(b, Low)];
      var t4 := t3 + [Sleep(t)];
      var t6 := t4 + [Write(b, High)] + [Sleep(SettleDelay)];
      Perform(s, SequenceABOps(a, b, h, t), failing) ==
        if k in failing then (s.(calls := k + 1), false)
        else if h < 0.0 then (HwState(aLow, t1, k + 1), false)
        else if k + 1 in failing then (HwState(aLow, t2, k + 2), false)
        else if t < 0.0 then (HwState(bothLow, t3, k + 2), false)
        else if k + 2 in failing then (HwState(bothLow, t4, k + 3), false)
        else if k + 3 in failing then (HwState(bothLow[b := High], t6, k + 4), false)
        else (HwState(s.pins[a := High][b := High], s.trace + SequenceABOps(a, b, h, t), k + 4), true)
  {
    var k := s.calls;
    var front := [Write(a, Low), Sleep(h)];
    var back := PulseOps(b, t) + [Sleep(SettleDelay), Write(a, High)];
    assert SequenceABOps(a, b, h, t) == front + back;
    PerformAppend(s, front, back, failing);
    PerformCons(s, Write(a, Low), [Sleep(h)], failing);
    var s1 := Apply(s, Write(a, Low), failing).0;
    PerformCons(s1, Sleep(h), [], failing);
    assert [Sleep(h)] + [] == [Sleep(h)];
    if k !in failing && h >= 0.0 {
      var s2 := Apply(s1, Sleep(h), failing).0;
      PulseThenRelease(s2, a, b, t, failing);
      assert s.pins[a := Low][b := Low][b := High] == s.pins[a := Low][b := High];
      assert s.pins[a := Low][b := High][a := High] == s.pins[a := High][b := High];
      assert s2.trace + back == s.trace + SequenceABOps(a, b, h, t);
    }
  }

  /** The part of sequence_ab after the hold of `a` has begun. */
  lemma PulseThenRelease(s: HwState, a: int, b: int, t: real, failing: set<nat>)
    ensures var k := s.calls;
      var t1 := s.trace + [Write(b, Low)];
      Perform(s, PulseOps(b, t) + [Sleep(SettleDelay), Write(a, High)], failing) ==
        if k in failing then (s.(calls := k + 1), false)
        else if t < 0.0 then (HwState(s.pins[b := Low], t1, k + 1), false)
        else if k + 1 in failing then (HwState(s.pins[b := Low], t1 + [Sleep(t)], k + 2), false)
        else if k + 2 in failing then
          (HwState(s.pins[b := High], t1 + [Sleep(t)] + [Write(b, High)] + [Sleep(SettleDelay)], k + 3), false)
        else (HwState(s.pins[b := High][a := High], s.trace + (PulseOps(b, t) + [Sleep(SettleDelay), Write(a, High)]), k + 3), true)
  {
    var k := s.calls;
    var tail := [Sleep(SettleDelay), Write(a, High)];
    PerformAppend(s, PulseOps(b, t), tail, failing);
    PulseOutcome(s, b, t, failing);
    assert s.trace + [Write(b, Low), Sleep(t)] == s.trace + [Write(b, Low)] + [Sleep(t)];
    if k !in failing && t >= 0.0 && k + 1 !in failing {
      var s3 := Perform(s, PulseOps(b, t), failing).0;
      PerformCons(s3, Sleep(SettleDelay), [Write(a, High)], failing);
      var s4 := Apply(s3, Sleep(SettleDelay), failing).0;
      PerformCons(s4, Write(a, High), [], failing);
      assert [Write(a, High)] + [] == [Write(a, High)];
      assert s4.trace == s.trace + [Write(b, Low)] + [Sleep(t)] + [Write(b, High)] + [Sleep(SettleDelay)];
      assert s4.trace + [Write(a, High)] == s.trace + (PulseOps(b, t) + tail);
    }
  }

  /** sequence_ba makes the calls of sequence_ab with the two pins exchanged. */
  lemma SequenceBAIsMirror(a: int, b: int, h: real, t: real)
    ensures SequenceBAOps(a, b, h, t) == SequenceABOps(b, a, h, t)
  {
  }

  /**
   * Every outcome of sequence_ba on the hardware: those of sequence_ab with
   * `a` and `b` exchanged. A raise while writing a LOW leaves b LOW.
   */
  lemma SequenceBAOutcome(s: HwState, a: int, b: int, h: real, t: real, failing: set<nat>)
    ensures var k := s.calls;
      var bLow := s.pins[b := Low];
      var bothLow := bLow[a := Low];
      var t1 := s.trace + [Write(b, Low)];
      var t2 := t1 + [Sleep(h)];
      var t3 := t2 + [Write(a, Low)];
      var t4 := t3 + [Sleep(t)];
      var t6 := t4 + [Write(a, High)] + [Sleep(SettleDelay)];
      Perform(s, SequenceBAOps(a, b, h, t), failing) ==
        if k in failing then (s.(calls := k + 1), false)
        else if h < 0.0 then (HwState(bLow, t1, k + 1), false)
        else if k + 1 in failing then (HwState(bLow, t2, k + 2), false)
        else if t < 0.0 then (HwState(bothLow, t3, k + 2), false)
        else if k + 2 in failing then (HwState(bothLow, t4, k + 3), false)
        else if k + 3 in failing then (HwState(bothLow[a := High], t6, k + 4), false)
        else (HwState(s.pins[b := High][a := High], s.trace + SequenceBAOps(a, b, h, t), k + 4), true)
  {
    SequenceBAIsMirror(a, b, h, t);
    SequenceABOutcome(s, b, a, h, t, failing);
  }

  lemma TotalSleepCons(op: Op, rest: seq<Op>)
    ensures TotalSleep([op] + rest) == (if op.Sleep? then op.seconds else 0.0) + TotalSleep(rest)
  {
    assert ([op] + rest)[0] == op;
    assert ([op] + rest)[1..] == rest;
  }

  /** pulse_pin sleeps for exactly its duration. */
  lemma PulseSleeps(p: int, d: real)
    ensures TotalSleep(PulseOps(p, d)) == d
  {
    TotalSleepCons(Write(p, High), []);
    TotalSleepCons(Sleep(d), [Write(p, High)]);
    TotalSleepCons(Write(p, Low), [Sleep(d), Write(p, High)]);
    assert [Write(p, High)] + [] == [Write(p, High)];
    assert [Sleep(d)] + [Write(p, High)] == [Sleep(d), Write(p, High)];
    assert [Write(p, Low)] + [Sleep(d), Write(p, High)] == PulseOps(p, d);
  }

  /** sequence_ab sleeps for the hold, the pulse and the settle delay, in all h + t + 0.5 seconds. */
  lemma SequenceABSleeps(a: int, b: int, h: real, t: real)
    ensures TotalSleep(SequenceABOps(a, b, h, t)) == h + t + SettleDelay
  {
    var r6 := [Write(a, High)];
    var r5 := [Sleep(SettleDelay)] + r6;
    var r4 := [Write(b, High)] + r5;
    var r3 := [Sleep(t)] + r4;
    var r2 := [Write(b, Low)] + r3;
    var r1 := [Sleep(h)] + r2;
    assert [Write(a, Low)] + r1 == SequenceABOps(a, b, h, t);
    assert [Write(a, High)] + [] == r6;
    TotalSleepCons(Write(a, High), []);
    TotalSleepCons(Sleep(SettleDelay), r6);
    TotalSleepCons(Write(b, High), r5);
    TotalSleepCons(Sleep(t), r4);
    TotalSleepCons(Write(b, Low), r3);
    TotalSleepCons(Sleep(h), r2);
    TotalSleepCons(Write(a, Low), r1);
  }

  /** set_pin_state: one write, HIGH exactly when `state` is true; a raise changes nothing. */
  lemma SetPinOutcome(s: HwState, p: int, state: bool, failing: set<nat>)
    ensures var r := Perform(s, SetPinOps(p, state), failing);
      && (r.1 <==> s.calls !in failing)
      && r.0.calls == s.calls + 1
      && (r.1 ==> r.0.trace == s.trace + [Write(p, if state then High else Low)]
                  && p in r.0.pins && (r.0.pins[p] == High <==> state)
                  && r.0.pins == s.pins[p := r.0.pins[p]])
      && (!r.1 ==> r.0.trace == s.trace && r.0.pins == s.pins)
  {
    PerformCons(s, Write(p, if state then High else Low), [], failing);
    assert [Write(p, if state then High else Low)] + [] == SetPinOps(p, state);
  }

  /** setup_pins: both pins become outputs at HIGH; a raise on the first skips the second. */
  lemma SetupOutcome(s: HwState, r: int, f: int, failing: set<nat>)
    ensures var k := s.calls;
      Perform(s, SetupOps(r, f), failing) ==
        if k in failing then (s.(calls := k + 1), false)
        else if k + 1 in failing then (HwState(s.pins[r := High], s.trace + [Setup(r)], k + 2), false)
        else (HwState(s.pins[r := High][f := High], s.trace + [Setup(r), Setup(f)], k + 2), true)
  {
    PerformCons(s, Setup(r), [Setup(f)], failing);
    assert [Setup(r)] + [Setup(f)] == SetupOps(r, f);
    var s1 := Apply(s, Setup(r), failing).0;
    PerformCons(s1, Setup(f), [], failing);
    assert [Setup(f)] + [] == [Setup(f)];
    assert s.trace + [Setup(r)] + [Setup(f)] == s.trace + [Setup(r), Setup(f)];
  }
}
