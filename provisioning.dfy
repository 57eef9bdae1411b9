/**
 * The `init_gpio_devices` management command
 * (gpio_controller/management/commands/init_gpio_devices.py): for seven
 * fixed pin pairs, in order, reuse or create the connection, set up its
 * pins, and create the matching device when none has its name.
 *
 * `Provision` is the specification, one pair at a time; `Handle` is the
 * command's loop, proved to end in the state `Provision` describes.
 */
module Provisioning {

  import opened Wrappers
  import opened Text
  import opened PinEngine
  import opened Services
  import opened Models

  type Pair = (int, int)

  /** The pairs (reset, recovery), in the order the command provisions them. */
  const PinPairs: seq<Pair> := [(26, 19), (13, 6), (5, 11), (9, 10), (22, 27), (17, 4), (3, 2)]

  /** `<reset>-<recovery>`, the part both generated names end with. */
  function PairText(reset: int, recovery: int): string {
    IntToString(reset) + "-" + IntToString(recovery)
  }

  function ConnectionName(reset: int, recovery: int): string {
    "Jetson-" + PairText(reset, recovery)
  }

  function ConnectionDescription(reset: int, recovery: int): string {
    "Jetson Nano connection - Reset: GPIO" + IntToString(reset) + ", Recovery: GPIO" + IntToString(recovery)
  }

  function DeviceName(reset: int, recovery: int): string {
    "Jetson-Nano-" + PairText(reset, recovery)
  }

  /** `i` is the pair's position counted from 1. */
  function DeviceDescription(i: nat): string {
    "Jetson Nano device " + IntToString(i) + " connected via GPIO and USB"
  }

  /** Reads `<reset>-<recovery>` back. */
  function ParsePinPair(s: string): Option<Pair> {
    match ReadInt(s)
    case None => None
    case Some((reset, rest)) =>
      if rest == [] || rest[0] != '-' then None
      else match ReadInt(rest[1..])
        case None => None
        case Some((recovery, tail)) => if tail == [] then Some((reset, recovery)) else None
  }

  lemma ParsePinPairRoundTrip(reset: int, recovery: int)
    ensures ParsePinPair(PairText(reset, recovery)) == Some((reset, recovery))
  {
    var rest := "-" + IntToString(recovery);
    assert PairText(reset, recovery) == IntToString(reset) + rest;
    ReadIntToString(reset, rest);
    assert rest[1..] == IntToString(recovery) + "";
    ReadIntToString(recovery, "");
  }

  /** Different pairs get different connection names. */
  lemma ConnectionNameInjective(r1: int, f1: int, r2: int, f2: int)
    requires ConnectionName(r1, f1) == ConnectionName(r2, f2)
    ensures r1 == r2 && f1 == f2
  {
    var k := |"Jetson-"|;
    assert ConnectionName(r1, f1)[k..] == PairText(r1, f1);
    assert ConnectionName(r2, f2)[k..] == PairText(r2, f2);
    ParsePinPairRoundTrip(r1, f1);
    ParsePinPairRoundTrip(r2, f2);
  }

  /** Different pairs get different device names. */
  lemma DeviceNameInjective(r1: int, f1: int, r2: int, f2: int)
    requires DeviceName(r1, f1) == DeviceName(r2, f2)
    ensures r1 == r2 && f1 == f2
  {
    var k := |"Jetson-Nano-"|;
    assert DeviceName(r1, f1)[k..] == PairText(r1, f1);
    assert DeviceName(r2, f2)[k..] == PairText(r2, f2);
    ParsePinPairRoundTrip(r1, f1);
    ParsePinPairRoundTrip(r2, f2);
  }

  /**
   * Where the command has got to: the database, the pin pairs handed to
   * setup_pins so far, the three counters, and the error that aborted it,
   * if one did.
   */
  datatype Progress = Progress(
    reg: Registry,
    setups: seq<Pair>,
    created: nat,
    skipped: nat,
    devices: nat,
    error: Option<IntegrityError>)

  function Start(reg: Registry): Progress {
    Progress(reg, [], 0, 0, 0, None)
  }

  /** The rows of `a` are still the first rows of `b`: nothing was changed or removed. */
  predicate Grows(a: Registry, b: Registry) {
    && |a.connections| <= |b.connections| && (forall k :: 0 <= k < |a.connections| ==> b.connections[k] == a.connections[k])
    && |a.devices| <= |b.devices| && (forall k :: 0 <= k < |a.devices| ==> b.devices[k] == a.devices[k])
  }

  /** The connection the command creates for a new pair. */
  function NewConnection(reg: Registry, reset: int, recovery: int): Connection {
    Connection(reg.nextConnectionId, ConnectionName(reset, recovery), reset, recovery,
               ConnectionDescription(reset, recovery), EnabledDefault)
  }

  /** The device the command creates for the `i`-th pair, linked to the connection `linked`. */
  function NewDevice(reg: Registry, i: nat, reset: int, recovery: int, linked: nat): Device {
    Device(reg.nextDeviceId, DeviceName(reset, recovery), Some(linked), "", DeviceDescription(i), ActiveDefault)
  }

  /** Set up the chosen connection's pins, then create the pair's device if its name is free. */
  function Link(p: Progress, i: nat, reset: int, recovery: int, c: Connection): (r: Progress)
    requires FindPair(p.reg.connections, reset, recovery) == Some(c)
    ensures r.error == p.error && r.created == p.created && r.skipped == p.skipped
    ensures r.setups == p.setups + [(reset, recovery)]
    ensures r.reg.connections == p.reg.connections && r.reg.nextConnectionId == p.reg.nextConnectionId
    ensures FindDeviceNamed(p.reg.devices, DeviceName(reset, recovery)).Some? ==> r.reg == p.reg && r.devices == p.devices
    ensures FindDeviceNamed(p.reg.devices, DeviceName(reset, recovery)).None? ==>
      && r.devices == p.devices + 1
      && r.reg.nextDeviceId == p.reg.nextDeviceId + 1
      && r.reg.devices == p.reg.devices + [NewDevice(p.reg, i, reset, recovery, c.id)]
  {
    var setups := p.setups + [(c.reset, c.forceRecovery)];
    var name := DeviceName(reset, recovery);
    if FindDeviceNamed(p.reg.devices, name).Some? then p.(setups := setups)
    else
      var made := CreateDevice(p.reg, name, Some(c.id), "", DeviceDescription(i), None);
      p.(reg := made.value.0, setups := setups, devices := p.devices + 1)
  }

  /** One iteration of the loop, for the `i`-th pair. */
  function Step(p: Progress, i: nat, pair: Pair): (r: Progress)
    ensures p.error.Some? ==> r.error == p.error
    ensures p.error.None? && r.error.None? ==> r.setups == p.setups + [pair]
  {
    if p.error.Some? then p else Proceed(p, i, pair)
  }

  /** A step before any abort: reuse the pair's connection, or create one. */
  function Proceed(p: Progress, i: nat, pair: Pair): Progress
    requires p.error.None?
  {
    match FindPair(p.reg.connections, pair.0, pair.1)
    case Some(c) => Link(p.(skipped := p.skipped + 1), i, pair.0, pair.1, c)
    case None => CreatePair(p, i, pair)
  }

  /** A pair with no connection yet: create one named after its pins, or abort on a clash. */
  function CreatePair(p: Progress, i: nat, pair: Pair): (r: Progress)
    requires FindPair(p.reg.connections, pair.0, pair.1).None?
    ensures r.error.None? ==> r.setups == p.setups + [pair]
  {
    var (reset, recovery) := pair;
    match CreateConnection(p.reg, ConnectionName(reset, recovery), reset, recovery,
                           ConnectionDescription(reset, recovery), None)
    case Failure(e) => p.(error := Some(e))
    case Success((reg, c)) =>
      FindPairOfNew(p.reg.connections, c);
      Link(p.(reg := reg, created := p.created + 1), i, reset, recovery, c)
  }

  /** The command's effect on the pairs processed so far. */
  function Provision(start: Progress, pairs: seq<Pair>): Progress
    decreases |pairs|
  {
    if pairs == [] then start
    else Step(Provision(start, pairs[..|pairs| - 1]), |pairs|, pairs[|pairs| - 1])
  }

  /** setup_pins on every pair in turn; a failure inside one setup does not stop the next. */
  function SetupAll(mode: Mode, hw: HwState, pairs: seq<Pair>, failing: set<nat>): HwState
    decreases |pairs|
  {
    if pairs == [] then hw
    else Run(mode, SetupAll(mode, hw, pairs[..|pairs| - 1], failing), SetupOps(pairs[|pairs| - 1].0, pairs[|pairs| - 1].1), failing).0
  }

  /** A connection appended after rows that hold none of its pins is the one found for them. */
  lemma FindPairOfNew(cs: seq<Connection>, c: Connection)
    requires FindPair(cs, c.reset, c.forceRecovery).None?
    ensures FindPair(cs + [c], c.reset, c.forceRecovery) == Some(c)
    decreases |cs|
  {
    if cs == [] {
      assert [] + [c] == [c];
    } else {
      assert (cs + [c])[1..] == cs[1..] + [c];
      FindPairOfNew(cs[1..], c);
    }
  }

  /** A step that ends without an error started without one and set up its pair. */
  lemma StepSetsUp(p: Progress, i: nat, pair: Pair)
    ensures var r := Step(p, i, pair);
      r.error.None? ==> p.error.None? && r.setups == p.setups + [pair]
  {
  }

  lemma SnocAppend(a: seq<Pair>, xs: seq<Pair>)
    requires xs != []
    ensures a + xs == (a + xs[..|xs| - 1]) + [xs[|xs| - 1]]
  {
    assert xs == xs[..|xs| - 1] + [xs[|xs| - 1]];
  }

  /** After an abort a step does nothing. */
  lemma StepAfterAbort(p: Progress, i: nat, pair: Pair)
    requires p.error.Some?
    ensures Step(p, i, pair) == p
  {
  }

  /** A step only appends rows. */
  lemma StepGrows(p: Progress, i: nat, pair: Pair)
    ensures Grows(p.reg, Step(p, i, pair).reg)
  {
  }

  /** The command aborts exactly when the pair is new but its generated name is taken, and the abort changes nothing else. */
  lemma StepAborts(p: Progress, i: nat, pair: Pair)
    requires p.error.None?
    ensures var r := Step(p, i, pair);
      && (r.error.Some? <==>
            FindPair(p.reg.connections, pair.0, pair.1).None?
            && FindConnectionNamed(p.reg.connections, ConnectionName(pair.0, pair.1)).Some?)
      && (r.error.Some? ==> r == p.(error := r.error))
  {
  }

  /** A step that does not abort counts its pair once and leaves it with a connection and a device. */
  lemma StepCovers(p: Progress, i: nat, pair: Pair)
    requires p.error.None? && Step(p, i, pair).error.None?
    ensures var r := Step(p, i, pair);
      && r.created + r.skipped == p.created + p.skipped + 1
      && FindPair(r.reg.connections, pair.0, pair.1).Some?
      && FindDeviceNamed(r.reg.devices, DeviceName(pair.0, pair.1)).Some?
  {
    StepDevice(p, i, pair);
    var r := Step(p, i, pair);
    if FindPair(p.reg.connections, pair.0, pair.1).None? {
      FindPairOfNew(p.reg.connections, NewConnection(p.reg, pair.0, pair.1));
    }
    if FindDeviceNamed(p.reg.devices, DeviceName(pair.0, pair.1)).None? {
      assert r.reg.devices[|p.reg.devices|].name == DeviceName(pair.0, pair.1);
    }
  }

  /** An existing pair is reused and counted as skipped; if its device exists too, no row changes. */
  lemma StepReuses(p: Progress, i: nat, pair: Pair)
    requires p.error.None? && FindPair(p.reg.connections, pair.0, pair.1).Some?
    ensures var r := Step(p, i, pair);
      && r.error.None? && r.skipped == p.skipped + 1 && r.created == p.created
      && r.reg.connections == p.reg.connections
      && (FindDeviceNamed(p.reg.devices, DeviceName(pair.0, pair.1)).Some? ==>
            r == p.(setups := p.setups + [pair], skipped := p.skipped + 1))
  {
  }

  /** A new pair gets a new connection named after its pins, under the next id. */
  lemma StepCreates(p: Progress, i: nat, pair: Pair)
    requires p.error.None? && FindPair(p.reg.connections, pair.0, pair.1).None?
    requires Step(p, i, pair).error.None?
    ensures var r := Step(p, i, pair);
      && r.created == p.created + 1 && r.skipped == p.skipped
      && r.reg.connections == p.reg.connections + [NewConnection(p.reg, pair.0, pair.1)]
      && r.reg.nextConnectionId == p.reg.nextConnectionId + 1
  {
  }

  /** A device is created only when its name is free, and is then linked to the pair's connection. */
  lemma StepDevice(p: Progress, i: nat, pair: Pair)
    requires p.error.None? && Step(p, i, pair).error.None?
    ensures var r := Step(p, i, pair);
      && (FindDeviceNamed(p.reg.devices, DeviceName(pair.0, pair.1)).Some? ==>
            r.devices == p.devices && r.reg.devices == p.reg.devices && r.reg.nextDeviceId == p.reg.nextDeviceId)
      && (FindDeviceNamed(p.reg.devices, DeviceName(pair.0, pair.1)).None? ==>
            && r.devices == p.devices + 1
            && FindPair(r.reg.connections, pair.0, pair.1).Some?
            && r.reg.devices == p.reg.devices + [NewDevice(p.reg, i, pair.0, pair.1, FindPair(r.reg.connections, pair.0, pair.1).value.id)]
            && r.reg.nextDeviceId == p.reg.nextDeviceId + 1)
  {
    if FindPair(p.reg.connections, pair.0, pair.1).None? {
      FindPairOfNew(p.reg.connections, NewConnection(p.reg, pair.0, pair.1));
    }
  }

  // ---------------------------------------------------------------------------
  // Properties of the specification

  /** Every pair is either created or skipped, each counted once. */
  lemma {:induction false} CountsAddUp(start: Progress, pairs: seq<Pair>)
    requires start.error.None?
    ensures var p := Provision(start, pairs);
      p.error.None? ==> p.created + p.skipped == start.created + start.skipped + |pairs|
    decreases |pairs|
  {
    if pairs != [] {
      var n := |pairs| - 1;
      CountsAddUp(start, pairs[..n]);
      var before := Provision(start, pairs[..n]);
      if before.error.None? && Provision(start, pairs).error.None? {
        StepCovers(before, |pairs|, pairs[n]);
      }
    }
  }

  /** Once an error has aborted the command, the later pairs change nothing. */
  lemma {:induction false} AbortIsFinal(start: Progress, pairs: seq<Pair>, k: nat)
    requires k <= |pairs| && Provision(start, pairs[..k]).error.Some?
    ensures Provision(start, pairs) == Provision(start, pairs[..k])
    decreases |pairs|
  {
    if k == |pairs| {
      assert pairs[..k] == pairs;
    } else {
      var n := |pairs| - 1;
      assert pairs[..n][..k] == pairs[..k];
      AbortIsFinal(start, pairs[..n], k);
      ProvisionSnoc(start, pairs, n);
      assert pairs[..n + 1] == pairs;
      StepAfterAbort(Provision(start, pairs[..n]), n + 1, pairs[n]);
    }
  }

  /** setup_pins is called once for every pair, in order, whether its connection was created or reused. */
  lemma {:induction false} SetsUpEveryPair(start: Progress, pairs: seq<Pair>)
    requires start.error.None?
    ensures var p := Provision(start, pairs);
      p.error.None? ==> p.setups == start.setups + pairs
    decreases |pairs|
  {
    if pairs != [] {
      var n := |pairs| - 1;
      SetsUpEveryPair(start, pairs[..n]);
      StepSetsUp(Provision(start, pairs[..n]), |pairs|, pairs[n]);
      SnocAppend(start.setups, pairs);
    }
  }

  /** A run only appends rows. */
  lemma {:induction false} ProvisionGrows(start: Progress, pairs: seq<Pair>)
    ensures Grows(start.reg, Provision(start, pairs).reg)
    decreases |pairs|
  {
    if pairs != [] {
      var n := |pairs| - 1;
      ProvisionGrows(start, pairs[..n]);
      StepGrows(Provision(start, pairs[..n]), |pairs|, pairs[n]);
    }
  }

  /** A row found by pair or by name is still found once rows have been appended. */
  lemma GrowsKeepsRows(a: Registry, b: Registry, reset: int, recovery: int, name: string)
    requires Grows(a, b)
    ensures FindPair(a.connections, reset, recovery).Some? ==> FindPair(b.connections, reset, recovery).Some?
    ensures FindDeviceNamed(a.devices, name).Some? ==> FindDeviceNamed(b.devices, name).Some?
  {
    if FindPair(a.connections, reset, recovery).Some? {
      var j :| 0 <= j < |a.connections| && a.connections[j] == FindPair(a.connections, reset, recovery).value;
      assert b.connections[j] == a.connections[j];
    }
    if FindDeviceNamed(a.devices, name).Some? {
      var j :| 0 <= j < |a.devices| && a.devices[j] == FindDeviceNamed(a.devices, name).value;
      assert b.devices[j] == a.devices[j];
    }
  }

  /** Every one of these pairs has a connection with its pins and a device with its name. */
  predicate Covered(reg: Registry, pairs: seq<Pair>) {
    forall k :: 0 <= k < |pairs| ==>
      FindPair(reg.connections, pairs[k].0, pairs[k].1).Some?
      && FindDeviceNamed(reg.devices, DeviceName(pairs[k].0, pairs[k].1)).Some?
  }

  lemma CoveredGrows(a: Registry, b: Registry, pairs: seq<Pair>)
    requires Grows(a, b) && Covered(a, pairs)
    ensures Covered(b, pairs)
  {
    forall k | 0 <= k < |pairs|
      ensures FindPair(b.connections, pairs[k].0, pairs[k].1).Some?
        && FindDeviceNamed(b.devices, DeviceName(pairs[k].0, pairs[k].1)).Some?
    {
      GrowsKeepsRows(a, b, pairs[k].0, pairs[k].1, DeviceName(pairs[k].0, pairs[k].1));
    }
  }

  lemma CoveredSnoc(reg: Registry, pairs: seq<Pair>)
    requires pairs != [] && Covered(reg, pairs[..|pairs| - 1])
    requires FindPair(reg.connections, pairs[|pairs| - 1].0, pairs[|pairs| - 1].1).Some?
    requires FindDeviceNamed(reg.devices, DeviceName(pairs[|pairs| - 1].0, pairs[|pairs| - 1].1)).Some?
    ensures Covered(reg, pairs)
  {
    var n := |pairs| - 1;
    forall k | 0 <= k < |pairs|
      ensures FindPair(reg.connections, pairs[k].0, pairs[k].1).Some?
        && FindDeviceNamed(reg.devices, DeviceName(pairs[k].0, pairs[k].1)).Some?
    {
      if k < n {
        assert pairs[k] == pairs[..n][k];
      }
    }
  }

  lemma CoveredPrefix(reg: Registry, pairs: seq<Pair>, n: nat)
    requires n <= |pairs| && Covered(reg, pairs)
    ensures Covered(reg, pairs[..n])
  {
    forall k | 0 <= k < n
      ensures pairs[..n][k] == pairs[k]
    {
    }
  }

  /** After a run that did not abort, every pair has its connection and its device. */
  lemma {:induction false} ProvisionCovers(start: Progress, pairs: seq<Pair>)
    requires start.error.None?
    ensures var p := Provision(start, pairs);
      p.error.None? ==> Covered(p.reg, pairs)
    decreases |pairs|
  {
    if pairs != [] {
      var n := |pairs| - 1;
      var before := Provision(start, pairs[..n]);
      var p := Provision(start, pairs);
      ProvisionCovers(start, pairs[..n]);
      if p.error.None? {
        StepGrows(before, |pairs|, pairs[n]);
        StepCovers(before, |pairs|, pairs[n]);
        CoveredGrows(before.reg, p.reg, pairs[..n]);
        CoveredSnoc(p.reg, pairs);
      }
    }
  }

  /** A run over pairs that are all present creates nothing and skips every pair. */
  lemma {:induction false} RerunChangesNothing(start: Progress, pairs: seq<Pair>)
    requires start.error.None? && Covered(start.reg, pairs)
    ensures var p := Provision(start, pairs);
      && p.error.None? && p.reg == start.reg
      && p.created == start.created && p.devices == start.devices && p.skipped == start.skipped + |pairs|
    decreases |pairs|
  {
    if pairs != [] {
      var n := |pairs| - 1;
      CoveredPrefix(start.reg, pairs, n);
      RerunChangesNothing(start, pairs[..n]);
      StepReuses(Provision(start, pairs[..n]), |pairs|, pairs[n]);
    }
  }

  /**
   * The command is idempotent on the database: after a run that did not
   * abort, a second run creates no connection and no device, skips all
   * seven pairs and leaves every row as it was.
   */
  lemma Idempotent(reg: Registry)
    requires Provision(Start(reg), PinPairs).error.None?
    ensures var first := Provision(Start(reg), PinPairs);
      var second := Provision(Start(first.reg), PinPairs);
      && second.error.None? && second.reg == first.reg
      && second.created == 0 && second.devices == 0 && second.skipped == 7
  {
    var first := Provision(Start(reg), PinPairs);
    ProvisionCovers(Start(reg), PinPairs);
    RerunChangesNothing(Start(first.reg), PinPairs);
  }

  /** No two of the seven pairs are equal. */
  lemma PinPairsDistinct()
    ensures Distinct(PinPairs)
  {
  }

  /** Nothing in the registry stands in the way of the pairs from position `from` on. */
  predicate Clear(reg: Registry, pairs: seq<Pair>, from: nat) {
    forall k :: from <= k < |pairs| ==>
      && FindPair(reg.connections, pairs[k].0, pairs[k].1).None?
      && FindConnectionNamed(reg.connections, ConnectionName(pairs[k].0, pairs[k].1)).None?
      && FindDeviceNamed(reg.devices, DeviceName(pairs[k].0, pairs[k].1)).None?
  }

  predicate Distinct(pairs: seq<Pair>) {
    forall i, j :: 0 <= i < j < |pairs| ==> pairs[i] != pairs[j]
  }

  /** On a clear registry the step for pair `n` creates its connection and its device, and the later pairs stay clear. */
  lemma StepOnClear(p: Progress, i: nat, pairs: seq<Pair>, n: nat)
    requires n < |pairs| && Distinct(pairs)
    requires p.error.None? && Clear(p.reg, pairs, n)
    ensures var q := Step(p, i, pairs[n]);
      && q.error.None? && q.created == p.created + 1 && q.skipped == p.skipped && q.devices == p.devices + 1
      && Clear(q.reg, pairs, n + 1)
  {
    var pair := pairs[n];
    var q := Step(p, i, pair);
    StepAborts(p, i, pair);
    StepCreates(p, i, pair);
    StepDevice(p, i, pair);
    forall k | n + 1 <= k < |pairs|
      ensures FindPair(q.reg.connections, pairs[k].0, pairs[k].1).None?
        && FindConnectionNamed(q.reg.connections, ConnectionName(pairs[k].0, pairs[k].1)).None?
        && FindDeviceNamed(q.reg.devices, DeviceName(pairs[k].0, pairs[k].1)).None?
    {
      var o := pairs[k];
      if ConnectionName(o.0, o.1) == ConnectionName(pair.0, pair.1) {
        ConnectionNameInjective(o.0, o.1, pair.0, pair.1);
      }
      if DeviceName(o.0, o.1) == DeviceName(pair.0, pair.1) {
        DeviceNameInjective(o.0, o.1, pair.0, pair.1);
      }
      ClearAfterAppend(p.reg, q.reg, o, pair, q.reg.devices[|p.reg.devices|]);
    }
  }

  /** Appending the rows of `pair` leaves a different pair clear. */
  lemma ClearAfterAppend(a: Registry, b: Registry, o: Pair, pair: Pair, d: Device)
    requires FindPair(a.connections, o.0, o.1).None?
    requires FindConnectionNamed(a.connections, ConnectionName(o.0, o.1)).None?
    requires FindDeviceNamed(a.devices, DeviceName(o.0, o.1)).None?
    requires o != pair && ConnectionName(o.0, o.1) != ConnectionName(pair.0, pair.1)
    requires DeviceName(o.0, o.1) != DeviceName(pair.0, pair.1)
    requires b.connections == a.connections + [NewConnection(a, pair.0, pair.1)]
    requires b.devices == a.devices + [d] && d.name == DeviceName(pair.0, pair.1)
    ensures FindPair(b.connections, o.0, o.1).None?
    ensures FindConnectionNamed(b.connections, ConnectionName(o.0, o.1)).None?
    ensures FindDeviceNamed(b.devices, DeviceName(o.0, o.1)).None?
  {
  }

  /** The prefix form of the fresh run: after `n` pairs, the remaining pairs are still clear. */
  lemma {:induction false} ProvisionOnClearPrefix(start: Progress, pairs: seq<Pair>, n: nat)
    requires n <= |pairs| && Distinct(pairs)
    requires start.error.None? && Clear(start.reg, pairs, 0)
    ensures var p := Provision(start, pairs[..n]);
      && p.error.None? && Clear(p.reg, pairs, n)
      && p.created == start.created + n && p.skipped == start.skipped && p.devices == start.devices + n
    decreases n
  {
    if n == 0 {
      assert pairs[..0] == [];
    } else {
      ProvisionOnClearPrefix(start, pairs, n - 1);
      assert pairs[..n][..n - 1] == pairs[..n - 1];
      assert pairs[..n][n - 1] == pairs[n - 1];
      StepOnClear(Provision(start, pairs[..n - 1]), n, pairs, n - 1);
    }
  }

  /** On an empty database the command creates all seven connections and all seven devices. */
  lemma FreshRun()
    ensures var p := Provision(Start(EmptyRegistry), PinPairs);
      p.error.None? && p.created == 7 && p.skipped == 0 && p.devices == 7
  {
    PinPairsDistinct();
    ProvisionOnClearPrefix(Start(EmptyRegistry), PinPairs, |PinPairs|);
    assert PinPairs[..|PinPairs|] == PinPairs;
  }

  /** Each step keeps every database constraint, so every run does. */
  lemma StepConsistent(p: Progress, i: nat, pair: Pair)
    requires Consistent(p.reg)
    ensures Consistent(Step(p, i, pair).reg)
  {
    var (reset, recovery) := pair;
    if p.error.None? {
      var found := FindPair(p.reg.connections, reset, recovery);
      var reg1, c;
      if found.Some? {
        reg1, c := p.reg, found.value;
      } else {
        var made := CreateConnection(p.reg, ConnectionName(reset, recovery), reset, recovery,
                                     ConnectionDescription(reset, recovery), None);
        if made.Failure? {
          return;
        }
        CreateConnectionConsistent(p.reg, ConnectionName(reset, recovery), reset, recovery,
                                   ConnectionDescription(reset, recovery), None);
        reg1, c := made.value.0, made.value.1;
        FindPairOfNew(p.reg.connections, c);
      }
      var name := DeviceName(reset, recovery);
      if FindDeviceNamed(reg1.devices, name).None? {
        CreateDeviceConsistent(reg1, name, Some(c.id), "", DeviceDescription(i), None);
      }
    }
  }

  /** One more pair is one more step. */
  lemma ProvisionSnoc(start: Progress, pairs: seq<Pair>, k: nat)
    requires k < |pairs|
    ensures Provision(start, pairs[..k + 1]) == Step(Provision(start, pairs[..k]), k + 1, pairs[k])
  {
    assert pairs[..k + 1][..k] == pairs[..k];
  }

  /** Every run keeps the database's constraints. */
  lemma {:induction false} ProvisionConsistent(start: Progress, pairs: seq<Pair>)
    requires Consistent(start.reg)
    ensures Consistent(Provision(start, pairs).reg)
    decreases |pairs|
  {
    if pairs != [] {
      var n := |pairs| - 1;
      ProvisionConsistent(start, pairs[..n]);
      StepConsistent(Provision(start, pairs[..n]), |pairs|, pairs[n]);
    }
  }

  // ---------------------------------------------------------------------------
  // The command

  /** What the summary line reports when the command finishes. */
  datatype Tally = Tally(created: nat, skipped: nat, devices: nat)

  /** The outcome `Provision` describes, as the command reports it. */
  function Report(p: Progress): Result<Tally, IntegrityError> {
    if p.error.Some? then Failure(p.error.value) else Success(Tally(p.created, p.skipped, p.devices))
  }

  /** Command.handle. An IntegrityError from a create is not caught: it ends the command. */
  method Handle(db: Database, holder: ServiceHolder) returns (result: Result<Tally, IntegrityError>)
    requires db.Valid() && holder.Valid()
    modifies db, holder, holder.hw
    ensures db.Valid() && holder.Valid() && holder.Served()
    ensures var p := Provision(Start(old(db.registry)), PinPairs);
      && db.registry == p.reg
      && holder.hw.State() == SetupAll(old(holder.ModeAfterGet()), old(holder.AfterGet()), p.setups, holder.hw.failing)
      && result == Report(p)
  {
    var svc := holder.GetGpioService();
    result := ProvisionAll(db, svc, PinPairs);
  }

  /** The command's loop over the pairs, in order, stopping at the first integrity error. */
  method ProvisionAll(db: Database, svc: GPIOService, pairs: seq<Pair>) returns (result: Result<Tally, IntegrityError>)
    requires db.Valid()
    modifies db, svc.hw
    ensures db.Valid()
    ensures var p := Provision(Start(old(db.registry)), pairs);
      && db.registry == p.reg
      && svc.hw.State() == SetupAll(svc.Mode(), old(svc.hw.State()), p.setups, svc.hw.failing)
      && result == Report(p)
  {
    ghost var hw0 := svc.hw.State();
    ghost var start := Start(db.registry);
    var created, skipped, devices := 0, 0, 0;
    ghost var setups: seq<Pair> := [];
    for k := 0 to |pairs|
      invariant Provision(start, pairs[..k]) == Progress(db.registry, setups, created, skipped, devices, None)
      invariant svc.hw.State() == SetupAll(svc.Mode(), hw0, setups, svc.hw.failing)
    {
      ProvisionSnoc(start, pairs, k);
      var error;
      created, skipped, devices, error, setups := ProvisionPair(db, svc, k + 1, pairs[k], created, skipped, devices, setups, hw0);
      if error.Some? {
        AbortIsFinal(start, pairs, k + 1);
        ProvisionConsistent(start, pairs);
        return Failure(error.value);
      }
    }
    assert pairs[..|pairs|] == pairs;
    ProvisionConsistent(start, pairs);
    result := Success(Tally(created, skipped, devices));
  }

  /** The body of the command's loop, for the `i`-th pair. */
  method ProvisionPair(db: Database, svc: GPIOService, i: nat, pair: Pair, created: nat, skipped: nat, devices: nat,
                       ghost setups: seq<Pair>, ghost hw0: HwState)
    returns (created': nat, skipped': nat, devices': nat, error: Option<IntegrityError>, ghost setups': seq<Pair>)
    requires svc.hw.State() == SetupAll(svc.Mode(), hw0, setups, svc.hw.failing)
    modifies db, svc.hw
    ensures Progress(db.registry, setups', created', skipped', devices', error)
      == Step(Progress(old(db.registry), setups, created, skipped, devices, None), i, pair)
    ensures svc.hw.State() == SetupAll(svc.Mode(), hw0, setups', svc.hw.failing)
  {
    var (reset, recovery) := pair;
    ghost var p := Progress(db.registry, setups, created, skipped, devices, None);
    var existing := FindPair(db.registry.connections, reset, recovery);
    error := None;
    if existing.Some? {
      assert Step(p, i, pair) == Link(p.(skipped := skipped + 1), i, reset, recovery, existing.value);
      created', skipped' := created, skipped + 1;
      devices', setups' := LinkPair(db, svc, i, pair, existing.value, created', skipped', devices, setups, hw0);
    } else {
      var made := CreateConnection(db.registry, ConnectionName(reset, recovery), reset, recovery,
                                   ConnectionDescription(reset, recovery), None);
      assert Step(p, i, pair) == CreatePair(p, i, pair);
      if made.Failure? {
        return created, skipped, devices, Some(made.error), setups;
      }
      FindPairOfNew(db.registry.connections, made.value.1);
      assert CreatePair(p, i, pair) == Link(p.(reg := made.value.0, created := created + 1), i, reset, recovery, made.value.1);
      db.registry := made.value.0;
      created', skipped' := created + 1, skipped;
      devices', setups' := LinkPair(db, svc, i, pair, made.value.1, created', skipped', devices, setups, hw0);
    }
  }

  /** Set up the connection's pins, then create the pair's device if no device has its name. */
  method LinkPair(db: Database, svc: GPIOService, i: nat, pair: Pair, c: Connection, created: nat, skipped: nat,
                  devices: nat, ghost setups: seq<Pair>, ghost hw0: HwState)
    returns (devices': nat, ghost setups': seq<Pair>)
    requires FindPair(db.registry.connections, pair.0, pair.1) == Some(c)
    requires svc.hw.State() == SetupAll(svc.Mode(), hw0, setups, svc.hw.failing)
    modifies db, svc.hw
    ensures Progress(db.registry, setups', created, skipped, devices', None)
      == Link(Progress(old(db.registry), setups, created, skipped, devices, None), i, pair.0, pair.1, c)
    ensures svc.hw.State() == SetupAll(svc.Mode(), hw0, setups', svc.hw.failing)
  {
    svc.SetupPins(c.reset, c.forceRecovery);
    setups' := setups + [(c.reset, c.forceRecovery)];
    assert setups'[..|setups'| - 1] == setups;
    devices' := devices;
    var deviceName := DeviceName(pair.0, pair.1);
    if FindDeviceNamed(db.registry.devices, deviceName).None? {
      var madeDevice := CreateDevice(db.registry, deviceName, Some(c.id), "", DeviceDescription(i), None);
      db.registry := madeDevice.value.0;
      devices' := devices + 1;
    }
  }
}
