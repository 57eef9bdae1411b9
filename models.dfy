/**
 * The two tables of gpio_controller/models.py as an in-memory registry:
 * GPIOConnection (a named reset / force-recovery pin pair) and
 * JetsonNanoDevice (a device that may point at one connection). The
 * database constraints become the predicate `Consistent`, and the
 * operations that can break one of them return an `IntegrityError`.
 */
module Models {

  import opened Wrappers
  import opened Text

  datatype Connection = Connection(
    id: nat,
    name: string,
    reset: int,
    forceRecovery: int,
    description: string,
    isEnabled: bool)

  datatype Device = Device(
    id: nat,
    name: string,
    connectedTo: Option<nat>,
    usbConnection: string,
    description: string,
    isActive: bool)

  /** Rows in insertion order; ids come from counters that never hand out an id twice. */
  datatype Registry = Registry(
    connections: seq<Connection>,
    devices: seq<Device>,
    nextConnectionId: nat,
    nextDeviceId: nat)

  /** The constraint a rejected insert or update would have broken. */
  datatype IntegrityError = UniqueName | UniquePinPair | ForeignKey

  const EmptyRegistry: Registry := Registry([], [], 1, 1)

  const EnabledDefault: bool := true
  const ActiveDefault: bool := true

  predicate SamePair(c: Connection, reset: int, forceRecovery: int) {
    c.reset == reset && c.forceRecovery == forceRecovery
  }

  /** Connection ids and names are unique, and so is the ordered pin pair. */
  predicate UniqueConnections(cs: seq<Connection>) {
    forall i, j :: 0 <= i < j < |cs| ==>
      cs[i].id != cs[j].id && cs[i].name != cs[j].name && !SamePair(cs[i], cs[j].reset, cs[j].forceRecovery)
  }

  /** Device ids and names are unique. */
  predicate UniqueDevices(ds: seq<Device>) {
    forall i, j :: 0 <= i < j < |ds| ==> ds[i].id != ds[j].id && ds[i].name != ds[j].name
  }

  /** The connection with this id, if there is one (`objects.get(id=...)`). */
  function FindConnection(cs: seq<Connection>, id: nat): (r: Option<Connection>)
    ensures r.Some? ==> r.value in cs && r.value.id == id
    ensures r.None? <==> forall i :: 0 <= i < |cs| ==> cs[i].id != id
    decreases |cs|
  {
    if cs == [] then None
    else if cs[0].id == id then Some(cs[0])
    else FindConnection(cs[1..], id)
  }

  /** A connection with this name, if there is one. */
  function FindConnectionNamed(cs: seq<Connection>, name: string): (r: Option<Connection>)
    ensures r.Some? ==> r.value in cs && r.value.name == name
    ensures r.None? <==> forall i :: 0 <= i < |cs| ==> cs[i].name != name
    decreases |cs|
  {
    if cs == [] then None
    else if cs[0].name == name then Some(cs[0])
    else FindConnectionNamed(cs[1..], name)
  }

  /** A connection on this pin pair (`filter(reset=..., force_recovery=...).first()`). */
  function FindPair(cs: seq<Connection>, reset: int, forceRecovery: int): (r: Option<Connection>)
    ensures r.Some? ==> r.value in cs && SamePair(r.value, reset, forceRecovery)
    ensures r.None? <==> forall i :: 0 <= i < |cs| ==> !SamePair(cs[i], reset, forceRecovery)
    decreases |cs|
  {
    if cs == [] then None
    else if SamePair(cs[0], reset, forceRecovery) then Some(cs[0])
    else FindPair(cs[1..], reset, forceRecovery)
  }

  /** The device with this id, if there is one. */
  function FindDevice(ds: seq<Device>, id: nat): (r: Option<Device>)
    ensures r.Some? ==> r.value in ds && r.value.id == id
    ensures r.None? <==> forall i :: 0 <= i < |ds| ==> ds[i].id != id
    decreases |ds|
  {
    if ds == [] then None
    else if ds[0].id == id then Some(ds[0])
    else FindDevice(ds[1..], id)
  }

  /** A device with this name, if there is one (`filter(name=...).first()`). */
  function FindDeviceNamed(ds: seq<Device>, name: string): (r: Option<Device>)
    ensures r.Some? ==> r.value in ds && r.value.name == name
    ensures r.None? <==> forall i :: 0 <= i < |ds| ==> ds[i].name != name
    decreases |ds|
  {
    if ds == [] then None
    else if ds[0].name == name then Some(ds[0])
    else FindDeviceNamed(ds[1..], name)
  }

  /** Every constraint of the two tables holds. */
  predicate Consistent(reg: Registry) {
    && UniqueConnections(reg.connections)
    && UniqueDevices(reg.devices)
    && (forall i :: 0 <= i < |reg.connections| ==> reg.connections[i].id < reg.nextConnectionId)
    && (forall i :: 0 <= i < |reg.devices| ==> reg.devices[i].id < reg.nextDeviceId)
    && (forall i :: 0 <= i < |reg.devices| && reg.devices[i].connectedTo.Some? ==>
          FindConnection(reg.connections, reg.devices[i].connectedTo.value).Some?)
  }

  /** `GPIOConnection.objects.create(...)`; `isEnabled` None means the field was not given. */
  function CreateConnection(reg: Registry, name: string, reset: int, forceRecovery: int, description: string,
                            isEnabled: Option<bool>): (r: Result<(Registry, Connection), IntegrityError>)
    ensures r.Failure? <==>
      FindConnectionNamed(reg.connections, name).Some? || FindPair(reg.connections, reset, forceRecovery).Some?
    ensures r.Success? ==>
      var c := r.value.1;
      && c == Connection(reg.nextConnectionId, name, reset, forceRecovery, description,
                         if isEnabled.Some? then isEnabled.value else EnabledDefault)
      && r.value.0 == reg.(connections := reg.connections + [c], nextConnectionId := reg.nextConnectionId + 1)
  {
    if FindConnectionNamed(reg.connections, name).Some? then Failure(UniqueName)
    else if FindPair(reg.connections, reset, forceRecovery).Some? then Failure(UniquePinPair)
    else
      var c := Connection(reg.nextConnectionId, name, reset, forceRecovery, description,
                          if isEnabled.Some? then isEnabled.value else EnabledDefault);
      Success((reg.(connections := reg.connections + [c], nextConnectionId := reg.nextConnectionId + 1), c))
  }

  /** `JetsonNanoDevice.objects.create(...)`; `isActive` None means the field was not given. */
  function CreateDevice(reg: Registry, name: string, connectedTo: Option<nat>, usbConnection: string,
                        description: string, isActive: Option<bool>): (r: Result<(Registry, Device), IntegrityError>)
    ensures r.Failure? <==>
      FindDeviceNamed(reg.devices, name).Some? || (connectedTo.Some? && FindConnection(reg.connections, connectedTo.value).None?)
    ensures r.Success? ==>
      var d := r.value.1;
      && d == Device(reg.nextDeviceId, name, connectedTo, usbConnection, description,
                     if isActive.Some? then isActive.value else ActiveDefault)
      && r.value.0 == reg.(devices := reg.devices + [d], nextDeviceId := reg.nextDeviceId + 1)
  {
    if FindDeviceNamed(reg.devices, name).Some? then Failure(UniqueName)
    else if connectedTo.Some? && FindConnection(reg.connections, connectedTo.value).None? then Failure(ForeignKey)
    else
      var d := Device(reg.nextDeviceId, name, connectedTo, usbConnection, description,
                      if isActive.Some? then isActive.value else ActiveDefault);
      Success((reg.(devices := reg.devices + [d], nextDeviceId := reg.nextDeviceId + 1), d))
  }

  /** The connections other than the one with this id, in their order. */
  function WithoutConnection(cs: seq<Connection>, id: nat): (r: seq<Connection>)
    ensures forall c :: c in r <==> c in cs && c.id != id
    decreases |cs|
  {
    if cs == [] then []
    else if cs[0].id == id then WithoutConnection(cs[1..], id)
    else [cs[0]] + WithoutConnection(cs[1..], id)
  }

  /** ON DELETE SET NULL: every device pointing at `id` is unlinked, no device is removed. */
  function UnlinkDevices(ds: seq<Device>, id: nat): (r: seq<Device>)
    ensures |r| == |ds|
    ensures forall i :: 0 <= i < |ds| ==>
      r[i] == if ds[i].connectedTo == Some(id) then ds[i].(connectedTo := None) else ds[i]
    decreases |ds|
  {
    if ds == [] then []
    else [if ds[0].connectedTo == Some(id) then ds[0].(connectedTo := None) else ds[0]] + UnlinkDevices(ds[1..], id)
  }

  /** Deleting a connection. */
  function DeleteConnection(reg: Registry, id: nat): (r: Registry)
    ensures forall c :: c in r.connections <==> c in reg.connections && c.id != id
    ensures |r.devices| == |reg.devices|
    ensures forall i :: 0 <= i < |r.devices| ==>
      r.devices[i].connectedTo != Some(id)
      && r.devices[i] == if reg.devices[i].connectedTo == Some(id) then reg.devices[i].(connectedTo := None) else reg.devices[i]
  {
    reg.(connections := WithoutConnection(reg.connections, id), devices := UnlinkDevices(reg.devices, id))
  }

  /** The devices with this id pointed at `target` instead. */
  function Relink(ds: seq<Device>, deviceId: nat, target: Option<nat>): (r: seq<Device>)
    ensures |r| == |ds|
    ensures forall i :: 0 <= i < |ds| ==>
      r[i] == if ds[i].id == deviceId then ds[i].(connectedTo := target) else ds[i]
    decreases |ds|
  {
    if ds == [] then []
    else [if ds[0].id == deviceId then ds[0].(connectedTo := target) else ds[0]] + Relink(ds[1..], deviceId, target)
  }

  /** `device.connected_to = target; device.save()`: refused when the target connection is missing. */
  function SaveConnectedTo(reg: Registry, deviceId: nat, target: Option<nat>): (r: Result<Registry, IntegrityError>)
    ensures r.Failure? <==> target.Some? && FindConnection(reg.connections, target.value).None?
    ensures r.Success? ==>
      r.value.connections == reg.connections && |r.value.devices| == |reg.devices|
      && (forall i :: 0 <= i < |reg.devices| ==>
            r.value.devices[i] == if reg.devices[i].id == deviceId then reg.devices[i].(connectedTo := target) else reg.devices[i])
  {
    if target.Some? && FindConnection(reg.connections, target.value).None? then Failure(ForeignKey)
    else Success(reg.(devices := Relink(reg.devices, deviceId, target)))
  }

  lemma CreateConnectionConsistent(reg: Registry, name: string, reset: int, forceRecovery: int, description: string,
                                   isEnabled: Option<bool>)
    requires Consistent(reg)
    requires CreateConnection(reg, name, reset, forceRecovery, description, isEnabled).Success?
    ensures Consistent(CreateConnection(reg, name, reset, forceRecovery, description, isEnabled).value.0)
  {
    var r := CreateConnection(reg, name, reset, forceRecovery, description, isEnabled).value.0;
    forall i | 0 <= i < |r.devices| && r.devices[i].connectedTo.Some?
      ensures FindConnection(r.connections, r.devices[i].connectedTo.value).Some?
    {
      var k := r.devices[i].connectedTo.value;
      var j :| 0 <= j < |reg.connections| && reg.connections[j].id == k;
      assert r.connections[j] == reg.connections[j];
    }
  }

  lemma CreateDeviceConsistent(reg: Registry, name: string, connectedTo: Option<nat>, usbConnection: string,
                               description: string, isActive: Option<bool>)
    requires Consistent(reg)
    requires CreateDevice(reg, name, connectedTo, usbConnection, description, isActive).Success?
    ensures Consistent(CreateDevice(reg, name, connectedTo, usbConnection, description, isActive).value.0)
  {
  }

  lemma WithoutConnectionUnique(cs: seq<Connection>, id: nat)
    requires UniqueConnections(cs)
    ensures UniqueConnections(WithoutConnection(cs, id))
    decreases |cs|
  {
    if cs != [] {
      WithoutConnectionUnique(cs[1..], id);
      if cs[0].id != id {
        var rest := WithoutConnection(cs[1..], id);
        forall j | 0 <= j < |rest|
          ensures cs[0].id != rest[j].id && cs[0].name != rest[j].name
            && !SamePair(cs[0], rest[j].reset, rest[j].forceRecovery)
        {
          FirstApartFromLater(cs, rest[j]);
        }
        UniqueCons(cs[0], rest);
      }
    }
  }

  /** The first connection of a unique list differs in id, name and pins from every later one. */
  lemma FirstApartFromLater(cs: seq<Connection>, c: Connection)
    requires UniqueConnections(cs) && cs != [] && c in cs[1..]
    ensures cs[0].id != c.id && cs[0].name != c.name && !SamePair(cs[0], c.reset, c.forceRecovery)
  {
    var k :| 0 <= k < |cs[1..]| && cs[1..][k] == c;
    assert cs[k + 1] == c;
  }

  /** A connection apart from every row of a unique list can be put in front of it. */
  lemma UniqueCons(c: Connection, rest: seq<Connection>)
    requires UniqueConnections(rest)
    requires forall j :: 0 <= j < |rest| ==>
      c.id != rest[j].id && c.name != rest[j].name && !SamePair(c, rest[j].reset, rest[j].forceRecovery)
    ensures UniqueConnections([c] + rest)
  {
    var r := [c] + rest;
    forall i, j | 0 <= i < j < |r|
      ensures r[i].id != r[j].id && r[i].name != r[j].name && !SamePair(r[i], r[j].reset, r[j].forceRecovery)
    {
      if i == 0 {
        assert r[j] == rest[j - 1];
      } else {
        assert r[i] == rest[i - 1] && r[j] == rest[j - 1];
      }
    }
  }


  /** Deleting a connection keeps every constraint; in particular no device is left dangling. */
  lemma DeleteConnectionConsistent(reg: Registry, id: nat)
    requires Consistent(reg)
    ensures Consistent(DeleteConnection(reg, id))
  {
    var r := DeleteConnection(reg, id);
    WithoutConnectionUnique(reg.connections, id);
    SameKeysUnique(reg.devices, r.devices);
    forall i | 0 <= i < |r.connections|
      ensures r.connections[i].id < r.nextConnectionId
    {
      assert r.connections[i] in reg.connections;
    }
    forall i | 0 <= i < |r.devices| && r.devices[i].connectedTo.Some?
      ensures FindConnection(r.connections, r.devices[i].connectedTo.value).Some?
    {
      var k := r.devices[i].connectedTo.value;
      assert k != id && reg.devices[i].connectedTo == Some(k);
      var c := FindConnection(reg.connections, k).value;
      assert c in r.connections;
      var j :| 0 <= j < |r.connections| && r.connections[j] == c;
    }
  }

  /** Saving a device's link to an existing connection, or to none, keeps every constraint. */
  lemma SaveConnectedToConsistent(reg: Registry, deviceId: nat, target: Option<nat>)
    requires Consistent(reg)
    requires SaveConnectedTo(reg, deviceId, target).Success?
    ensures Consistent(SaveConnectedTo(reg, deviceId, target).value)
  {
    var r := SaveConnectedTo(reg, deviceId, target).value;
    SameKeysUnique(reg.devices, r.devices);
    forall i | 0 <= i < |r.devices| && r.devices[i].connectedTo.Some?
      ensures FindConnection(r.connections, r.devices[i].connectedTo.value).Some?
    {
      if reg.devices[i].id != deviceId {
        assert r.devices[i] == reg.devices[i];
      }
    }
  }

  /** Unique device keys stay unique when only other columns change. */
  lemma SameKeysUnique(a: seq<Device>, b: seq<Device>)
    requires UniqueDevices(a) && |b| == |a|
    requires forall i :: 0 <= i < |a| ==> b[i].id == a[i].id && b[i].name == a[i].name
    ensures UniqueDevices(b)
  {
  }

  /** With the pin-pair constraint in force, the connection found for a pair is the only one on that pair. */
  lemma FindPairIsTheOne(cs: seq<Connection>, reset: int, forceRecovery: int, i: nat)
    requires UniqueConnections(cs)
    requires i < |cs| && SamePair(cs[i], reset, forceRecovery)
    ensures FindPair(cs, reset, forceRecovery) == Some(cs[i])
  {
    var c := FindPair(cs, reset, forceRecovery).value;
    var j :| 0 <= j < |cs| && cs[j] == c;
    assert i == j;
  }

  // ---------------------------------------------------------------------------
  // String forms (__str__)

  const ResetLabel: string := " (Reset: GPIO"
  const RecoveryLabel: string := ", Recovery: GPIO"
  /** The arrow as the bytes of the source file decode it: three characters, not U+2192. */
  const LinkArrow: string := " \U{00E2}\U{2020}\U{2019} "
  const NotConnected: string := " (not connected)"

  predicate StartsWith(s: string, t: string) {
    |t| <= |s| && s[..|t|] == t
  }

  predicate EndsWith(s: string, t: string) {
    |t| <= |s| && s[|s| - |t|..] == t
  }

  /** `GPIOConnection.__str__`. */
  function ConnectionStr(c: Connection): (s: string)
    ensures StartsWith(s, c.name)
  {
    c.name + PinsText(c.reset, c.forceRecovery)
  }

  /** What follows the name in a connection's string form. */
  function PinsText(reset: int, forceRecovery: int): string {
    ResetLabel + (IntToString(reset) + (RecoveryLabel + IntToString(forceRecovery) + ")"))
  }

  /** Reads the force-recovery pin from `", Recovery: GPIO<n>)"`. */
  function ParseRecovery(s: string): Option<int> {
    if !StartsWith(s, RecoveryLabel) then None
    else match ReadInt(s[|RecoveryLabel|..])
      case None => None
      case Some((forceRecovery, tail)) => if tail == ")" then Some(forceRecovery) else None
  }

  /** Reads back the pin pair from what follows the name in a connection's string form. */
  function ParsePins(s: string): Option<(int, int)> {
    if !StartsWith(s, ResetLabel) then None
    else match ReadInt(s[|ResetLabel|..])
      case None => None
      case Some((reset, rest)) =>
        match ParseRecovery(rest)
        case None => None
        case Some(forceRecovery) => Some((reset, forceRecovery))
  }

  lemma ParseRecoveryRoundTrip(f: int)
    ensures ParseRecovery(RecoveryLabel + IntToString(f) + ")") == Some(f)
  {
    var s := RecoveryLabel + IntToString(f) + ")";
    assert s[..|RecoveryLabel|] == RecoveryLabel;
    assert s[|RecoveryLabel|..] == IntToString(f) + ")";
    ReadIntToString(f, ")");
  }

  /** The text after a connection's name reads back as its two pins. */
  lemma ParsePinsRoundTrip(reset: int, forceRecovery: int)
    ensures ParsePins(PinsText(reset, forceRecovery)) == Some((reset, forceRecovery))
  {
    var tail := RecoveryLabel + IntToString(forceRecovery) + ")";
    var s := PinsText(reset, forceRecovery);
    assert s[..|ResetLabel|] == ResetLabel;
    assert s[|ResetLabel|..] == IntToString(reset) + tail;
    assert tail[0] == ',';
    ReadIntToString(reset, tail);
    ParseRecoveryRoundTrip(forceRecovery);
  }

  /** A connection's string form shows its name followed by exactly its two pin numbers. */
  lemma ConnectionStrRoundTrip(c: Connection)
    ensures ConnectionStr(c)[..|c.name|] == c.name
    ensures ParsePins(ConnectionStr(c)[|c.name|..]) == Some((c.reset, c.forceRecovery))
  {
    var s := PinsText(c.reset, c.forceRecovery);
    assert (c.name + s)[|c.name|..] == s;
    ParsePinsRoundTrip(c.reset, c.forceRecovery);
  }

  /** Two connections with the same name have the same string form only if they are on the same pins. */
  lemma ConnectionStrDeterminesPins(c1: Connection, c2: Connection)
    requires c1.name == c2.name && ConnectionStr(c1) == ConnectionStr(c2)
    ensures SamePair(c1, c2.reset, c2.forceRecovery)
  {
    ConnectionStrRoundTrip(c1);
    ConnectionStrRoundTrip(c2);
  }

  /** `JetsonNanoDevice.__str__`, given the name of the linked connection when there is one. */
  function DeviceStr(d: Device, linkedName: Option<string>): (s: string)
    ensures StartsWith(s, d.name)
    ensures linkedName.None? && d.usbConnection == [] ==> s == d.name + NotConnected
    ensures linkedName.Some? ==> StartsWith(s, d.name + LinkArrow + linkedName.value)
    ensures linkedName.None? ==> StartsWith(s, d.name + NotConnected)
    ensures d.usbConnection != [] ==> EndsWith(s, " [USB: " + d.usbConnection + "]")
    ensures d.usbConnection == [] ==> EndsWith(s, if linkedName.Some? then linkedName.value else NotConnected)
    ensures |s| == |d.name| + (if linkedName.Some? then |LinkArrow| + |linkedName.value| else |NotConnected|)
                   + (if d.usbConnection != [] then |d.usbConnection| + 8 else 0)
  {
    var linked := if linkedName.Some? then LinkArrow + linkedName.value else NotConnected;
    var usb := if d.usbConnection != [] then " [USB: " + d.usbConnection + "]" else "";
    assert d.name + linked + usb == d.name + (linked + usb);
    d.name + linked + usb
  }

  /** The name of the connection a device points at, as `device.connected_to.name` reads it. */
  function LinkedName(reg: Registry, d: Device): Option<string> {
    if d.connectedTo.None? then None
    else match FindConnection(reg.connections, d.connectedTo.value)
      case None => None
      case Some(c) => Some(c.name)
  }

  /** In a consistent registry, a stored device that is linked always has a linked name. */
  lemma LinkedNameOfStored(reg: Registry, d: Device)
    requires Consistent(reg) && d in reg.devices && d.connectedTo.Some?
    ensures LinkedName(reg, d) == Some(FindConnection(reg.connections, d.connectedTo.value).value.name)
  {
    var i :| 0 <= i < |reg.devices| && reg.devices[i] == d;
  }

  /** The database behind the views and the provisioning command. */
  class Database {
    var registry: Registry

    constructor (registry: Registry)
      ensures this.registry == registry
    {
      this.registry := registry;
    }

    ghost predicate Valid()
      reads this
    {
      Consistent(registry)
    }
  }
}
