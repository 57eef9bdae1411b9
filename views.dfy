/**
 * The decisions of gpio_controller/views.py: which serializer an action
 * uses, the validation of the set-pin body, which engine call and which pin
 * each action drives, the HTTP status it answers with, and the
 * connect / disconnect state machine over a device's `connected_to`.
 */
module Views {

  import opened Wrappers
  import opened Text
  import opened PinEngine
  import opened Services
  import opened Models
  import opened Serializers

  datatype SerializerClass = ResetActionSerializer | ForceRecoveryActionSerializer | GPIOConnectionSerializer

  /** GPIOConnectionViewSet.get_serializer_class. */
  function GetSerializerClass(action: string): (r: SerializerClass)
    ensures r == ResetActionSerializer <==> action == "reset"
    ensures r == ForceRecoveryActionSerializer <==> action == "force_recovery"
    ensures r == GPIOConnectionSerializer <==> action != "reset" && action != "force_recovery"
  {
    if action == "reset" then ResetActionSerializer
    else if action == "force_recovery" then ForceRecoveryActionSerializer
    else GPIOConnectionSerializer
  }

  const Ok: nat := 200
  const BadRequest: nat := 400
  const NotFoundStatus: nat := 404
  const ServerError: nat := 500

  /** The status of every pin action: 200 when the engine reported success, 500 otherwise. */
  function StatusFor(success: bool): (code: nat)
    ensures code == Ok <==> success
    ensures code == ServerError <==> !success
  {
    if success then Ok else ServerError
  }

  datatype Reply =
    | ActionReport(connectionId: nat, connectionName: string, action: string,
                   resetPin: int, recoveryPin: int, success: bool, message: string)
    | PinReport(connectionId: nat, connectionName: string, pin: string, pinNumber: int, state: string,
                resetPin: int, recoveryPin: int, success: bool, message: string)
    | LinkReport(deviceId: nat, deviceName: string, connectionName: string, message: string)
    | ErrorReply(error: string)
    | FieldErrors(field: string, problem: FieldError)
    | NotFound

  datatype Response = Response(status: nat, reply: Reply)

  function ResetMessage(resetPin: int, success: bool): string {
    if success then "Reset signal sent on GPIO" + IntToString(resetPin) else "Failed to send reset signal"
  }

  function ForceRecoveryMessage(success: bool): string {
    if success then "Force recovery sequence completed" else "Failed to trigger force recovery"
  }

  function LevelName(state: bool): string {
    if state then "HIGH" else "LOW"
  }

  function SetPinMessage(pinName: string, state: bool, success: bool): string {
    if success then "Pin " + pinName + " set to " + LevelName(state) else "Failed to set pin state"
  }

  const InvalidPinMessage: string := "Invalid pin. Must be \"reset\" or \"force_recovery\""
  const InvalidStateMessage: string := "Invalid state. Must be true (HIGH) or false (LOW)"

  predicate PinNameValid(body: Body) {
    "pin" in body && (body["pin"] == JStr("reset") || body["pin"] == JStr("force_recovery"))
  }

  predicate StateValid(body: Body) {
    "state" in body && body["state"].JBool?
  }

  /**
   * The checks of set_pin, in their order: the pin name first, then the
   * state. On success, the pin name and the requested level.
   */
  function ValidateSetPin(body: Body): (r: Result<(string, bool), string>)
    ensures r.Success? <==> PinNameValid(body) && StateValid(body)
    ensures !PinNameValid(body) ==> r == Failure(InvalidPinMessage)
    ensures PinNameValid(body) && !StateValid(body) ==> r == Failure(InvalidStateMessage)
    ensures r.Success? ==> body["pin"] == JStr(r.value.0) && body["state"] == JBool(r.value.1)
  {
    if !PinNameValid(body) then Failure(InvalidPinMessage)
    else if !StateValid(body) then Failure(InvalidStateMessage)
    else Success((body["pin"].s, body["state"].b))
  }

  /** The pin number a set_pin name stands for on a connection. */
  function PinNumber(c: Connection, pinName: string): (pin: int)
    requires pinName == "reset" || pinName == "force_recovery"
    ensures pinName == "reset" ==> pin == c.reset
    ensures pinName == "force_recovery" ==> pin == c.forceRecovery
  {
    if pinName == "reset" then c.reset else c.forceRecovery
  }

  /** A successful set_pin report says the requested level; a failed one says it failed. */
  lemma SetPinMessageSaysLevel(pinName: string, state: bool, success: bool)
    ensures success && state ==> SetPinMessage(pinName, state, success) == "Pin " + pinName + " set to HIGH"
    ensures success && !state ==> SetPinMessage(pinName, state, success) == "Pin " + pinName + " set to LOW"
    ensures !success ==> SetPinMessage(pinName, state, success) == "Failed to set pin state"
  {
  }

  /** The reset message names the pulsed pin, and only a successful one does. */
  lemma ResetMessageNamesPin(resetPin: int, success: bool)
    ensures success ==> ReadInt(ResetMessage(resetPin, success)[|"Reset signal sent on GPIO"|..]) == Some((resetPin, ""))
    ensures !success ==> ResetMessage(resetPin, success) == "Failed to send reset signal"
  {
    if success {
      var m := ResetMessage(resetPin, success);
      assert m[|"Reset signal sent on GPIO"|..] == IntToString(resetPin) + "";
      ReadIntToString(resetPin, "");
    }
  }

  /** GPIOConnectionViewSet.perform_create: save the connection, then set up both of its pins. */
  method PerformCreate(db: Database, holder: ServiceHolder, name: string, reset: int, forceRecovery: int,
                       description: string, isEnabled: Option<bool>)
    returns (r: Result<Connection, IntegrityError>)
    requires db.Valid() && holder.Valid()
    modifies db, holder, holder.hw
    ensures db.Valid() && holder.Valid()
    ensures var created := CreateConnection(old(db.registry), name, reset, forceRecovery, description, isEnabled);
      && (created.Failure? ==>
            && r == Failure(created.error)
            && db.registry == old(db.registry)
            && holder.hw.State() == old(holder.hw.State())
            && holder.instance == old(holder.instance))
      && (created.Success? ==>
            && r == Success(created.value.1)
            && db.registry == created.value.0
            && holder.Served()
            && holder.hw.State() ==
                 Run(old(holder.ModeAfterGet()), old(holder.AfterGet()), SetupOps(reset, forceRecovery), holder.hw.failing).0)
  {
    var created := CreateConnection(db.registry, name, reset, forceRecovery, description, isEnabled);
    if created.Failure? {
      return Failure(created.error);
    }
    CreateConnectionConsistent(db.registry, name, reset, forceRecovery, description, isEnabled);
    db.registry := created.value.0;
    var connection := created.value.1;
    var svc := holder.GetGpioService();
    svc.SetupPins(connection.reset, connection.forceRecovery);
    r := Success(connection);
  }

  /** The `reset` action: pulse the connection's reset pin for the validated duration. */
  method Reset(db: Database, holder: ServiceHolder, pk: nat, body: Body) returns (resp: Response)
    requires holder.Valid()
    modifies holder, holder.hw
    ensures holder.Valid()
    ensures FindConnection(db.registry.connections, pk).None? || ValidateReset(body).Failure? ==>
      holder.instance == old(holder.instance)
    ensures FindConnection(db.registry.connections, pk).Some? && ValidateReset(body).Success? ==> holder.Served()
    ensures var found := FindConnection(db.registry.connections, pk);
      && (found.None? ==> resp == Response(NotFoundStatus, NotFound) && holder.hw.State() == old(holder.hw.State()))
      && (found.Some? && ValidateReset(body).Failure? ==>
            resp == Response(BadRequest, FieldErrors(Duration.key, ValidateReset(body).error))
            && holder.hw.State() == old(holder.hw.State()))
      && (found.Some? && ValidateReset(body).Success? ==>
            var c := found.value;
            var out := Run(old(holder.ModeAfterGet()), old(holder.AfterGet()),
                           PulseOps(c.reset, ValidateReset(body).value), holder.hw.failing);
            && holder.hw.State() == out.0
            && resp == Response(StatusFor(out.1),
                 ActionReport(c.id, c.name, "reset", c.reset, c.forceRecovery, out.1, ResetMessage(c.reset, out.1))))
  {
    var found := FindConnection(db.registry.connections, pk);
    if found.None? {
      return Response(NotFoundStatus, NotFound);
    }
    var c := found.value;
    var duration := ValidateReset(body);
    if duration.Failure? {
      return Response(BadRequest, FieldErrors(Duration.key, duration.error));
    }
    var svc := holder.GetGpioService();
    var success := svc.PulsePin(c.reset, duration := duration.value);
    resp := Response(StatusFor(success),
      ActionReport(c.id, c.name, "reset", c.reset, c.forceRecovery, success, ResetMessage(c.reset, success)));
  }

  /** The `force_recovery` action: the recovery pin leads, the reset pin is pulsed inside its hold. */
  method ForceRecovery(db: Database, holder: ServiceHolder, pk: nat, body: Body) returns (resp: Response)
    requires holder.Valid()
    modifies holder, holder.hw
    ensures holder.Valid()
    ensures FindConnection(db.registry.connections, pk).None? || ValidateForceRecovery(body).Failure? ==>
      holder.instance == old(holder.instance)
    ensures FindConnection(db.registry.connections, pk).Some? && ValidateForceRecovery(body).Success? ==> holder.Served()
    ensures var found := FindConnection(db.registry.connections, pk);
      && (found.None? ==> resp == Response(NotFoundStatus, NotFound) && holder.hw.State() == old(holder.hw.State()))
      && (found.Some? && ValidateForceRecovery(body).Failure? ==>
            resp == Response(BadRequest, FieldErrors(HoldTime.key, ValidateForceRecovery(body).error))
            && holder.hw.State() == old(holder.hw.State()))
      && (found.Some? && ValidateForceRecovery(body).Success? ==>
            var c := found.value;
            var out := Run(old(holder.ModeAfterGet()), old(holder.AfterGet()),
                           SequenceABOps(c.forceRecovery, c.reset, ValidateForceRecovery(body).value, SequencePulseDefault),
                           holder.hw.failing);
            && holder.hw.State() == out.0
            && resp == Response(StatusFor(out.1),
                 ActionReport(c.id, c.name, "force_recovery", c.reset, c.forceRecovery, out.1, ForceRecoveryMessage(out.1))))
  {
    var found := FindConnection(db.registry.connections, pk);
    if found.None? {
      return Response(NotFoundStatus, NotFound);
    }
    var c := found.value;
    var holdTime := ValidateForceRecovery(body);
    if holdTime.Failure? {
      return Response(BadRequest, FieldErrors(HoldTime.key, holdTime.error));
    }
    var svc := holder.GetGpioService();
    var success := svc.ForceRecoverySequence(c.forceRecovery, c.reset, holdTime := holdTime.value);
    resp := Response(StatusFor(success),
      ActionReport(c.id, c.name, "force_recovery", c.reset, c.forceRecovery, success, ForceRecoveryMessage(success)));
  }

  /** The `set_pin` action: validate the body, then drive the named pin to the requested level. */
  method SetPin(db: Database, holder: ServiceHolder, pk: nat, body: Body) returns (resp: Response)
    requires holder.Valid()
    modifies holder, holder.hw
    ensures holder.Valid()
    ensures FindConnection(db.registry.connections, pk).None? || ValidateSetPin(body).Failure? ==>
      holder.instance == old(holder.instance)
    ensures FindConnection(db.registry.connections, pk).Some? && ValidateSetPin(body).Success? ==> holder.Served()
    ensures var found := FindConnection(db.registry.connections, pk);
      && (found.None? ==> resp == Response(NotFoundStatus, NotFound) && holder.hw.State() == old(holder.hw.State()))
      && (found.Some? && ValidateSetPin(body).Failure? ==>
            resp == Response(BadRequest, ErrorReply(ValidateSetPin(body).error))
            && holder.hw.State() == old(holder.hw.State()) && holder.instance == old(holder.instance))
      && (found.Some? && ValidateSetPin(body).Success? ==>
            var c := found.value;
            var (pinName, state) := ValidateSetPin(body).value;
            var pin := PinNumber(c, pinName);
            var out := Run(old(holder.ModeAfterGet()), old(holder.AfterGet()), SetPinOps(pin, state), holder.hw.failing);
            && holder.hw.State() == out.0
            && resp == Response(StatusFor(out.1),
                 PinReport(c.id, c.name, pinName, pin, LevelName(state), c.reset, c.forceRecovery, out.1,
                           SetPinMessage(pinName, state, out.1))))
  {
    var found := FindConnection(db.registry.connections, pk);
    if found.None? {
      return Response(NotFoundStatus, NotFound);
    }
    var c := found.value;
    var request := ValidateSetPin(body);
    if request.Failure? {
      return Response(BadRequest, ErrorReply(request.error));
    }
    var (pinName, state) := request.value;
    var pin := PinNumber(c, pinName);
    var svc := holder.GetGpioService();
    var success := svc.SetPinState(pin, state);
    resp := Response(StatusFor(success),
      PinReport(c.id, c.name, pinName, pin, LevelName(state), c.reset, c.forceRecovery, success,
                SetPinMessage(pinName, state, success)));
  }

  /** The text Python gives `connection_id` in a message: `None` when it is missing. */
  function IdText(connectionId: Option<int>): string {
    if connectionId.None? then "None" else IntToString(connectionId.value)
  }

  /** The connection `objects.get(id=connection_id)` finds, if any. */
  function LookUp(reg: Registry, connectionId: Option<int>): (r: Option<Connection>)
    ensures r.Some? <==> connectionId.Some? && connectionId.value >= 0
                         && FindConnection(reg.connections, connectionId.value as nat).Some?
    ensures r.Some? ==> r.value in reg.connections && r.value.id == connectionId.value
  {
    if connectionId.None? || connectionId.value < 0 then None
    else FindConnection(reg.connections, connectionId.value as nat)
  }

  /** JetsonNanoDeviceViewSet.connect: point the device at an existing connection. */
  method Connect(db: Database, pk: nat, connectionId: Option<int>) returns (resp: Response)
    requires db.Valid()
    modifies db
    ensures db.Valid()
    ensures var device := FindDevice(old(db.registry.devices), pk);
      var target := LookUp(old(db.registry), connectionId);
      && (device.None? ==> resp == Response(NotFoundStatus, NotFound) && db.registry == old(db.registry))
      && (device.Some? && target.None? ==>
            resp == Response(NotFoundStatus, ErrorReply("GPIO connection with id " + IdText(connectionId) + " not found"))
            && db.registry == old(db.registry))
      && (device.Some? && target.Some? ==>
            && db.registry.connections == old(db.registry.connections)
            && |db.registry.devices| == |old(db.registry.devices)|
            && (forall i :: 0 <= i < |db.registry.devices| ==>
                  db.registry.devices[i] ==
                    if old(db.registry.devices[i]).id == pk then old(db.registry.devices[i]).(connectedTo := Some(target.value.id))
                    else old(db.registry.devices[i]))
            && resp == Response(Ok, LinkReport(device.value.id, device.value.name, target.value.name,
                                               "Device connected to " + target.value.name)))
  {
    var device := FindDevice(db.registry.devices, pk);
    if device.None? {
      return Response(NotFoundStatus, NotFound);
    }
    var target := LookUp(db.registry, connectionId);
    if target.None? {
      return Response(NotFoundStatus, ErrorReply("GPIO connection with id " + IdText(connectionId) + " not found"));
    }
    var connection := target.value;
    var saved := SaveConnectedTo(db.registry, pk, Some(connection.id));
    SaveConnectedToConsistent(db.registry, pk, Some(connection.id));
    db.registry := saved.value;
    resp := Response(Ok, LinkReport(device.value.id, device.value.name, connection.name,
                                    "Device connected to " + connection.name));
  }

  const NotConnectedMessage: string := "Device is not connected to any GPIO connection"

  /** JetsonNanoDeviceViewSet.disconnect: unlink a linked device; an unlinked one is refused. */
  method Disconnect(db: Database, pk: nat) returns (resp: Response)
    requires db.Valid()
    modifies db
    ensures db.Valid()
    ensures var device := FindDevice(old(db.registry.devices), pk);
      && (device.None? ==> resp == Response(NotFoundStatus, NotFound) && db.registry == old(db.registry))
      && (device.Some? && device.value.connectedTo.None? ==>
            resp == Response(BadRequest, ErrorReply(NotConnectedMessage)) && db.registry == old(db.registry))
      && (device.Some? && device.value.connectedTo.Some? ==>
            var name := LinkedName(old(db.registry), device.value);
            && name.Some?
            && db.registry.connections == old(db.registry.connections)
            && |db.registry.devices| == |old(db.registry.devices)|
            && (forall i :: 0 <= i < |db.registry.devices| ==>
                  db.registry.devices[i] ==
                    if old(db.registry.devices[i]).id == pk then old(db.registry.devices[i]).(connectedTo := None)
                    else old(db.registry.devices[i]))
            && resp == Response(Ok, LinkReport(device.value.id, device.value.name, name.value,
                                               "Device disconnected from " + name.value)))
  {
    var device := FindDevice(db.registry.devices, pk);
    if device.None? {
      return Response(NotFoundStatus, NotFound);
    }
    var d := device.value;
    if d.connectedTo.None? {
      return Response(BadRequest, ErrorReply(NotConnectedMessage));
    }
    LinkedNameOfStored(db.registry, d);
    var connectionName := FindConnection(db.registry.connections, d.connectedTo.value).value.name;
    var saved := SaveConnectedTo(db.registry, pk, None);
    SaveConnectedToConsistent(db.registry, pk, None);
    db.registry := saved.value;
    resp := Response(Ok, LinkReport(d.id, d.name, connectionName, "Device disconnected from " + connectionName));
  }

  /** After a successful connect, the device points at the chosen connection; after disconnect, at none. */
  lemma ConnectThenDisconnect(reg: Registry, deviceId: nat, target: nat)
    requires Consistent(reg) && FindConnection(reg.connections, target).Some?
    ensures var linked := SaveConnectedTo(reg, deviceId, Some(target));
      && linked.Success?
      && (forall i :: 0 <= i < |reg.devices| && reg.devices[i].id == deviceId ==>
            linked.value.devices[i].connectedTo == Some(target))
      && var unlinked := SaveConnectedTo(linked.value, deviceId, None);
      && unlinked.Success?
      && (forall i :: 0 <= i < |reg.devices| ==>
            unlinked.value.devices[i] ==
              if reg.devices[i].id == deviceId then reg.devices[i].(connectedTo := None) else reg.devices[i])
  {
  }
}
