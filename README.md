# jetsonnano_manager GPIO controller in Dafny

A Dafny model of the `gpio_controller` Django app. The app drives pairs of
Raspberry Pi GPIO pins wired to the reset and force-recovery lines of Jetson
Nano boards. The model covers:

- **The pin-sequencing engine** (`GPIOService`, services.py). The engine
  turns each action into a fixed list of calls: pin writes and sleeps. It
  runs in one of three modes:
  - *mock*: the GPIO library is missing;
  - *not initialised*: the library is there, but setting the numbering mode
    raised;
  - *hardware*.

  A call that raises ends the action with `false` and undoes nothing. The
  library and the clock are the class `Services.Hardware`: a pin map, a
  trace of completed calls, a call counter, and an oracle set `failing`
  that says which GPIO calls raise. `time.sleep` raises exactly when its
  argument is negative. `PinEngine` gives the meaning of a run of calls as
  pure functions (`Apply`, `Perform`, `Run`). Each method of
  `Services.GPIOService` is proved to end in the state those functions
  describe. Lemmas about the functions give every outcome of every action,
  including each raise point.
- **The module-global singleton**: `get_gpio_service` and `cleanup_gpio`
  (`Services.ServiceHolder`).
- **The two tables** (models.py) as an in-memory `Registry`:
  - the unique constraints and the nullable `connected_to` link, held in the
    predicate `Models.Consistent`;
  - the inserts and updates, which return an `IntegrityError` when they
    would break a constraint;
  - `ON DELETE SET NULL`;
  - the two `__str__` forms.

  `Models.Database` is the mutable database the views and the command work on.
- **The serializers**: the bounded float fields with their defaults, and the
  field lists and read-only lists of the model serializers.
- **The view decisions**:
  - which serializer each action uses;
  - the set-pin body checks, in their order;
  - which pin and which engine call each action drives;
  - the 200/500 status choice;
  - the connect/disconnect updates of a device's `connected_to`.
- **The `init_gpio_devices` command**:
  - `Provisioning.Provision` is the specification, one pin pair at a time.
  - `Provisioning.Handle` is the command's loop. It is proved to end in the
    state `Provision` describes.
  - Lemmas about `Provision`: every pair is counted once; every pair is set
    up; a fresh run creates seven of each; a second run changes nothing.

Integers are unbounded, as in Python. Durations are mathematical reals.
Strings are sequences of characters. `Text` gives Python's decimal rendering
of an `int`, with a reader that undoes it. The round trip makes the
generated names and the string forms injective in their pin numbers.

## Model

| member | source | states |
|---|---|---|
| PinEngine.Effect | gpio_controller/services.py:64-65 | defines what a completed call does to the pins: `setup` makes the pin an output at HIGH, `output` writes the level, `cleanup` releases every pin, a sleep or the mode call changes none |
| PinEngine.Raises | gpio_controller/services.py:94-105 | defines when a call raises: a GPIO call exactly when the oracle lists its call index, `time.sleep` exactly on a negative duration |
| PinEngine.Apply | gpio_controller/services.py:94-105 | defines one call: it raises and leaves pins and trace alone, or completes, appending itself to the trace and applying its effect; either way a GPIO call is counted |
| PinEngine.Perform | gpio_controller/services.py:94-105 | defines a run of calls inside one `try` block: it stops at the first call that raises and reports false, keeping what was done before |
| PinEngine.Run | gpio_controller/services.py:90-107 | defines the three branches of each operation: mock reports true and does nothing, uninitialised reports false and does nothing, hardware performs the calls |
| PinEngine.PulseOps | gpio_controller/services.py:97-100 | defines pulse_pin's calls: write LOW, sleep the duration, write HIGH |
| PinEngine.HoldLowOps | gpio_controller/services.py:126-129 | defines hold_pin_low's calls: write LOW, sleep the duration, write HIGH |
| PinEngine.SequenceABOps | gpio_controller/services.py:157-174 | defines sequence_ab's seven calls: a LOW, hold, b LOW, pulse, b HIGH, settle 0.5 s, a HIGH |
| PinEngine.SequenceBAOps | gpio_controller/services.py:198-214 | defines sequence_ba's seven calls: b LOW, hold, a LOW, pulse, a HIGH, settle 0.5 s, b HIGH |
| PinEngine.SetPinOps | gpio_controller/services.py:252-253 | defines set_pin_state's single write, HIGH for true and LOW for false |
| PinEngine.SetupOps | gpio_controller/services.py:64-65 | defines setup_pins's calls: the reset pin, then the recovery pin, each an output at HIGH |
| PinEngine.Boot | gpio_controller/services.py:35-48 | the engine is initialised exactly when the library is present and `setmode` does not raise; pins are untouched, and the mode call is recorded only when it completes |
| PinEngine.PerformExtends | gpio_controller/services.py:157-177 | a run never erases a completed call, and attempts at most one GPIO call per GPIO step |
| PinEngine.PerformNoFault | gpio_controller/services.py:157-174 | when no call raises, the trace grows by exactly the action's calls, the pins are their effects, and the run reports true |
| PinEngine.PerformSucceedsIff | gpio_controller/services.py:157-177 | a run reports true if and only if none of its calls raises |
| PinEngine.PerformAppend | gpio_controller/services.py:175-177 | running two call lists one after the other is one run of their concatenation; once the first raises, no call of the second is made |
| PinEngine.StopsAtFirstFault | gpio_controller/services.py:175-177 | if call j is the first to raise, the run ends there with false; the calls before it stay done and no later call is made |
| PinEngine.PerformFrame | gpio_controller/services.py:94-102 | a pin that the calls neither configure nor write keeps its level |
| PinEngine.PulseOutcome | gpio_controller/services.py:94-107 | every outcome of pulse_pin on the hardware, by raise point; a raise after the LOW write leaves the pin LOW; a full run leaves it HIGH with the trace LOW, sleep, HIGH |
| PinEngine.HoldLowIsPulse | gpio_controller/services.py:109-137 | hold_pin_low makes exactly the calls of pulse_pin; the defaults are 2.0 and 0.5 seconds |
| PinEngine.SequenceABOutcome | gpio_controller/services.py:157-179 | every outcome of sequence_ab on the hardware, by raise point; a raise writing b LOW leaves a LOW; a full run leaves both pins HIGH with the seven-call trace |
| PinEngine.PulseThenRelease | gpio_controller/services.py:164-172 | every outcome of the part of sequence_ab after the hold of a has begun |
| PinEngine.SequenceBAIsMirror | gpio_controller/services.py:198-214 | sequence_ba makes the calls of sequence_ab with the two pins exchanged |
| PinEngine.SequenceBAOutcome | gpio_controller/services.py:198-220 | every outcome of sequence_ba: those of sequence_ab with a and b exchanged, so a raise writing a LOW leaves b LOW |
| PinEngine.PulseSleeps | gpio_controller/services.py:97-100 | pulse_pin sleeps for exactly its duration |
| PinEngine.SequenceABSleeps | gpio_controller/services.py:160-172 | sequence_ab sleeps for h + t + 0.5 seconds in all |
| PinEngine.SetPinOutcome | gpio_controller/services.py:251-260 | set_pin_state makes one write, HIGH exactly when the state is true; a raise changes no pin and no trace |
| PinEngine.SetupOutcome | gpio_controller/services.py:62-68 | setup_pins makes both pins outputs at HIGH, reset pin first; a raise on the first skips the second |
| Services.Hardware.SetMode | gpio_controller/services.py:42-43 | `GPIO.setmode` completes or raises as the oracle says, with the effect `Apply` gives |
| Services.Hardware.Setup | gpio_controller/services.py:64-65 | `GPIO.setup(pin, OUT, initial=HIGH)`: the pin becomes HIGH unless the call raises |
| Services.Hardware.Output | gpio_controller/services.py:97-100 | `GPIO.output(pin, level)`: the pin takes the level unless the call raises |
| Services.Hardware.Sleep | gpio_controller/services.py:99 | `time.sleep`: recorded in the trace, raising exactly on a negative duration |
| Services.Hardware.Cleanup | gpio_controller/services.py:74 | `GPIO.cleanup()` releases every pin unless it raises |
| Services.GPIOService.constructor | gpio_controller/services.py:30-33 | a new engine is initialised exactly as `Boot` says |
| Services.GPIOService.InitGpio | gpio_controller/services.py:35-48 | without the library the flag stays as it was; otherwise it is set exactly when setmode does not raise |
| Services.GPIOService.SetupPins | gpio_controller/services.py:50-68 | in mock or uninitialised mode nothing happens; on the hardware the state is the run of the two setup calls |
| Services.GPIOService.Cleanup | gpio_controller/services.py:70-77 | cleans up only on the hardware; otherwise nothing happens |
| Services.GPIOService.PulsePin | gpio_controller/services.py:79-107 | mock: true, no change; not initialised: false, no change; hardware: state and result are the run of LOW, sleep, HIGH, which with no raise is true, that exact trace, the pin HIGH and no other pin changed |
| Services.GPIOService.HoldPinLow | gpio_controller/services.py:109-137 | the same three outcomes as pulse_pin, with the calls of hold_pin_low |
| Services.GPIOService.SequenceAB | gpio_controller/services.py:139-179 | mock: true, no change; not initialised: false, no change; hardware: state and result are the run of the seven sequence_ab calls |
| Services.GPIOService.SequenceBA | gpio_controller/services.py:181-220 | as sequence_ab, with the calls of sequence_ba |
| Services.GPIOService.ForceRecoverySequence | gpio_controller/services.py:222-234 | exactly sequence_ab(force_recovery_pin, reset_pin, hold_time, 0.5) |
| Services.GPIOService.SetPinState | gpio_controller/services.py:236-260 | mock: true, no change; not initialised: false, no change; hardware: the run of one write of the requested level |
| Services.ServiceHolder.constructor | gpio_controller/services.py:263-264 | the global starts with no engine |
| Services.ServiceHolder.GetGpioService | gpio_controller/services.py:267-272 | the first call creates and initialises the engine; later calls return the same one and touch no pin |
| Services.ServiceHolder.Served | gpio_controller/services.py:267-272 | defines what get_gpio_service leaves behind: an engine is installed, the one there before if any, otherwise a new one, in the mode that was due |
| Services.ServiceHolder.CleanupGpio | gpio_controller/services.py:275-280 | cleans up the engine if there is one (only the hardware mode makes the call), then forgets it |
| Models.Consistent | gpio_controller/models.py:16-51 | defines the table constraints: unique connection names, unique ordered pin pairs, unique ids below the next id, unique device names, and every `connected_to` pointing at a stored connection |
| Models.LinkedName | gpio_controller/models.py:66 | defines `device.connected_to.name`: the name of the stored connection the device points at, none when unlinked |
| Models.FindConnection | gpio_controller/views.py:215-216 | returns a stored connection with that id, and none exactly when no row has it |
| Models.FindConnectionNamed | gpio_controller/models.py:16 | returns a stored connection with that name, and none exactly when no row has it |
| Models.FindPair | gpio_controller/management/commands/init_gpio_devices.py:43-46 | returns a stored connection on that ordered pin pair, and none exactly when no row is on it |
| Models.FindDevice | gpio_controller/views.py:212 | returns a stored device with that id, and none exactly when no row has it |
| Models.FindDeviceNamed | gpio_controller/management/commands/init_gpio_devices.py:74 | returns a stored device with that name, and none exactly when no row has it |
| Models.CreateConnection | gpio_controller/models.py:16-30 | refused exactly when the name or the ordered pin pair is taken (equal pins are allowed); otherwise appends the row under the next id, `is_enabled` defaulting to true |
| Models.CreateDevice | gpio_controller/models.py:44-56 | refused exactly when the name is taken or the linked connection is missing; otherwise appends the row under the next id, `is_active` defaulting to true |
| Models.WithoutConnection | gpio_controller/models.py:45-47 | the connections left once one id is deleted are exactly the others |
| Models.UnlinkDevices | gpio_controller/models.py:45-47 | ON DELETE SET NULL: every device pointing at the deleted id is unlinked, and no device is removed or otherwise changed |
| Models.DeleteConnection | gpio_controller/models.py:45-51 | deleting a connection keeps every other connection and every device, and no device still points at it |
| Models.Relink | gpio_controller/views.py:217-218 | only the device with that id gets the new link |
| Models.SaveConnectedTo | gpio_controller/views.py:217-218 | saving a link is refused exactly when the target connection is missing; otherwise only that device's link changes |
| Models.CreateConnectionConsistent | gpio_controller/models.py:16-30 | an accepted connection insert keeps every constraint |
| Models.CreateDeviceConsistent | gpio_controller/models.py:44-51 | an accepted device insert keeps every constraint |
| Models.WithoutConnectionUnique | gpio_controller/models.py:16-30 | deleting a connection keeps names, ids and pin pairs unique |
| Models.DeleteConnectionConsistent | gpio_controller/models.py:45-51 | deleting a connection keeps every constraint; no device is left pointing at a missing row |
| Models.SaveConnectedToConsistent | gpio_controller/models.py:45-51 | saving a link to an existing connection, or to none, keeps every constraint |
| Models.FindPairIsTheOne | gpio_controller/models.py:28-30 | under the pin-pair constraint, the connection found for a pair is the only one on it |
| Models.ConnectionStr | gpio_controller/models.py:32-33 | a connection's string form starts with its name |
| Models.ParsePinsRoundTrip | gpio_controller/models.py:33 | the text after the name reads back as exactly the two pins |
| Models.ConnectionStrRoundTrip | gpio_controller/models.py:32-33 | the string form is the name followed by text that reads back as exactly (reset, force_recovery) |
| Models.ConnectionStrDeterminesPins | gpio_controller/models.py:32-33 | two connections with one name have the same string form only if they are on the same pins |
| Models.DeviceStr | gpio_controller/models.py:65-68 | the string form is, and is fixed to exactly, the name, then the arrow and the linked connection's name or " (not connected)", then " [USB: <tag>]" when there is a tag: each part is stated by a prefix or a suffix clause, and a length equation leaves no room between them |
| Models.LinkedNameOfStored | gpio_controller/views.py:252 | in a consistent registry a stored, linked device always has a linked connection name |
| Serializers.AsFloat | gpio_controller/serializers.py:26 | numbers and booleans are read as numbers; null is refused as null, and anything else as not a number |
| Serializers.ValidateFloat | gpio_controller/serializers.py:24-35 | a missing key takes the default; a given value is accepted exactly when it reads as a number within [min, max], and is then used as given |
| Serializers.ResetDurationBounded | gpio_controller/serializers.py:26 | every accepted duration lies in [0.1, 5.0]; 0.5 when none is given |
| Serializers.ResetDurationAcceptedIff | gpio_controller/serializers.py:26 | a numeric duration is accepted exactly when 0.1 <= d <= 5.0, and is used as given |
| Serializers.HoldTimeBounded | gpio_controller/serializers.py:33 | every accepted hold time lies in [0.5, 10.0]; 2.0 when none is given |
| Serializers.HoldTimeAcceptedIff | gpio_controller/serializers.py:33 | a numeric hold time is accepted exactly when 0.5 <= h <= 10.0, and is used as given |
| Serializers.ValidateFloatIgnoresOtherKeys | gpio_controller/serializers.py:26-35 | the read-only `success` and `message`, and any other key, do not change what an action serializer accepts |
| Serializers.Fields | gpio_controller/serializers.py:8-21 | defines the `Meta.fields` list of each model serializer, in order |
| Serializers.ReadOnly | gpio_controller/serializers.py:8-21 | the declared read-only fields are read-only |
| Serializers.Writable | gpio_controller/serializers.py:8-21 | a field is writable exactly when it is listed and not read-only |
| Serializers.WritableInput | gpio_controller/serializers.py:8-21 | a model serializer reads exactly the writable keys of a body, with their values |
| Serializers.TimestampsReadOnly | gpio_controller/serializers.py:11-21 | `created_at`, `updated_at` and `id` are never taken from a request, on either serializer |
| Serializers.ConnectionWritable | gpio_controller/serializers.py:10-11 | a client may write exactly name, reset, force_recovery, description and is_enabled, in that order |
| Serializers.ConnectionJson | gpio_controller/serializers.py:10 | a connection's representation has exactly the eight listed fields |
| Serializers.ConnectionJsonReadsBack | gpio_controller/serializers.py:10 | every stored column of a connection can be read back from its representation, the pins as whole numbers |
| Views.GetSerializerClass | gpio_controller/views.py:41-47 | the reset serializer exactly for "reset", the force-recovery one exactly for "force_recovery", and the connection serializer for every other action |
| Views.StatusFor | gpio_controller/views.py:86-89 | the status is 200 exactly when the engine reported success, and 500 otherwise |
| Views.ResetMessage | gpio_controller/views.py:82 | defines the reset reply's message: `Reset signal sent on GPIO<pin>` on success, `Failed to send reset signal` otherwise |
| Views.ForceRecoveryMessage | gpio_controller/views.py:120 | defines the force-recovery reply's message: `Force recovery sequence completed` on success, `Failed to trigger force recovery` otherwise |
| Views.SetPinMessage | gpio_controller/views.py:173 | defines the set_pin reply's message: `Pin <name> set to HIGH` or `LOW` on success, `Failed to set pin state` otherwise |
| Views.ValidateSetPin | gpio_controller/views.py:143-156 | accepted exactly when the pin name is "reset" or "force_recovery" and the state is a bool; a bad name is reported before a bad state |
| Views.PinNumber | gpio_controller/views.py:158 | "reset" selects the reset pin and "force_recovery" the force-recovery pin |
| Views.SetPinMessageSaysLevel | gpio_controller/views.py:173 | a successful set_pin message names the requested level; a failed one says it failed |
| Views.ResetMessageNamesPin | gpio_controller/views.py:82 | a successful reset message ends with exactly the reset pin's number |
| Views.PerformCreate | gpio_controller/views.py:49-54 | a refused insert changes nothing and makes no GPIO call; an accepted one stores the row and then runs setup_pins on its two pins; the shared engine is left in place on a refusal, and served (fetched, or created and initialised) on success |
| Views.Reset | gpio_controller/views.py:56-89 | unknown connection: 404; invalid duration: 400, no GPIO call; otherwise the run of pulse_pin on the reset pin for the duration (0.5 by default), answered 200 or 500 by its result; the shared engine is left as it was on 404 and 400, and served on the pulse |
| Views.ForceRecovery | gpio_controller/views.py:91-128 | unknown connection: 404; invalid hold time: 400, no GPIO call; otherwise the run of sequence_ab led by the force-recovery pin, then the reset pin, for the hold time (2.0 by default), answered 200 or 500; the shared engine is left as it was on 404 and 400, and served on the sequence |
| Views.SetPin | gpio_controller/views.py:130-180 | unknown connection: 404; a bad pin name or state: 400, no GPIO call; otherwise the run of one write of the named pin, answered 200 or 500; the shared engine is left as it was on 404 and 400, and served on the write |
| Views.LookUp | gpio_controller/views.py:213-216 | the connection found is the stored one with exactly that id; none for a missing or negative id |
| Views.Connect | gpio_controller/views.py:202-235 | unknown device: 404; unknown connection: 404, nothing changed; otherwise only that device now points at the connection |
| Views.Disconnect | gpio_controller/views.py:237-266 | unknown device: 404; unlinked device: 400, nothing changed; otherwise only that device is unlinked, and the reply names its former connection |
| Views.ConnectThenDisconnect | gpio_controller/views.py:202-266 | connecting a device to an existing connection links it; a disconnect then succeeds and leaves every device as before the connect, except that this device is unlinked |
| Provisioning.ConnectionName | gpio_controller/management/commands/init_gpio_devices.py:55 | defines the generated connection name `Jetson-<reset>-<recovery>` |
| Provisioning.DeviceName | gpio_controller/management/commands/init_gpio_devices.py:73 | defines the generated device name `Jetson-Nano-<reset>-<recovery>` |
| Provisioning.ParsePinPairRoundTrip | gpio_controller/management/commands/init_gpio_devices.py:55 | the `<reset>-<recovery>` part of a generated name reads back as the pair |
| Provisioning.ConnectionNameInjective | gpio_controller/management/commands/init_gpio_devices.py:55 | different pairs get different connection names |
| Provisioning.DeviceNameInjective | gpio_controller/management/commands/init_gpio_devices.py:73 | different pairs get different device names |
| Provisioning.Proceed | gpio_controller/management/commands/init_gpio_devices.py:43-65 | defines a step before any abort: reuse the stored connection on the pair, counted as skipped, or create one |
| Provisioning.Provision | gpio_controller/management/commands/init_gpio_devices.py:41-86 | defines the command's effect on the pairs processed so far, as one `Step` per pair in order |
| Provisioning.SetupAll | gpio_controller/management/commands/init_gpio_devices.py:67-68 | defines the pins after setup_pins has run on each pair in turn; a raise inside one setup does not stop the next |
| Provisioning.Link | gpio_controller/management/commands/init_gpio_devices.py:67-86 | the chosen connection's pins are set up; the pair's device is created, linked to that connection, exactly when no device has its name |
| Provisioning.Step | gpio_controller/management/commands/init_gpio_devices.py:41-86 | after an abort nothing more happens; a step that does not abort sets up its pair |
| Provisioning.CreatePair | gpio_controller/management/commands/init_gpio_devices.py:53-65 | a new pair that is created without an error is set up |
| Provisioning.FindPairOfNew | gpio_controller/management/commands/init_gpio_devices.py:43-61 | a connection appended on a free pair is the one the pair lookup finds afterwards |
| Provisioning.StepSetsUp | gpio_controller/management/commands/init_gpio_devices.py:67-68 | a step that ends without an error started without one and set up its pair |
| Provisioning.StepAfterAbort | gpio_controller/management/commands/init_gpio_devices.py:56-61 | once the command has failed, a step changes nothing |
| Provisioning.StepGrows | gpio_controller/management/commands/init_gpio_devices.py:41-86 | a step only appends rows |
| Provisioning.StepAborts | gpio_controller/management/commands/init_gpio_devices.py:53-61 | a step fails exactly when the pair is new but its generated name is taken, and the failure changes nothing else |
| Provisioning.StepCovers | gpio_controller/management/commands/init_gpio_devices.py:41-86 | a step that does not fail counts its pair once and leaves it with a connection and a device |
| Provisioning.StepReuses | gpio_controller/management/commands/init_gpio_devices.py:43-52 | an existing pair is reused and counted as skipped, with no connection created; if its device exists too, no row changes |
| Provisioning.StepCreates | gpio_controller/management/commands/init_gpio_devices.py:54-65 | a new pair gets exactly `Jetson-{reset}-{recovery}` on those pins, under the next id, counted as created |
| Provisioning.StepDevice | gpio_controller/management/commands/init_gpio_devices.py:73-86 | a device is created only when its name is free, and is then linked to the pair's connection |
| Provisioning.CountsAddUp | gpio_controller/management/commands/init_gpio_devices.py:37-65 | in a run that does not fail, created plus skipped is the number of pairs |
| Provisioning.AbortIsFinal | gpio_controller/management/commands/init_gpio_devices.py:41-61 | once an error has stopped the command, the later pairs change nothing |
| Provisioning.SetsUpEveryPair | gpio_controller/management/commands/init_gpio_devices.py:67-68 | in a run that does not fail, setup_pins is called for every pair, in order, whether created or reused |
| Provisioning.ProvisionGrows | gpio_controller/management/commands/init_gpio_devices.py:41-86 | a run only appends rows; no row is changed or removed |
| Provisioning.GrowsKeepsRows | gpio_controller/management/commands/init_gpio_devices.py:43-74 | a row found by pair or by name is still found once rows have been appended |
| Provisioning.ProvisionCovers | gpio_controller/management/commands/init_gpio_devices.py:41-86 | after a run that does not fail, every pair has its connection and its device |
| Provisioning.RerunChangesNothing | gpio_controller/management/commands/init_gpio_devices.py:43-77 | a run over pairs that are all present creates nothing, skips every pair and leaves every row as it was |
| Provisioning.Idempotent | gpio_controller/management/commands/init_gpio_devices.py:41-92 | after a run that does not fail, a second run creates no connection and no device, skips all seven pairs and changes no row |
| Provisioning.PinPairsDistinct | gpio_controller/management/commands/init_gpio_devices.py:11-19 | the seven fixed pairs are pairwise different |
| Provisioning.StepOnClear | gpio_controller/management/commands/init_gpio_devices.py:53-86 | on a registry with nothing in its way, a step creates the pair's connection and device, and the later pairs stay clear |
| Provisioning.ProvisionOnClearPrefix | gpio_controller/management/commands/init_gpio_devices.py:41-86 | on a clear registry, after n pairs: no failure, n created, n devices, none skipped |
| Provisioning.FreshRun | gpio_controller/management/commands/init_gpio_devices.py:11-92 | on an empty database the command creates all seven connections and all seven devices |
| Provisioning.StepConsistent | gpio_controller/management/commands/init_gpio_devices.py:56-83 | every step keeps the database constraints |
| Provisioning.ProvisionConsistent | gpio_controller/management/commands/init_gpio_devices.py:41-86 | every run keeps the database constraints |
| Provisioning.Handle | gpio_controller/management/commands/init_gpio_devices.py:9-92 | gets the shared engine, then the database ends as `Provision` of the seven pairs describes, setup_pins has run for exactly the pairs it set up, in order, and the result is the tally or the error that stopped it; the shared engine is served |
| Provisioning.ProvisionAll | gpio_controller/management/commands/init_gpio_devices.py:41-92 | the command's loop ends in the state `Provision` describes, keeps the constraints, and reports its tally or the error that stopped it |
| Provisioning.ProvisionPair | gpio_controller/management/commands/init_gpio_devices.py:42-86 | one iteration of the loop does exactly what `Step` describes, to the database, to the counters and to the pins |
| Provisioning.LinkPair | gpio_controller/management/commands/init_gpio_devices.py:67-86 | the device half of an iteration does exactly what `Link` describes |
| Text.IntToString | gpio_controller/models.py:33 | the decimal text of an int is never empty, and starts with '-' exactly for negative numbers |
| Text.ReadIntToString | gpio_controller/models.py:33 | reading an int back from its decimal text, when no digit follows, gives the number and the rest |
| Text.IntToStringInjective | gpio_controller/models.py:33 | different integers are written differently |

## Left out

- The RPi.GPIO library, the clock and the pins are the abstract `Hardware` class. A raise is chosen by an oracle set of GPIO call indices. A sleep is a trace event, not elapsed time.
- The import-time probe for `HAS_GPIO` is a constant of `Hardware` (`hasGpio`).
- `GPIO.setwarnings(False)` is folded into the single mode call. A raise by either call leaves the engine uninitialised.
- Durations and bounds are mathematical reals, not floating point.
- Logging, `stdout` messages and `timezone.now()` timestamps are not modelled. Responses carry no timestamp.
- The Django ORM, the REST framework and HTTP are replaced by the decisions they make. `get_object()` is a lookup by id that answers 404 when the row is missing. `is_valid(raise_exception=True)` is a 400 carrying the field error.
- The list, retrieve, update and destroy endpoints of both viewsets are not modelled. The model serializers' representation of a device is not modelled. The `ConnectionActionResponseSerializer` is never used by the views, and is not modelled.
- Serializers.AsFloat: strings that Python's `float()` accepts (such as "1.5") and non-finite values are refused, so the model accepts fewer bodies than the source does.
- Serializers.ValidateFloat: inherits the weaker number reading of `AsFloat`.
- Views.LookUp: `connection_id` is an optional integer. Django's coercion of strings such as "3" to an id, and the server error a non-numeric id raises, are not modelled.
- The `max_length` limits of the `CharField`s are not modelled.
- `Meta.ordering`: rows are kept in insertion order. `.first()` picks the first stored match. This is the same row under the uniqueness constraints.
- When an insert breaks more than one constraint, the model reports the name clash first. A database may report another one.
- admin.py, urls.py and apps.py are configuration and are not part of this model.
- Concurrent access to the shared engine, which has no locking, is outside this sequential model.
- The `usb_ports` option of the command is read but never used, and is not modelled.
- The command does not catch the `IntegrityError` that `objects.create` raises when the generated name `Jetson-{reset}-{recovery}` is already taken on other pins, so such a pair ends the command with that error. The model does the same (`Provisioning.StepAborts`): the remaining pairs are not processed and no summary line is written.
- The device arrow in `JetsonNanoDevice.__str__` is written in the source file as the three characters U+00E2 U+2020 U+2019, a mis-decoded U+2192. The model keeps those three characters.
