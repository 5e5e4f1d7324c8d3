# AppleTV accessory model

A Dafny model of `AppleTVAccessory`, the per-device accessory of the
homebridge Apple TV plugin. It covers four parts:

- **Topology step.** The constructor extends the persisted
  `generic_sensors` list with a `deviceState` group and an `app` group.
- **Service reconciler.** The constructor identifies the information
  service and gets or creates the power switch. It then gets or creates
  one motion sensor per `(property, value)` pair and removes every
  accessory service it did not ask for.
- **Event router.** The `update:powerState` handler and one
  `update:${property}` handler per group, with delivery of a device event
  to every matching subscription.
- **Command selection.** `setOn`, which turns a HomeKit SET into a power
  command.

Everything is pure functions over immutable data:

- The accessory registry is a sequence of service records. Each record
  has an identity that stands for object identity in the program.
  `Registry.WellFormed`, which `Reconciler.Construct` requires, says
  only what object identity guarantees: distinct services have distinct
  identities, and a new service gets one not used before.
- Characteristic values are a map from (service, characteristic) to value.
- The device context is a datatype whose absent fields are `None`.
- The constructor returns either the constructed accessory or, when the
  accessory has no information service, an error. In the program that
  case is the TypeError from calling `.setCharacteristic` on `undefined`
  (line 59): the `!` on line 58 is only a type annotation and checks
  nothing at run time.

Modules, in dependency order:

- `Wrappers`: `Option` and `Result`.
- `Registry`: services, lookup, add, remove.
- `Topology`: the device context and the `generic_sensors` append.
- `Reconciler`: the constructor.
- `Events`: the handlers and event dispatch.
- `Commands`: `setOn`.
- `Scenarios`: concrete instances.

Three behaviours of the code worth knowing:

- **`generic_sensors` is appended to, not rebuilt.** Lines 95-119 push
  the two configured groups onto whatever list the context already holds.
  A context that persists across restarts therefore gains the same groups
  again on every run. `Topology.ReloadRepeatsPushedGroups` shows this
  duplication adds no new `(property, value)` pair. Because of that, a
  restart still creates and removes nothing
  (`Reconciler.SecondRunChangesNothing`).
- **The subtype is the value.** The code passes the bare `value` as the
  subtype (line 129) but looks the sensor up by the name
  `${property}.${value}` (line 127). The model records the subtype as the
  code sets it and looks sensors up by display name.
- **Duplicate properties keep the last group.** When two groups share a
  property, `genericServices[property]` is reset for each of them
  (line 123). The handler therefore sees only the last group's sensors.
  The earlier group's sensors stay wanted, so they are not removed.
  `Reconciler.Construct` states both facts: `Routed` says which sensors
  the handler sees, and `Tracked` says every topology name stays wanted
  and still leads to its service.

## Model

| member | source | states |
|---|---|---|
| Registry.Find | src/platformAccessory.ts:127 | The index found answers the key, and no earlier service does; `None` means no service answers it. |
| Registry.AddService | src/platformAccessory.ts:128-129 | Appends one service of the given type, name and subtype. Every existing service stays in place, the new identity is fresh, and well-formedness is preserved. |
| Registry.SetCharacteristic | src/platformAccessory.ts:59-67 | Writing one characteristic sets exactly that value. Every other value, the services and the next identity are unchanged, and the only new key is the one written. The same write is used for the switch's Name (line 74), each sensor's Name (line 130), MotionDetected (lines 141-144) and On (lines 168-170). |
| Registry.RemoveService | src/platformAccessory.ts:154 | Removing a service drops exactly the services with its identity, together with exactly their characteristic values. Every other service and value is kept unchanged, and the next identity is unchanged. |
| Registry.RemoveServices | src/platformAccessory.ts:150-155 | Removing a list of services leaves exactly the services whose identity is not among the victims, in order. It drops precisely the victims' characteristic values. |
| Registry.RemoveUnusedKeepsWanted | src/platformAccessory.ts:150-155 | Removing every service not in the wanted set leaves exactly the wanted services, in their original order. |
| Registry.FindKeep | src/platformAccessory.ts:150-155 | Filtering the registry down to wanted services does not change what a lookup finds when its first match is wanted. |
| Topology.WithGenericSensors | src/platformAccessory.ts:95-119 | Only `generic_sensors` changes, and the prior list (or `[]`) stays as a prefix. A deviceState group follows iff `device_state_sensors` is non-empty, then an app group iff `app_sensors` is non-empty. No other group is added, and every added group is non-empty. |
| Topology.ReloadRepeatsPushedGroups | src/platformAccessory.ts:95-119 | Running the step again on its own output appends the same groups once more. The set of (property, value) pairs is unchanged. |
| Reconciler.Start | src/platformAccessory.ts:56-68 | The information service found by type gets "Apple Inc.", "AppleTV" and the device id, or "Serial" when there is none. It opens the wanted list. The services are unchanged, the only new values are those three, and every other value is unchanged. |
| Reconciler.OpenSwitch | src/platformAccessory.ts:56-81 | After the information service, the switch is obtained by type and becomes the second wanted entry. An existing switch is reused and nothing is created. Without one, a switch with no display name or subtype is appended under a fresh identity, and its Name reads "Power State". The power subscription is the first one, and the identification values are kept. Apart from them and the created switch's Name, no value of an existing service changes or appears. |
| Reconciler.Assemble | src/platformAccessory.ts:56-148 | Before removal: the lookups are exactly the two service types plus one name per topology pair. The power subscription comes first, then one per group. `genericServices` is indexed by the topology, and the identification values are kept. Services are only appended. Apart from the identification values, no value of an existing service changes, and the only other new values are the Names of appended services. |
| Reconciler.GetOrAdd | src/platformAccessory.ts:70-75 | A service the lookup finds is reused, and the accessory is unchanged. Otherwise exactly one service is appended, with the requested type, display name and subtype and a fresh identity, and its Name is set to the requested label; no other characteristic value appears or changes. Either way the service is pushed onto the wanted list under that key, and no value of an existing service changes. |
| Reconciler.SensorStep | src/platformAccessory.ts:124-131 | One value's sensor is obtained under the name `${property}.${value}` and recorded in `genericServices[property][value]`. An existing service with that name is reused and nothing changes in the accessory. Otherwise a motion sensor with that display name and subtype `value` is appended, and its Name reads `value`. No value of an existing service changes. |
| Reconciler.SensorValues | src/platformAccessory.ts:124-132 | After a group's value loop, the property's map gains exactly the group's values, and other properties are untouched. The lookups made are exactly one name per value. Services are only appended, and no value of an existing service changes; the only new values are the Names of appended services. |
| Reconciler.SensorGroups | src/platformAccessory.ts:121-148 | The group loop subscribes one `update:${property}` handler per group, in order. Each property's map holds exactly the values of the last group with that property. The keys looked up are exactly the topology's (property, value) names. Services are only appended, and no value of an existing service changes; the only new values are the Names of appended services. |
| Reconciler.Construct | src/platformAccessory.ts:56-155 | Fails exactly when there is no information service. Otherwise the information service carries "Apple Inc.", "AppleTV" and the id or "Serial". Get-or-create holds, and only wanted services remain. An original service survives iff it is wanted. The removed list is the unwanted originals, each once, in registry order. The wanted list covers the information service, the switch and every topology name, and each key leads to its service. The power subscription comes first, then one per group. Every remaining service is an original one or a created one. Each created service is what its key leads to, built as the code builds it: the switch with Name "Power State", or a motion sensor named `${property}.${value}` whose subtype and Name are `value`. Every other value of a surviving original service is unchanged. The only new values are the identification values and the created services' Names, and no value of a removed service remains. |
| Reconciler.RemovalFacts | src/platformAccessory.ts:150-155 | Removal keeps every wanted service (including every created one), so each looked-up key still finds its service. It deletes only original services that are not wanted. |
| Reconciler.SecondRunChangesNothing | src/platformAccessory.ts:56-155 | Constructing again on the resulting registry and persisted context succeeds, creates no service and removes none. The services and the wanted set are unchanged. |
| Reconciler.RestartWithOriginalContext | src/platformAccessory.ts:56-155 | Constructing again on the resulting registry, with the context as it was before the append, also succeeds, creates no service and removes none. The services and the wanted set are unchanged. |
| Reconciler.ConstructedSensorsDistinct | src/platformAccessory.ts:124-131 | In a constructed accessory, two values of one property never share a sensor service. |
| Events.UpdatePowerState | src/platformAccessory.ts:166-171 | On becomes true iff the reported state is "on" and false for every other value. No other characteristic changes. |
| Events.RouteOf | src/platformAccessory.ts:90 | A power event goes through the debounced updater iff the delay is a number, and straight to `updatePowerState` otherwise. |
| Events.HandlePowerEvent | src/platformAccessory.ts:81-93 | An error changes nothing. A change applies `updatePowerState` to its new value directly when the delay is not a number; otherwise it applies only when the debouncer admits the call. |
| Events.BypassAppliesEveryEvent | src/platformAccessory.ts:90-92 | Without a numeric delay, the values applied are the new values of all successful events: each once, in order. |
| Events.DebounceAppliesAdmitted | src/platformAccessory.ts:48-54 | With a numeric delay, the values applied are those of the admitted successful events, in order. |
| Events.PowerShowsLastApplied | src/platformAccessory.ts:166-171 | After a stream of power events, the switch shows the last applied state. When nothing was applied, nothing changed. |
| Events.UpdateSensors | src/platformAccessory.ts:140-145 | Every sensor of the property gets MotionDetected = (new value == its value). Nothing outside those sensors changes. |
| Events.HandleSensorEvent | src/platformAccessory.ts:136-146 | An error changes nothing; a change runs the sensor update. |
| Events.SensorEventIdempotent | src/platformAccessory.ts:140-145 | Delivering the same sensor event twice has the effect of delivering it once. |
| Events.AtMostOneDetected | src/platformAccessory.ts:140-145 | After a successful event, at most one sensor of the property is detected, whatever the prior state. One is detected iff the new value is one of the configured values. |
| Events.DeliverInOrder | src/platformAccessory.ts:81-147 | The device runs the handlers of one event one after another, in the order the `atv.on` calls subscribed them: delivering to two lists of subscriptions in turn is the same as delivering to their concatenation. |
| Events.DeliverLast | src/platformAccessory.ts:81-147 | The handler subscribed last runs on the values every earlier handler left. |
| Events.DeliverElsewhere | src/platformAccessory.ts:134-135 | Subscriptions to other event names leave every value unchanged: a handler runs only for the name it subscribed to. |
| Events.ErrorChangesNothing | src/platformAccessory.ts:134-147 | An error event, delivered to any list of subscriptions on any channel, leaves every characteristic value unchanged. |
| Events.SensorChannelRunsSensorHandler | src/platformAccessory.ts:134-147 | On a constructed accessory, `update:${property}` for a tracked property other than `powerState` has the effect of one run of that property's handler. This holds even when the property's group occurs several times. |
| Events.PowerChannelRunsPowerHandler | src/platformAccessory.ts:81-93 | On a constructed accessory with no generic property named `powerState`, `update:powerState` runs exactly the power handler. |
| Commands.SetOn | src/platformAccessory.ts:161-164 | Sends `turnOn` iff the value is not one of JavaScript's falsy values, and `turnOff` otherwise. It returns a command and writes no characteristic. |
| Commands.TruthyIsNotFalsy | src/platformAccessory.ts:162 | The conditional's truth test agrees with the list of falsy values. |
| Commands.SetThenConfirmShowsValue | src/platformAccessory.ts:161-171 | Setting On to a value, then receiving the device's confirming power event, leaves On equal to the value's truth value (when the event is applied). |
| Scenarios.PlayingPausedTopology | src/platformAccessory.ts:99-108 | `device_state_sensors = ["playing", "paused"]` and an empty app list give the single group deviceState: playing, paused. |
| Scenarios.FourServices | src/platformAccessory.ts:56-155 | Constructing on an accessory that holds only an information service (with an unrelated name), for a context with device states "playing" and "paused", succeeds with exactly four services and removes nothing. The information service is the original one. The other three were created: a switch with no display name or subtype and Name "Power State", and motion sensors named `deviceState.playing` and `deviceState.paused` with subtypes and Names "playing" and "paused". It follows from the constructor's contract alone. |
| Scenarios.PausedEvent | src/platformAccessory.ts:140-145 | A "paused" event marks the paused sensor detected and the playing sensor not detected, and leaves the switch alone. |
| Scenarios.SetOnFalseTurnsOff | src/platformAccessory.ts:162 | `setOn(false)` turns the device off and `setOn(true)` turns it on. |

## Left out

- The pyatv device (lines 30-35): construction, credentials, the
  `turnOn`/`turnOff` transport and event delivery are network I/O. Events
  are inputs to the handlers, and commands are the values `SetOn` returns.
  The device id is a parameter of `Construct`.
- Events.HandlePowerEvent: the timers of the throttle-debounce `debounce`
  (lines 48-54) are wall-clock behaviour of an external library. Its
  decision for each call is an input (`admitted`): with `atBegin` set, a
  call is either applied at once or dropped. The delay value itself is not
  interpreted.
- Registry.Find: how the host registry matches a name lookup is not shown.
  The model matches the display name only, and does not model the
  registry's conflict check on duplicate subtypes. The Name characteristic
  is recorded as a value and never renames a service.
- Reconciler.Construct: the value frame covers the values of services in
  the registry. A value keyed to an identity of no service is left
  unconstrained. The program cannot hold such a value, because its values
  live on service objects.
- All `platform.log` calls: they are side effects with no state.
- The `async`/`await` of `setOn` and the propagation of a rejected command:
  only the choice of operation is modelled.
- `./platform` (`AppleTVPlatform`) is not part of this model. In
  particular, whether the appended `generic_sensors` is persisted between
  runs is decided there. `Reconciler.SecondRunChangesNothing` covers the
  case where it is, and `Reconciler.RestartWithOriginalContext` the case
  where the context is re-read as it was.
- Events.UpdateSensors: the iteration order of the `for...in` loop over
  `genericServices[property]` is not modelled. Each value writes a
  different characteristic when the sensors are distinct, which
  `Reconciler.ConstructedSensorsDistinct` proves for every constructed
  accessory, so the order does not matter there. Its per-sensor promise is
  stated under that distinctness.
- The `onSet` registration (lines 76-78) is not modelled; a SET is
  represented by `Commands.SetOn` directly.
- Context fields with unexpected JavaScript types are not modelled: a
  sensor list that is not an array, or `generic_sensors` that is truthy but
  not a list. Absent lists are `None`; the delay is either a number or not.
- Numbers in events and characteristic values are integers. NaN and
  other floating-point values are not modelled; NaN is falsy in
  JavaScript, like 0.
