/** The outbound side of `AppleTVAccessory`: a HomeKit "SET" of the
    switch's On characteristic becomes a power command to the device. */
module Commands {
  import opened Registry
  import opened Topology
  import opened Events

  /** A value HomeKit hands to a SET handler. */
  datatype CharacteristicValue = Bool(b: bool) | Num(n: int) | Str(s: string) | Obj | NullValue

  /** JavaScript's falsy values among characteristic values: `false`, `0`,
      the empty string and `null`. Objects are always truthy. */
  predicate Falsy(v: CharacteristicValue) {
    v == Bool(false) || v == Num(0) || v == Str("") || v == NullValue
  }

  /** The JavaScript truth value of a characteristic value. */
  predicate Truthy(v: CharacteristicValue) {
    match v
    case Bool(b) => b
    case Num(n) => n != 0
    case Str(s) => |s| > 0
    case Obj => true
    case NullValue => false
  }

  lemma TruthyIsNotFalsy(v: CharacteristicValue)
    ensures Truthy(v) <==> !Falsy(v)
  {
  }

  datatype DeviceCommand = TurnOn | TurnOff

  /** `setOn`: a truthy value turns the device on, anything else turns it off. */
  function SetOn(v: CharacteristicValue): (r: DeviceCommand)
    ensures r == TurnOn <==> !Falsy(v)
    ensures r == TurnOff <==> Falsy(v)
  {
    if Truthy(v) then TurnOn else TurnOff
  }

  /** The power state the device reports once it has carried out a command. */
  function Reported(c: DeviceCommand): (r: EventValue)
    ensures r == Text(PowerOn) <==> c == TurnOn
  {
    match c
    case TurnOn => Text(PowerOn)
    case TurnOff => Text("off")
  }

  /** Round trip: setting On to `v`, then receiving the device's
      confirming `update:powerState` event, leaves On showing `v`'s truth
      value, on either route the power handler takes (when the debouncer
      lets the event through). */
  lemma SetThenConfirmShowsValue(vals: Values, switchId: nat, delay: Delay, v: CharacteristicValue, previous: EventValue, admitted: bool)
    requires !delay.Milliseconds? || admitted
    ensures var r := HandlePowerEvent(vals, switchId, delay, Change(previous, Reported(SetOn(v))), admitted);
      CharRef(switchId, On) in r && r[CharRef(switchId, On)] == Flag(Truthy(v))
  {
    TruthyIsNotFalsy(v);
  }
}
