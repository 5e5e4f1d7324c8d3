/** The event side of `AppleTVAccessory`: the power-state handler (with its
    choice between the debounced and the direct updater), the per-property
    sensor handlers, and delivery of one device event to every handler
    subscribed to its name. Every handler is a transition on the map of
    characteristic values. */
module Events {
  import opened Wrappers
  import opened Registry
  import opened Topology
  import opened Reconciler

  /** A value a device event carries. */
  datatype EventValue = Text(text: string) | Number(number: int) | Null

  /** What a subscription receives: a change `{oldValue, newValue}`, or an
      `Error` object. */
  datatype Event = Change(oldValue: EventValue, newValue: EventValue) | Error(name: string, message: string)

  type Values = map<CharRef, Value>

  /** The device's "on" power state, `NodePyATVPowerState.on`. */
  const PowerOn: string := "on"

  // ---------------------------------------------------------------------
  // Power state

  /** `updatePowerState`: the switch is on exactly when the reported state
      is the "on" sentinel; no other characteristic changes. */
  function UpdatePowerState(vals: Values, switchId: nat, powerState: EventValue): (r: Values)
    ensures CharRef(switchId, On) in r
    ensures r[CharRef(switchId, On)] == Flag(true) <==> powerState == Text(PowerOn)
    ensures r[CharRef(switchId, On)] == Flag(false) <==> powerState != Text(PowerOn)
    ensures forall c :: c in vals && c != CharRef(switchId, On) ==> c in r && r[c] == vals[c]
    ensures r.Keys == vals.Keys + {CharRef(switchId, On)}
  {
    vals[CharRef(switchId, On) := Flag(powerState == Text(PowerOn))]
  }

  /** Where a successful power event goes. */
  datatype PowerRoute = ThroughDebounce | Direct

  /** `typeof debouncePowerStateDelay === "number"` selects the debounced updater. */
  function RouteOf(delay: Delay): (r: PowerRoute)
    ensures r == ThroughDebounce <==> delay.Milliseconds?
  {
    if delay.Milliseconds? then ThroughDebounce else Direct
  }

  /** Whether a delivered event reaches `updatePowerState`. `admitted` is
      the debouncer's decision, made from its timers (not modelled): with
      `atBegin` set, a call either applies at once (first of a burst) or is
      dropped. The direct route applies every successful event. */
  predicate Applies(delay: Delay, ev: Event, admitted: bool) {
    ev.Change? && (RouteOf(delay) == Direct || admitted)
  }

  /** The `update:powerState` handler. */
  function HandlePowerEvent(vals: Values, switchId: nat, delay: Delay, ev: Event, admitted: bool): (r: Values)
    ensures ev.Error? ==> r == vals
    ensures Applies(delay, ev, admitted) ==> r == UpdatePowerState(vals, switchId, ev.newValue)
    ensures !Applies(delay, ev, admitted) ==> r == vals
  {
    match ev
    case Error(_, _) => vals
    case Change(_, newValue) =>
      match RouteOf(delay)
      case ThroughDebounce => if admitted then UpdatePowerState(vals, switchId, newValue) else vals
      case Direct => UpdatePowerState(vals, switchId, newValue)
  }

  /** One power event as delivered, with the debouncer's decision for it. */
  datatype Delivery = Delivery(event: Event, admitted: bool)

  /** The arguments `updatePowerState` receives, in order, for a stream of deliveries. */
  function Applied(delay: Delay, ds: seq<Delivery>): seq<EventValue>
  {
    if |ds| == 0 then []
    else (if Applies(delay, ds[0].event, ds[0].admitted) then [ds[0].event.newValue] else [])
         + Applied(delay, ds[1..])
  }

  /** The new values of the successful events, in delivery order. */
  function NewValues(ds: seq<Delivery>): seq<EventValue>
  {
    if |ds| == 0 then []
    else (if ds[0].event.Change? then [ds[0].event.newValue] else []) + NewValues(ds[1..])
  }

  /** The power handler run over a stream of deliveries. */
  function RunPower(vals: Values, switchId: nat, delay: Delay, ds: seq<Delivery>): Values
    decreases |ds|
  {
    if |ds| == 0 then vals
    else RunPower(HandlePowerEvent(vals, switchId, delay, ds[0].event, ds[0].admitted), switchId, delay, ds[1..])
  }

  /** Without a numeric delay there is no debouncing: every successful
      event is applied, exactly once, in delivery order, whatever the
      debouncer would have decided. */
  lemma {:induction false} BypassAppliesEveryEvent(delay: Delay, ds: seq<Delivery>)
    requires !delay.Milliseconds?
    ensures Applied(delay, ds) == NewValues(ds)
  {
    if |ds| > 0 {
      BypassAppliesEveryEvent(delay, ds[1..]);
    }
  }

  /** With a numeric delay, exactly the admitted successful events are
      applied, in order; everything else is dropped. */
  lemma {:induction false} DebounceAppliesAdmitted(delay: Delay, ds: seq<Delivery>)
    requires delay.Milliseconds?
    ensures Applied(delay, ds) == NewValues(Admitted(ds))
  {
    if |ds| > 0 {
      DebounceAppliesAdmitted(delay, ds[1..]);
      var rest := Admitted(ds[1..]);
      if ds[0].admitted {
        assert Admitted(ds) == [ds[0]] + rest;
        assert ([ds[0]] + rest)[1..] == rest;
      } else {
        assert Admitted(ds) == rest;
      }
    }
  }

  /** The deliveries the debouncer let through, in order. */
  function Admitted(ds: seq<Delivery>): seq<Delivery> {
    if |ds| == 0 then []
    else (if ds[0].admitted then [ds[0]] else []) + Admitted(ds[1..])
  }

  /** A later power update overrides an earlier one. */
  lemma UpdateOverrides(vals: Values, switchId: nat, x: EventValue, y: EventValue)
    ensures UpdatePowerState(UpdatePowerState(vals, switchId, x), switchId, y) == UpdatePowerState(vals, switchId, y)
  {
  }

  /** `updatePowerState` applied to each value in turn. */
  function ApplyAll(vals: Values, switchId: nat, states: seq<EventValue>): Values
    decreases |states|
  {
    if |states| == 0 then vals else ApplyAll(UpdatePowerState(vals, switchId, states[0]), switchId, states[1..])
  }

  lemma {:induction false} RunPowerAppliesAll(vals: Values, switchId: nat, delay: Delay, ds: seq<Delivery>)
    ensures RunPower(vals, switchId, delay, ds) == ApplyAll(vals, switchId, Applied(delay, ds))
    decreases |ds|
  {
    if |ds| > 0 {
      var d := ds[0];
      var next := HandlePowerEvent(vals, switchId, delay, d.event, d.admitted);
      RunPowerAppliesAll(next, switchId, delay, ds[1..]);
      var rest := Applied(delay, ds[1..]);
      if Applies(delay, d.event, d.admitted) {
        var x := d.event.newValue;
        assert next == UpdatePowerState(vals, switchId, x);
        assert Applied(delay, ds) == [x] + rest;
        assert ([x] + rest)[1..] == rest;
        assert ApplyAll(vals, switchId, [x] + rest) == ApplyAll(next, switchId, rest);
      } else {
        assert next == vals;
        assert Applied(delay, ds) == rest;
      }
    }
  }

  lemma {:induction false} ApplyAllShowsLast(vals: Values, switchId: nat, states: seq<EventValue>)
    ensures |states| == 0 ==> ApplyAll(vals, switchId, states) == vals
    ensures |states| > 0 ==> ApplyAll(vals, switchId, states) == UpdatePowerState(vals, switchId, states[|states| - 1])
    decreases |states|
  {
    if |states| > 1 {
      var next := UpdatePowerState(vals, switchId, states[0]);
      ApplyAllShowsLast(next, switchId, states[1..]);
      UpdateOverrides(vals, switchId, states[0], states[|states| - 1]);
    }
  }

  /** After a stream of power events the switch shows the last applied
      state, and nothing else has changed; with nothing applied, nothing
      changes at all (failures in particular). */
  lemma PowerShowsLastApplied(vals: Values, switchId: nat, delay: Delay, ds: seq<Delivery>)
    ensures var a := Applied(delay, ds);
      && (|a| == 0 ==> RunPower(vals, switchId, delay, ds) == vals)
      && (|a| > 0 ==> RunPower(vals, switchId, delay, ds) == UpdatePowerState(vals, switchId, a[|a| - 1]))
  {
    RunPowerAppliesAll(vals, switchId, delay, ds);
    ApplyAllShowsLast(vals, switchId, Applied(delay, ds));
  }

  // ---------------------------------------------------------------------
  // Generic sensors

  /** Whether the sensor service `id` of a property is the one for the
      reported value (`event.newValue === value`; configured values are strings). */
  predicate Detects(group: map<string, nat>, newValue: EventValue, id: nat) {
    newValue.Text? && newValue.text in group && group[newValue.text] == id
  }

  /** The MotionDetected characteristics of a property's sensors. */
  function Detectors(group: map<string, nat>): set<CharRef> {
    set v | v in group :: CharRef(group[v], MotionDetected)
  }

  /** One service per value. */
  ghost predicate Distinct(group: map<string, nat>) {
    forall v1, v2 :: v1 in group && v2 in group && v1 != v2 ==> group[v1] != group[v2]
  }

  /** The loop of an `update:${property}` handler: every sensor of the
      property is rewritten, detected exactly when its value is the
      reported one; nothing else changes. */
  function UpdateSensors(vals: Values, group: map<string, nat>, newValue: EventValue): (r: Values)
    ensures forall v :: v in group ==> CharRef(group[v], MotionDetected) in r
    ensures Distinct(group) ==>
      forall v :: v in group ==> r[CharRef(group[v], MotionDetected)] == Flag(newValue == Text(v))
    ensures forall c :: c in vals && c !in Detectors(group) ==> c in r && r[c] == vals[c]
    ensures r.Keys == vals.Keys + Detectors(group)
  {
    var touched := Detectors(group);
    map c | c in vals.Keys + touched ::
      if c in touched then Flag(Detects(group, newValue, c.service)) else vals[c]
  }

  /** An `update:${property}` handler, reading `genericServices[property]`. */
  function HandleSensorEvent(vals: Values, group: map<string, nat>, ev: Event): (r: Values)
    ensures ev.Error? ==> r == vals
    ensures ev.Change? ==> r == UpdateSensors(vals, group, ev.newValue)
  {
    match ev
    case Error(_, _) => vals
    case Change(_, newValue) => UpdateSensors(vals, group, newValue)
  }

  /** Rewriting a property's sensors twice with the same event is rewriting them once. */
  lemma SensorEventIdempotent(vals: Values, group: map<string, nat>, ev: Event)
    ensures HandleSensorEvent(HandleSensorEvent(vals, group, ev), group, ev) == HandleSensorEvent(vals, group, ev)
  {
  }

  /** Exclusivity: after a successful event at most one sensor of the
      property is detected, and one is exactly when the reported value is
      one of the configured values, whatever the sensors showed before. */
  lemma AtMostOneDetected(vals: Values, group: map<string, nat>, ev: Event)
    requires Distinct(group) && ev.Change?
    ensures var r := HandleSensorEvent(vals, group, ev);
      && (forall v1, v2 ::
            (v1 in group && v2 in group
             && r[CharRef(group[v1], MotionDetected)] == Flag(true)
             && r[CharRef(group[v2], MotionDetected)] == Flag(true)) ==> v1 == v2)
      && ((exists v :: v in group && r[CharRef(group[v], MotionDetected)] == Flag(true))
            <==> ev.newValue.Text? && ev.newValue.text in group)
  {
    var r := HandleSensorEvent(vals, group, ev);
    if ev.newValue.Text? && ev.newValue.text in group {
      var t := ev.newValue.text;
      assert r[CharRef(group[t], MotionDetected)] == Flag(true);
    }
  }

  // ---------------------------------------------------------------------
  // Delivery to the subscriptions of a constructed accessory

  /** Run one subscription's handler if it listens to `channel`. A sensor
      handler for a property without services iterates nothing. */
  function DeliverOne(b: Built, vals: Values, sub: Subscription, channel: string, ev: Event, admitted: bool): Values {
    if sub.channel != channel then vals
    else match sub.handler
      case PowerHandler => HandlePowerEvent(vals, b.switchId, b.device.delay, ev, admitted)
      case SensorHandler(p) => HandleSensorEvent(vals, if p in b.sensors then b.sensors[p] else map[], ev)
  }

  /** Run the handlers in subscription order. */
  function Deliver(b: Built, vals: Values, subs: seq<Subscription>, channel: string, ev: Event, admitted: bool): Values
    decreases |subs|
  {
    if |subs| == 0 then vals
    else Deliver(b, DeliverOne(b, vals, subs[0], channel, ev, admitted), subs[1..], channel, ev, admitted)
  }

  /** The device emitting `channel` with `ev` on a constructed accessory. */
  function Dispatch(b: Built, vals: Values, channel: string, ev: Event, admitted: bool): Values {
    Deliver(b, vals, b.subs, channel, ev, admitted)
  }

  /** The emitter runs the handlers one after another, in subscription
      order: delivering to two lists of subscriptions in turn is delivering
      to their concatenation. */
  lemma {:induction false} DeliverInOrder(b: Built, vals: Values, s1: seq<Subscription>, s2: seq<Subscription>,
                                          channel: string, ev: Event, admitted: bool)
    ensures Deliver(b, vals, s1 + s2, channel, ev, admitted)
         == Deliver(b, Deliver(b, vals, s1, channel, ev, admitted), s2, channel, ev, admitted)
    decreases |s1|
  {
    if |s1| == 0 {
      assert s1 + s2 == s2;
    } else {
      assert (s1 + s2)[0] == s1[0] && (s1 + s2)[1..] == s1[1..] + s2;
      DeliverInOrder(b, DeliverOne(b, vals, s1[0], channel, ev, admitted), s1[1..], s2, channel, ev, admitted);
    }
  }

  /** The subscription made last runs after every earlier one. */
  lemma DeliverLast(b: Built, vals: Values, subs: seq<Subscription>, sub: Subscription,
                    channel: string, ev: Event, admitted: bool)
    ensures Deliver(b, vals, subs + [sub], channel, ev, admitted)
         == DeliverOne(b, Deliver(b, vals, subs, channel, ev, admitted), sub, channel, ev, admitted)
  {
    DeliverInOrder(b, vals, subs, [sub], channel, ev, admitted);
    assert [sub][1..] == [];
  }

  /** An `Error` changes no characteristic, whichever handlers receive it. */
  lemma {:induction false} ErrorChangesNothing(b: Built, vals: Values, subs: seq<Subscription>, channel: string, e: Event, admitted: bool)
    requires e.Error?
    ensures Deliver(b, vals, subs, channel, e, admitted) == vals
  {
    if |subs| > 0 {
      ErrorChangesNothing(b, vals, subs[1..], channel, e, admitted);
    }
  }

  lemma ChannelInjective(p: string, q: string)
    requires Channel(p) == Channel(q)
    ensures p == q
  {
    assert p == Channel(p)[7..];
    assert q == Channel(q)[7..];
  }

  /** Every subscription to `Channel(p)` is the sensor handler of `p`. */
  ghost predicate OnlySensorsOf(subs: seq<Subscription>, p: string) {
    forall i :: 0 <= i < |subs| && subs[i].channel == Channel(p) ==> subs[i].handler == SensorHandler(p)
  }

  lemma {:induction false} DeliverAbsorbs(b: Built, vals: Values, subs: seq<Subscription>, p: string, ev: Event, admitted: bool)
    requires p in b.sensors && OnlySensorsOf(subs, p)
    requires vals == HandleSensorEvent(vals, b.sensors[p], ev)
    ensures Deliver(b, vals, subs, Channel(p), ev, admitted) == vals
  {
    if |subs| > 0 {
      assert OnlySensorsOf(subs[1..], p) by {
        forall i | 0 <= i < |subs[1..]| && subs[1..][i].channel == Channel(p)
          ensures subs[1..][i].handler == SensorHandler(p)
        {
          assert subs[1..][i] == subs[i + 1];
        }
      }
      DeliverAbsorbs(b, vals, subs[1..], p, ev, admitted);
    }
  }

  lemma {:induction false} DeliverToSensors(b: Built, vals: Values, subs: seq<Subscription>, p: string, ev: Event, admitted: bool)
    requires p in b.sensors && OnlySensorsOf(subs, p)
    requires exists i :: 0 <= i < |subs| && subs[i].channel == Channel(p)
    ensures Deliver(b, vals, subs, Channel(p), ev, admitted) == HandleSensorEvent(vals, b.sensors[p], ev)
  {
    var h := HandleSensorEvent(vals, b.sensors[p], ev);
    assert OnlySensorsOf(subs[1..], p) by {
      forall i | 0 <= i < |subs[1..]| && subs[1..][i].channel == Channel(p)
        ensures subs[1..][i].handler == SensorHandler(p)
      {
        assert subs[1..][i] == subs[i + 1];
      }
    }
    if subs[0].channel == Channel(p) {
      SensorEventIdempotent(vals, b.sensors[p], ev);
      DeliverAbsorbs(b, h, subs[1..], p, ev, admitted);
    } else {
      var i :| 0 <= i < |subs| && subs[i].channel == Channel(p);
      assert subs[1..][i - 1] == subs[i];
      DeliverToSensors(b, vals, subs[1..], p, ev, admitted);
    }
  }

  /** On a constructed accessory, `update:${property}` for a tracked
      property other than `powerState` runs that property's sensor update
      exactly as one handler would, even when the property's group occurs
      several times in the topology (each occurrence subscribed once more). */
  lemma SensorChannelRunsSensorHandler(b: Built, vals: Values, p: string, ev: Event, admitted: bool)
    requires Routed(b) && p in b.sensors && p != "powerState"
    ensures Dispatch(b, vals, Channel(p), ev, admitted) == HandleSensorEvent(vals, b.sensors[p], ev)
  {
    var groups := TopologyOf(b);
    forall i | 0 <= i < |b.subs| && b.subs[i].channel == Channel(p)
      ensures b.subs[i].handler == SensorHandler(p)
    {
      if i == 0 {
        assert Channel("powerState") == PowerChannel;
        ChannelInjective(p, "powerState");
      } else {
        assert b.subs[i] == SensorSubs(groups)[i - 1];
        ChannelInjective(p, groups[i - 1].property);
      }
    }
    var g :| g in groups && g.property == p;
    var j :| 0 <= j < |groups| && groups[j] == g;
    assert b.subs[j + 1] == SensorSubs(groups)[j];
    DeliverToSensors(b, vals, b.subs, p, ev, admitted);
  }

  /** On a constructed accessory without a generic property named
      `powerState`, `update:powerState` runs the power handler alone. */
  lemma PowerChannelRunsPowerHandler(b: Built, vals: Values, ev: Event, admitted: bool)
    requires Routed(b) && "powerState" !in b.sensors
    ensures Dispatch(b, vals, PowerChannel, ev, admitted) == HandlePowerEvent(vals, b.switchId, b.device.delay, ev, admitted)
  {
    var groups := TopologyOf(b);
    var subs := SensorSubs(groups);
    assert b.subs == [Subscription(PowerChannel, PowerHandler)] + subs;
    assert b.subs[1..] == subs;
    forall i | 0 <= i < |subs|
      ensures subs[i].channel != PowerChannel
    {
      assert groups[i] in groups;
      if subs[i].channel == PowerChannel {
        assert Channel("powerState") == PowerChannel;
        ChannelInjective(groups[i].property, "powerState");
      }
    }
    DeliverElsewhere(b, HandlePowerEvent(vals, b.switchId, b.device.delay, ev, admitted), subs, PowerChannel, ev, admitted);
  }

  lemma {:induction false} DeliverElsewhere(b: Built, vals: Values, subs: seq<Subscription>, channel: string, ev: Event, admitted: bool)
    requires forall i :: 0 <= i < |subs| ==> subs[i].channel != channel
    ensures Deliver(b, vals, subs, channel, ev, admitted) == vals
  {
    if |subs| > 0 {
      DeliverElsewhere(b, vals, subs[1..], channel, ev, admitted);
    }
  }
}
