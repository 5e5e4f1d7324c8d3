/** The persisted device context and the step of the constructor that
    extends its `generic_sensors` list from the two configured sensor lists. */
module Topology {
  import opened Wrappers

  /** One tracked property and the values that get a sensor each. */
  datatype Group = Group(property: string, values: seq<string>)

  /** The configured power-state debounce delay, by its JavaScript type:
      a number (`typeof delay === "number"`) or anything else, absent included. */
  datatype Delay = Milliseconds(ms: int) | NotANumber

  /** `accessory.context.device`. Absent lists are `None`. */
  datatype Device = Device(
    name: string,
    host: string,
    credentials: string,
    delay: Delay,
    deviceStateSensors: Option<seq<string>>,
    appSensors: Option<seq<string>>,
    genericSensors: Option<seq<Group>>)

  const DeviceStateProperty: string := "deviceState"
  const AppProperty: string := "app"

  /** `list?.length > 0`: present and non-empty. */
  predicate Configured(list: Option<seq<string>>) {
    list.Some? && |list.value| > 0
  }

  /** The `generic_sensors` list before this run, `[]` when absent. */
  function Prior(d: Device): seq<Group> {
    d.genericSensors.GetOr([])
  }

  /** The groups a run pushes onto `generic_sensors`. */
  function Pushed(d: Device): seq<Group> {
    (if Configured(d.deviceStateSensors) then [Group(DeviceStateProperty, d.deviceStateSensors.value)] else [])
    + (if Configured(d.appSensors) then [Group(AppProperty, d.appSensors.value)] else [])
  }

  /** The context after the topology step: only `generic_sensors` changes,
      the earlier groups stay in place and in order, and the two configured
      groups follow, each only when its list is non-empty, device state first. */
  function WithGenericSensors(d: Device): (r: Device)
    ensures r.(genericSensors := d.genericSensors) == d
    ensures r.genericSensors.Some?
    ensures Prior(d) <= r.genericSensors.value
    ensures var added := r.genericSensors.value[|Prior(d)|..];
      && |added| == (if Configured(d.deviceStateSensors) then 1 else 0) + (if Configured(d.appSensors) then 1 else 0)
      && (Configured(d.deviceStateSensors) <==> Group(DeviceStateProperty, d.deviceStateSensors.GetOr([])) in added)
      && (Configured(d.appSensors) <==> Group(AppProperty, d.appSensors.GetOr([])) in added)
      && (Configured(d.deviceStateSensors) ==> added[0].property == DeviceStateProperty)
      && (forall i :: 0 <= i < |added| ==> |added[i].values| > 0)
  {
    var groups := Prior(d) + Pushed(d);
    assert groups[|Prior(d)|..] == Pushed(d);
    d.(genericSensors := Some(groups))
  }

  /** Every (property, value) pair the groups describe. */
  ghost function Pairs(groups: seq<Group>): set<(string, string)> {
    set i, v | 0 <= i < |groups| && v in groups[i].values :: (groups[i].property, v)
  }

  /** Building the topology from an already-built context pushes the same
      groups a second time: the list grows on every run, but the set of
      (property, value) pairs stays the same. */
  lemma ReloadRepeatsPushedGroups(d: Device)
    ensures var once := WithGenericSensors(d).genericSensors.value;
      && WithGenericSensors(WithGenericSensors(d)).genericSensors.value == once + Pushed(d)
      && Pairs(once + Pushed(d)) == Pairs(once)
  {
    var once := WithGenericSensors(d).genericSensors.value;
    var twice := once + Pushed(d);
    assert once == Prior(d) + Pushed(d);
    forall p | p in Pairs(twice)
      ensures p in Pairs(once)
    {
      var i, v :| 0 <= i < |twice| && v in twice[i].values && p == (twice[i].property, v);
      if i >= |once| {
        assert twice[i] == once[i - |Pushed(d)|];
      }
    }
    forall p | p in Pairs(once)
      ensures p in Pairs(twice)
    {
      var i, v :| 0 <= i < |once| && v in once[i].values && p == (once[i].property, v);
      assert twice[i] == once[i];
    }
  }
}
