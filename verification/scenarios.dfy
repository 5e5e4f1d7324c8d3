/** Concrete instances of the documented behaviour, for a device whose
    context lists two device-state sensors and no app sensors. */
module Scenarios {
  import opened Wrappers
  import opened Registry
  import opened Topology
  import opened Reconciler
  import opened Events
  import opened Commands

  function PlayingPaused(): Device {
    Device("Living Room", "10.0.0.2", "secret", NotANumber, Some(["playing", "paused"]), Some([]), None)
  }

  /** A first run on a fresh context yields exactly one group, the device
      state with both values; the empty app list adds nothing. */
  lemma PlayingPausedTopology()
    ensures WithGenericSensors(PlayingPaused()).genericSensors == Some([Group(DeviceStateProperty, ["playing", "paused"])])
  {
    var d := PlayingPaused();
    assert Configured(d.deviceStateSensors) && !Configured(d.appSensors);
    assert Pushed(d) == [Group(DeviceStateProperty, ["playing", "paused"])];
  }

  /** An accessory restored from the cache with only its information
      service, named "Apple TV". */
  function InfoOnly(): Accessory {
    Accessory([Service(0, AccessoryInformation, Some("Apple TV"), None)], map[], 1)
  }

  /** Key `k` leads to a service the run created, with this type, display
      name, subtype and Name. */
  ghost predicate CreatedAs(r: Built, k: Key, kind: Kind, displayName: Option<string>, subtype: Option<string>, name: string) {
    && Find(r.acc.services, k).Some?
    && var s := r.acc.services[Find(r.acc.services, k).value];
       && s.kind == kind && s.displayName == displayName && s.subtype == subtype
       && CharRef(s.id, Name) in r.acc.values && r.acc.values[CharRef(s.id, Name)] == Label(name)
       && s.id in Wanted(r.created)
  }

  /** The first construction for that device on that accessory ends with
      four services and removes nothing. The information service is the
      original one; the other three were created: a switch named "Power
      State", and motion sensors `deviceState.playing` and
      `deviceState.paused` with subtypes and Names "playing" and "paused". */
  lemma FourServices(acc: Accessory, d: Device, atvId: Option<string>)
    requires acc == InfoOnly() && d == PlayingPaused()
    ensures Construct(acc, d, atvId).Success?
    ensures var r := Construct(acc, d, atvId).value;
      && |r.acc.services| == 4
      && r.removed == []
      && Find(r.acc.services, ByKind(AccessoryInformation)).Some?
      && r.acc.services[Find(r.acc.services, ByKind(AccessoryInformation)).value] == acc.services[0]
      && Wanted(r.created) == Ids(r.acc.services) - {acc.services[0].id}
      && CreatedAs(r, ByKind(Switch), Switch, None, None, PowerStateName)
      && CreatedAs(r, ByName(SensorName(DeviceStateProperty, "playing")), MotionSensor,
                   Some(SensorName(DeviceStateProperty, "playing")), Some("playing"), "playing")
      && CreatedAs(r, ByName(SensorName(DeviceStateProperty, "paused")), MotionSensor,
                   Some(SensorName(DeviceStateProperty, "paused")), Some("paused"), "paused")
  {
    assert Find(acc.services, ByKind(AccessoryInformation)) == Some(0);
    var r := Construct(acc, d, atvId).value;
    PlayingPausedTopology();
    CountFromContract(acc, r);
    InfoIsOriginal(acc, r);
    CreatedAllButInfo(acc, r);
    KindsFromContract(acc, r);
  }

  /** Every created service is in the result, and none is the information service. */
  lemma CreatedAllButInfo(acc: Accessory, r: Built)
    requires acc == InfoOnly()
    requires Pruned(acc, r) && GotOrCreated(acc, r) && Tracked(r) && CreatedAsCoded(r)
    ensures Wanted(r.created) == Ids(r.acc.services) - {acc.services[0].id}
  {
    InfoIsOriginal(acc, r);
    assert acc.services[0] in r.acc.services;
    CreatedAreOthers(r.acc.services, r.acc.values, r.created, r.wanted, acc.services[0]);
    OthersAreCreated(r.acc.services, acc.services, r.created);
  }

  lemma CreatedAreOthers(svcs: seq<Service>, vals: map<CharRef, Value>, created: seq<Lookup>, wanted: seq<Lookup>, info: Service)
    requires UniqueIds(svcs) && info in svcs && info.kind == AccessoryInformation
    requires Consistent(svcs, wanted) && forall c :: c in created ==> c in wanted
    requires forall c :: c in created ==>
      Find(svcs, c.key).Some? && AsCreated(svcs[Find(svcs, c.key).value], vals, c.key)
    ensures Wanted(created) <= Ids(svcs) - {info.id}
  {
    forall c | c in created
      ensures c.id in Ids(svcs) && c.id != info.id
    {
      assert IdOf(svcs, c.key) == Some(c.id);
      var t := svcs[Find(svcs, c.key).value];
      assert t.kind != AccessoryInformation;
      DistinctIds(svcs, t, info);
    }
  }

  lemma OthersAreCreated(svcs: seq<Service>, orig: seq<Service>, created: seq<Lookup>)
    requires |orig| == 1
    requires forall s :: s in svcs ==> s in orig || s.id in Wanted(created)
    ensures Ids(svcs) - {orig[0].id} <= Wanted(created)
  {
    forall id | id in Ids(svcs) - {orig[0].id}
      ensures id in Wanted(created)
    {
      var s :| s in svcs && s.id == id;
    }
  }

  /** The switch and both sensors were created as the constructor creates them. */
  lemma KindsFromContract(acc: Accessory, r: Built)
    requires acc == InfoOnly()
    requires TopologyOf(r) == [Group(DeviceStateProperty, ["playing", "paused"])]
    requires Pruned(acc, r) && GotOrCreated(acc, r) && Tracked(r) && CreatedAsCoded(r)
    ensures CreatedAs(r, ByKind(Switch), Switch, None, None, PowerStateName)
    ensures CreatedAs(r, ByName(SensorName(DeviceStateProperty, "playing")), MotionSensor,
                      Some(SensorName(DeviceStateProperty, "playing")), Some("playing"), "playing")
    ensures CreatedAs(r, ByName(SensorName(DeviceStateProperty, "paused")), MotionSensor,
                      Some(SensorName(DeviceStateProperty, "paused")), Some("paused"), "paused")
  {
    PlayingPausedKeys();
    var sw := Led(r, ByKind(Switch));
    assert sw !in acc.services;
    var c := CreatedShape(acc, r, sw);
    NoDots();
    SensorCreated(acc, r, "playing");
    SensorCreated(acc, r, "paused");
  }

  /** The sensor for a device state without a dot was created with that
      state as subtype and Name. */
  lemma SensorCreated(acc: Accessory, r: Built, v: string)
    requires acc == InfoOnly()
    requires Pruned(acc, r) && GotOrCreated(acc, r) && Tracked(r) && CreatedAsCoded(r)
    requires ByName(SensorName(DeviceStateProperty, v)) in LookedUp(r.wanted)
    requires forall i :: 0 <= i < |v| ==> v[i] != '.'
    ensures CreatedAs(r, ByName(SensorName(DeviceStateProperty, v)), MotionSensor,
                      Some(SensorName(DeviceStateProperty, v)), Some(v), v)
  {
    var n := SensorName(DeviceStateProperty, v);
    var s := Led(r, ByName(n));
    assert |n| != |"Apple TV"|;
    assert s !in acc.services;
    var c := CreatedShape(acc, r, s);
    assert s.kind == MotionSensor && s.subtype.Some? && NamedFor(n, s.subtype.value);
    NoDots();
    ValueAfterOnlyDot(DeviceStateProperty, v, s.subtype.value);
  }

  /** Neither the property nor the two device states contain a dot. */
  lemma NoDots()
    ensures forall i :: 0 <= i < |DeviceStateProperty| ==> DeviceStateProperty[i] != '.'
    ensures forall i :: 0 <= i < |"playing"| ==> "playing"[i] != '.'
    ensures forall i :: 0 <= i < |"paused"| ==> "paused"[i] != '.'
  {
  }

  /** A remaining service that is not an original one was created, and is
      what the constructor creates for the key it was created under. */
  lemma CreatedShape(acc: Accessory, r: Built, s: Service) returns (c: Lookup)
    requires Pruned(acc, r) && GotOrCreated(acc, r) && Tracked(r) && CreatedAsCoded(r)
    requires s in r.acc.services && s !in acc.services
    ensures c in r.created && c.id == s.id && AsCreated(s, r.acc.values, c.key)
  {
    assert s.id in Wanted(r.created);
    c :| c in r.created && c.id == s.id;
    assert c in r.wanted;
    assert IdOf(r.acc.services, c.key) == Some(c.id);
    var t := r.acc.services[Find(r.acc.services, c.key).value];
    SameIdSameService(r.acc.services, t, s);
  }

  /** When neither the property nor the value contains a dot, the only
      value a sensor name `${property}.${value}` is named for is that value. */
  lemma ValueAfterOnlyDot(p: string, v: string, w: string)
    requires NamedFor(SensorName(p, v), w)
    requires forall i :: 0 <= i < |p| ==> p[i] != '.'
    requires forall i :: 0 <= i < |v| ==> v[i] != '.'
    ensures w == v
  {
    var n := SensorName(p, v);
    forall i | 0 <= i < |n| && i != |p|
      ensures n[i] != '.'
    {
      if i < |p| {
        assert n[i] == p[i];
      } else {
        assert n[i] == v[i - |p| - 1];
      }
    }
    var k := |n| - |w| - 1;
    assert n[k] == '.' by {
      assert n[k..][0] == ("." + w)[0];
    }
    assert k == |p|;
    assert n[k + 1..] == w;
    assert n[|p| + 1..] == v;
  }

  lemma CountFromContract(acc: Accessory, r: Built)
    requires acc == InfoOnly()
    requires TopologyOf(r) == [Group(DeviceStateProperty, ["playing", "paused"])]
    requires Pruned(acc, r) && GotOrCreated(acc, r) && Tracked(r) && CreatedAsCoded(r)
    ensures |r.acc.services| == 4 && r.removed == []
  {
    var svcs := r.acc.services;
    PlayingPausedKeys();
    InfoIsOriginal(acc, r);
    SwitchIsCreated(acc, r);
    NothingRemoved(acc, r);
    var sInfo := Led(r, ByKind(AccessoryInformation));
    var sSwitch := Led(r, ByKind(Switch));
    var sPlaying := Led(r, ByName(SensorName(DeviceStateProperty, "playing")));
    var sPaused := Led(r, ByName(SensorName(DeviceStateProperty, "paused")));
    FourDistinct(svcs, sInfo, sSwitch, sPlaying, sPaused);
    OnlyLookedUp(svcs, r.wanted, ByKind(AccessoryInformation), ByKind(Switch),
                 ByName(SensorName(DeviceStateProperty, "playing")), ByName(SensorName(DeviceStateProperty, "paused")),
                 sInfo, sSwitch, sPlaying, sPaused);
    CountIds(svcs);
  }

  /** Every remaining service is one of those four keys lead to. */
  lemma OnlyLookedUp(svcs: seq<Service>, wanted: seq<Lookup>, kA: Key, kB: Key, kC: Key, kD: Key,
                     sA: Service, sB: Service, sC: Service, sD: Service)
    requires Consistent(svcs, wanted)
    requires forall s :: s in svcs ==> s.id in Wanted(wanted)
    requires LookedUp(wanted) == {kA, kB, kC, kD}
    requires sA in svcs && IdOf(svcs, kA) == Some(sA.id)
    requires sB in svcs && IdOf(svcs, kB) == Some(sB.id)
    requires sC in svcs && IdOf(svcs, kC) == Some(sC.id)
    requires sD in svcs && IdOf(svcs, kD) == Some(sD.id)
    ensures Ids(svcs) == {sA.id, sB.id, sC.id, sD.id}
  {
    var four := {sA.id, sB.id, sC.id, sD.id};
    forall s | s in svcs
      ensures s.id in four
    {
      var l :| l in wanted && l.id == s.id;
      KeyOfFour(wanted, l, kA, kB, kC, kD);
      assert IdOf(svcs, l.key) == Some(l.id);
    }
    assert Ids(svcs) <= four;
    assert sA.id in Ids(svcs) && sB.id in Ids(svcs) && sC.id in Ids(svcs) && sD.id in Ids(svcs);
  }

  lemma KeyOfFour(wanted: seq<Lookup>, l: Lookup, kA: Key, kB: Key, kC: Key, kD: Key)
    requires l in wanted && LookedUp(wanted) == {kA, kB, kC, kD}
    ensures l.key == kA || l.key == kB || l.key == kC || l.key == kD
  {
    assert l.key in LookedUp(wanted);
  }

  /** The information service found by type is the original one, which keeps its name. */
  lemma InfoIsOriginal(acc: Accessory, r: Built)
    requires acc == InfoOnly()
    requires Pruned(acc, r) && GotOrCreated(acc, r) && Tracked(r)
    ensures Find(r.acc.services, ByKind(AccessoryInformation)).Some?
    ensures r.acc.services[Find(r.acc.services, ByKind(AccessoryInformation)).value] == acc.services[0]
  {
    var svcs := r.acc.services;
    assert Find(acc.services, ByKind(AccessoryInformation)) == Some(0);
    assert r.wanted[0] in r.wanted;
    var sInfo := svcs[Find(svcs, ByKind(AccessoryInformation)).value];
    assert acc.services[0] in svcs;
    SameIdSameService(svcs, sInfo, acc.services[0]);
  }

  /** The registry had no switch, so the switch was created, without a display name. */
  lemma SwitchIsCreated(acc: Accessory, r: Built)
    requires acc == InfoOnly()
    requires Pruned(acc, r) && GotOrCreated(acc, r) && Tracked(r) && CreatedAsCoded(r)
    ensures Find(r.acc.services, ByKind(Switch)).Some?
    ensures r.acc.services[Find(r.acc.services, ByKind(Switch)).value].displayName.None?
  {
    var svcs := r.acc.services;
    assert r.wanted[1] in r.wanted;
    var sSwitch := svcs[Find(svcs, ByKind(Switch)).value];
    assert sSwitch !in acc.services;
    var c :| c in r.created && c.id == sSwitch.id;
    var t := svcs[Find(svcs, c.key).value];
    assert t.id == c.id;
    SameIdSameService(svcs, t, sSwitch);
  }

  lemma FourDistinct(svcs: seq<Service>, sInfo: Service, sSwitch: Service, sPlaying: Service, sPaused: Service)
    requires UniqueIds(svcs) && sInfo in svcs && sSwitch in svcs && sPlaying in svcs && sPaused in svcs
    requires sInfo == Service(0, AccessoryInformation, Some("Apple TV"), None)
    requires sSwitch.kind == Switch && sSwitch.displayName.None?
    requires sPlaying.displayName == Some(SensorName(DeviceStateProperty, "playing"))
    requires sPaused.displayName == Some(SensorName(DeviceStateProperty, "paused"))
    ensures |{sInfo.id, sSwitch.id, sPlaying.id, sPaused.id}| == 4
  {
    assert SensorName(DeviceStateProperty, "playing")[13] != SensorName(DeviceStateProperty, "paused")[13];
    DistinctIds(svcs, sInfo, sSwitch);
    DistinctIds(svcs, sInfo, sPlaying);
    DistinctIds(svcs, sInfo, sPaused);
    DistinctIds(svcs, sSwitch, sPlaying);
    DistinctIds(svcs, sSwitch, sPaused);
    DistinctIds(svcs, sPlaying, sPaused);
  }

  /** The only original service is wanted, so nothing is removed. */
  lemma NothingRemoved(acc: Accessory, r: Built)
    requires acc == InfoOnly()
    requires Pruned(acc, r) && Find(r.acc.services, ByKind(AccessoryInformation)).Some?
    requires r.acc.services[Find(r.acc.services, ByKind(AccessoryInformation)).value] == acc.services[0]
    ensures r.removed == []
  {
    EmptyIfNoMember(r.removed);
  }

  /** The service a looked-up key leads to in the result. */
  lemma Led(r: Built, k: Key) returns (s: Service)
    requires Consistent(r.acc.services, r.wanted) && k in LookedUp(r.wanted)
    ensures s in r.acc.services && Matches(s, k) && IdOf(r.acc.services, k) == Some(s.id)
    ensures s == r.acc.services[Find(r.acc.services, k).value]
  {
    var l :| l in r.wanted && l.key == k;
    assert IdOf(r.acc.services, k) == Some(l.id);
    s := r.acc.services[Find(r.acc.services, k).value];
  }

  lemma DistinctIds(svcs: seq<Service>, s: Service, t: Service)
    requires UniqueIds(svcs) && s in svcs && t in svcs && s != t
    ensures s.id != t.id
  {
    if s.id == t.id {
      SameIdSameService(svcs, s, t);
    }
  }

  /** Services with distinct identities are as many as their identities. */
  lemma {:induction false} CountIds(svcs: seq<Service>)
    requires UniqueIds(svcs)
    ensures |Ids(svcs)| == |svcs|
  {
    if |svcs| > 0 {
      CountIds(svcs[1..]);
      assert Ids(svcs) == {svcs[0].id} + Ids(svcs[1..]) by {
        assert svcs == [svcs[0]] + svcs[1..];
      }
      assert svcs[0].id !in Ids(svcs[1..]);
    }
  }

  /** The keys the constructor looks up for the one deviceState group. */
  lemma PlayingPausedKeys()
    ensures RunKeys([Group(DeviceStateProperty, ["playing", "paused"])])
         == {ByKind(AccessoryInformation), ByKind(Switch),
             ByName(SensorName(DeviceStateProperty, "playing")), ByName(SensorName(DeviceStateProperty, "paused"))}
  {
    var groups := [Group(DeviceStateProperty, ["playing", "paused"])];
    assert Pairs(groups) == {(DeviceStateProperty, "playing"), (DeviceStateProperty, "paused")} by {
      assert (DeviceStateProperty, "playing") in Pairs(groups) by { assert "playing" in groups[0].values; }
      assert (DeviceStateProperty, "paused") in Pairs(groups) by { assert "paused" in groups[0].values; }
    }
  }

  /** A "paused" device-state event marks the paused sensor detected and
      the playing sensor not detected, and leaves the switch alone. */
  lemma PausedEvent(vals: Values, switchId: nat)
    requires switchId != 2 && switchId != 3
    ensures var r := HandleSensorEvent(vals, map["playing" := 2, "paused" := 3], Change(Text("playing"), Text("paused")));
      && r[CharRef(3, MotionDetected)] == Flag(true)
      && r[CharRef(2, MotionDetected)] == Flag(false)
      && (CharRef(switchId, On) in vals ==> r[CharRef(switchId, On)] == vals[CharRef(switchId, On)])
  {
    var group := map["playing" := 2, "paused" := 3];
    assert Distinct(group);
    assert CharRef(switchId, On) !in Detectors(group);
  }

  /** `setOn(false)` turns the device off; `setOn(true)` turns it on. */
  lemma SetOnFalseTurnsOff()
    ensures SetOn(Bool(false)) == TurnOff && SetOn(Bool(true)) == TurnOn
  {
  }
}
