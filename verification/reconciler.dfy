/** The `AppleTVAccessory` constructor: it identifies the information
    service, gets or creates the power switch and one motion sensor per
    (property, value) of the topology, subscribes one handler per tracked
    property, and removes every service of the accessory it did not ask for. */
module Reconciler {
  import opened Wrappers
  import opened Registry
  import opened Topology

  /** What an event subscription runs. */
  datatype Handler = PowerHandler | SensorHandler(property: string)

  /** One `atv.on(channel, handler)` call. */
  datatype Subscription = Subscription(channel: string, handler: Handler)

  const PowerChannel: string := "update:powerState"

  /** The event name of a generic property: `update:${property}`. */
  function Channel(property: string): string {
    "update:" + property
  }

  /** The name that identifies a sensor service: `${property}.${value}`. */
  function SensorName(property: string, value: string): string {
    property + "." + value
  }

  /** One entry of the constructor's `services` list: the key it was looked
      up (or created) by and the service it got. */
  datatype Lookup = Lookup(key: Key, id: nat)

  function LookedUp(log: seq<Lookup>): set<Key> {
    set l | l in log :: l.key
  }

  function Wanted(log: seq<Lookup>): set<nat> {
    set l | l in log :: l.id
  }

  /** The state the constructor threads through its steps. `base` is the
      registry as the constructor found it; `created` lists the services it
      added; `sensors` is `genericServices`. */
  datatype Build = Build(
    base: seq<Service>,
    acc: Accessory,
    wanted: seq<Lookup>,
    sensors: map<string, map<string, nat>>,
    subs: seq<Subscription>,
    created: seq<Lookup>)

  /** Every logged key still leads, as a first match, to the service logged for it. */
  ghost predicate Consistent(svcs: seq<Service>, log: seq<Lookup>) {
    forall l :: l in log ==> IdOf(svcs, l.key) == Some(l.id)
  }

  /** Every key the original registry already answered was answered with
      the service found there: get-or-create reused it. */
  ghost predicate Reused(base: seq<Service>, log: seq<Lookup>) {
    forall l :: l in log && Find(base, l.key).Some? ==> IdOf(base, l.key) == Some(l.id)
  }

  /** Every sensor in `genericServices` was looked up under its own name. */
  ghost predicate SensorsLogged(sensors: map<string, map<string, nat>>, log: seq<Lookup>) {
    forall p, v :: p in sensors && v in sensors[p] ==> Lookup(ByName(SensorName(p, v)), sensors[p][v]) in log
  }

  /** What the registry side of the construction keeps true: identities
      stay distinct, the original services stay in front, everything after
      them was created and is wanted, every logged key leads to its service,
      and creation happened only for keys the original registry lacked. */
  ghost predicate Registered(base: seq<Service>, acc: Accessory, wanted: seq<Lookup>, created: seq<Lookup>) {
    && WellFormed(acc)
    && base <= acc.services
    && |acc.services| == |base| + |created|
    && (forall s :: s in acc.services[|base|..] ==> s.id in Wanted(wanted))
    && Consistent(acc.services, wanted)
    && Reused(base, wanted)
    && (forall c :: c in created ==> c in wanted && Find(base, c.key).None?)
  }

  ghost predicate Inv(b: Build) {
    Registered(b.base, b.acc, b.wanted, b.created) && SensorsLogged(b.sensors, b.wanted)
  }

  /** `addService(kind, displayName, subtype).setCharacteristic(Name, nameLabel)`
      took `acc` to `acc1`: one service `id` of that type, name and subtype
      is appended under a fresh identity, its Name reads `nameLabel`, and no
      other characteristic value appears or changes. */
  ghost predicate AddedTo(acc: Accessory, acc1: Accessory, id: nat, kind: Kind, displayName: Option<string>,
                          subtype: Option<string>, nameLabel: string) {
    && acc1.services == acc.services + [Service(id, kind, displayName, subtype)]
    && id !in Ids(acc.services)
    && acc1.values.Keys == acc.values.Keys + {CharRef(id, Name)}
    && acc1.values[CharRef(id, Name)] == Label(nameLabel)
    && forall c :: c in acc.values && c != CharRef(id, Name) ==> acc1.values[c] == acc.values[c]
  }

  /** The identification values written on the information service `info`. */
  function InfoRefs(info: nat): set<CharRef> {
    {CharRef(info, Manufacturer), CharRef(info, Model), CharRef(info, SerialNumber)}
  }

  /** `after` keeps the services of `before` in front and leaves every value
      of those services alone, except the ones in `written`. The only values
      that appear are those in `written` and the Names of services appended
      since. */
  ghost predicate Extends(before: Accessory, after: Accessory, written: set<CharRef>) {
    && before.services <= after.services
    && (forall c :: c in before.values && c.service in Ids(before.services) && c !in written ==>
          c in after.values && after.values[c] == before.values[c])
    && (forall c :: c in after.values && c !in before.values ==>
          c in written || (c.ch == Name && c.service in Ids(after.services) && c.service !in Ids(before.services)))
  }

  /** Two stretches of the run compose: what the second leaves alone stays
      as the first left it. */
  lemma ExtendsTrans(a0: Accessory, a1: Accessory, a2: Accessory, written: set<CharRef>)
    requires Extends(a0, a1, written) && Extends(a1, a2, {})
    ensures Extends(a0, a2, written)
  {
    assert forall s :: s in a0.services ==> s in a1.services;
    assert forall s :: s in a1.services ==> s in a2.services;
    assert Ids(a0.services) <= Ids(a1.services);
  }

  /** Appending one service with its Name only extends the accessory. */
  lemma AddedExtends(acc: Accessory, acc1: Accessory, id: nat, kind: Kind, displayName: Option<string>,
                     subtype: Option<string>, nameLabel: string)
    requires AddedTo(acc, acc1, id, kind, displayName, subtype, nameLabel)
    ensures Extends(acc, acc1, {})
  {
    assert acc1.services[|acc.services|].id == id;
  }

  /** How the constructor creates the service for a key: the switch has no
      display name or subtype and its Name reads "Power State" (lines
      72-74); the sensor named `${property}.${value}` is a motion sensor with
      subtype `value` and Name `value` (lines 128-130). */
  ghost predicate AsCreated(s: Service, vals: map<CharRef, Value>, key: Key) {
    && CharRef(s.id, Name) in vals
    && match key
       case ByKind(k) =>
         && k == Switch && s.kind == Switch && s.displayName.None? && s.subtype.None?
         && vals[CharRef(s.id, Name)] == Label(PowerStateName)
       case ByName(n) =>
         && s.kind == MotionSensor && s.displayName == Some(n) && s.subtype.Some?
         && vals[CharRef(s.id, Name)] == Label(s.subtype.value)
         && NamedFor(n, s.subtype.value)
  }

  /** `name` has the form `${property}.${value}`: it ends with a dot and `value`. */
  predicate NamedFor(name: string, value: string) {
    |value| < |name| && name[|name| - |value| - 1..] == "." + value
  }

  /** The services created so far follow the original ones in creation
      order, each as the constructor creates it for its key. */
  ghost predicate Shaped(base: seq<Service>, acc: Accessory, created: seq<Lookup>) {
    forall j :: 0 <= j < |created| ==>
      && |base| + j < |acc.services|
      && acc.services[|base| + j].id == created[j].id
      && AsCreated(acc.services[|base| + j], acc.values, created[j].key)
  }

  /** Only the service's own Name matters to its shape. */
  lemma AsCreatedFrame(s: Service, vals: map<CharRef, Value>, vals1: map<CharRef, Value>, key: Key)
    requires AsCreated(s, vals, key)
    requires CharRef(s.id, Name) in vals1 && vals1[CharRef(s.id, Name)] == vals[CharRef(s.id, Name)]
    ensures AsCreated(s, vals1, key)
  {
  }

  /** Creating one more service as the constructor does keeps the earlier
      ones as they were: the new Name goes to a fresh identity. */
  lemma ShapedGrow(base: seq<Service>, acc: Accessory, created: seq<Lookup>, acc1: Accessory, id: nat,
                   kind: Kind, displayName: Option<string>, subtype: Option<string>, nameLabel: string, key: Key)
    requires Shaped(base, acc, created) && |acc.services| == |base| + |created|
    requires AddedTo(acc, acc1, id, kind, displayName, subtype, nameLabel)
    requires AsCreated(Service(id, kind, displayName, subtype), acc1.values, key)
    ensures Shaped(base, acc1, created + [Lookup(key, id)])
  {
    var created1 := created + [Lookup(key, id)];
    forall j | 0 <= j < |created1|
      ensures && |base| + j < |acc1.services|
              && acc1.services[|base| + j].id == created1[j].id
              && AsCreated(acc1.services[|base| + j], acc1.values, created1[j].key)
    {
      if j < |created| {
        var t := acc.services[|base| + j];
        assert acc1.services[|base| + j] == t;
        assert t.id in Ids(acc.services);
        AsCreatedFrame(t, acc.values, acc1.values, created[j].key);
      }
    }
  }

  /** `getService(key) || addService(...).setCharacteristic(Name, nameLabel)`,
      with the service obtained pushed onto the wanted list. */
  function GetOrAdd(b: Build, key: Key, kind: Kind, displayName: Option<string>, subtype: Option<string>, nameLabel: string): (r: Build)
    requires Inv(b)
    requires Matches(Service(0, kind, displayName, subtype), key)
    ensures Inv(r)
    ensures |r.wanted| == |b.wanted| + 1 && r.wanted[..|b.wanted|] == b.wanted
    ensures r.wanted[|b.wanted|].key == key
    ensures Find(b.acc.services, key).Some? ==> r.created == b.created && r.acc == b.acc
    ensures Find(b.acc.services, key).None? ==> r.created == b.created + [r.wanted[|b.wanted|]]
    ensures Find(b.acc.services, key).None? ==>
      AddedTo(b.acc, r.acc, r.wanted[|b.wanted|].id, kind, displayName, subtype, nameLabel)
    ensures r.base == b.base && r.sensors == b.sensors && r.subs == b.subs
    ensures Extends(b.acc, r.acc, {})
  {
    match Find(b.acc.services, key)
    case Some(i) =>
      var r := b.(wanted := b.wanted + [Lookup(key, b.acc.services[i].id)]);
      FoundKeepsInv(b, key, r);
      r
    case None =>
      var a1 := AddService(b.acc, kind, displayName, subtype);
      var s := a1.services[|b.acc.services|];
      var a2 := SetCharacteristic(a1, s.id, Name, Label(nameLabel));
      var l := Lookup(key, s.id);
      var r := b.(acc := a2, wanted := b.wanted + [l], created := b.created + [l]);
      assert a1.services == b.acc.services + [s];
      AddedKeepsInv(b, key, s, r);
      AddedExtends(b.acc, a2, s.id, kind, displayName, subtype, nameLabel);
      r
  }

  lemma FoundKeepsInv(b: Build, key: Key, r: Build)
    requires Inv(b) && Find(b.acc.services, key).Some?
    requires r == b.(wanted := b.wanted + [Lookup(key, b.acc.services[Find(b.acc.services, key).value].id)])
    ensures Inv(r)
  {
    var l := Lookup(key, b.acc.services[Find(b.acc.services, key).value].id);
    FoundRegistered(b.base, b.acc, b.wanted, b.created, key, l);
    LoggedGrows(b.sensors, b.wanted, l);
  }

  lemma FoundRegistered(base: seq<Service>, acc: Accessory, wanted: seq<Lookup>, created: seq<Lookup>, key: Key, l: Lookup)
    requires Registered(base, acc, wanted, created)
    requires Find(acc.services, key).Some? && l == Lookup(key, acc.services[Find(acc.services, key).value].id)
    ensures Registered(base, acc, wanted + [l], created)
  {
    var svcs := acc.services;
    var rest := svcs[|base|..];
    assert svcs == base + rest;
    FoundConsistent(svcs, wanted, key);
    FoundReused(base, rest, wanted, key);
    FoundTail(rest, created, wanted, l);
  }

  lemma FoundConsistent(svcs: seq<Service>, log: seq<Lookup>, key: Key)
    requires Consistent(svcs, log) && Find(svcs, key).Some?
    ensures Consistent(svcs, log + [Lookup(key, svcs[Find(svcs, key).value].id)])
  {
    assert forall m :: m in log + [Lookup(key, svcs[Find(svcs, key).value].id)] ==>
      m in log || m == Lookup(key, svcs[Find(svcs, key).value].id);
  }

  lemma FoundReused(base: seq<Service>, rest: seq<Service>, log: seq<Lookup>, key: Key)
    requires Reused(base, log) && Find(base + rest, key).Some?
    ensures Reused(base, log + [Lookup(key, (base + rest)[Find(base + rest, key).value].id)])
  {
    if Find(base, key).Some? {
      FindAppend(base, rest, key);
    }
  }

  lemma FoundTail(tail: seq<Service>, created: seq<Lookup>, log: seq<Lookup>, l: Lookup)
    requires forall t :: t in tail ==> t.id in Wanted(log)
    requires forall c :: c in created ==> c in log
    ensures forall t :: t in tail ==> t.id in Wanted(log + [l])
    ensures forall c :: c in created ==> c in log + [l]
  {
    assert forall m :: m in log ==> m in log + [l];
  }

  lemma AddedKeepsInv(b: Build, key: Key, s: Service, r: Build)
    requires Inv(b) && Find(b.acc.services, key).None? && Matches(s, key)
    requires s.id !in Ids(b.acc.services)
    requires r.base == b.base && r.sensors == b.sensors && r.subs == b.subs
    requires WellFormed(r.acc) && r.acc.services == b.acc.services + [s]
    requires r.wanted == b.wanted + [Lookup(key, s.id)] && r.created == b.created + [Lookup(key, s.id)]
    ensures Inv(r)
  {
    AddedRegistered(b.base, b.acc, b.wanted, b.created, key, s, r.acc);
    LoggedGrows(b.sensors, b.wanted, Lookup(key, s.id));
  }

  lemma AddedRegistered(base: seq<Service>, acc: Accessory, wanted: seq<Lookup>, created: seq<Lookup>, key: Key, s: Service, acc1: Accessory)
    requires Registered(base, acc, wanted, created)
    requires Find(acc.services, key).None? && Matches(s, key)
    requires WellFormed(acc1) && acc1.services == acc.services + [s]
    ensures Registered(base, acc1, wanted + [Lookup(key, s.id)], created + [Lookup(key, s.id)])
  {
    var svcs := acc.services;
    var rest := svcs[|base|..];
    assert svcs == base + rest;
    var l := Lookup(key, s.id);
    AddedConsistent(svcs, wanted, s, key);
    AddedReused(base, rest, wanted, s, key);
    AddedTail(base, svcs, wanted, s, key);
    AddedCreated(base, wanted, created, l);
    assert base <= acc1.services;
  }

  lemma AddedCreated(base: seq<Service>, log: seq<Lookup>, created: seq<Lookup>, l: Lookup)
    requires forall c :: c in created ==> c in log && Find(base, c.key).None?
    requires Find(base, l.key).None?
    ensures forall c :: c in created + [l] ==> c in log + [l] && Find(base, c.key).None?
  {
  }

  lemma LoggedGrows(sensors: map<string, map<string, nat>>, log: seq<Lookup>, l: Lookup)
    requires SensorsLogged(sensors, log)
    ensures SensorsLogged(sensors, log + [l])
  {
  }

  /** Appending a service for a key nothing answered keeps every earlier
      lookup leading to its service and makes the new key lead to the new one. */
  lemma AddedConsistent(svcs: seq<Service>, log: seq<Lookup>, s: Service, key: Key)
    requires Consistent(svcs, log) && Find(svcs, key).None? && Matches(s, key)
    ensures Consistent(svcs + [s], log + [Lookup(key, s.id)])
  {
    FindAppendNew(svcs, s, key);
    forall m | m in log
      ensures IdOf(svcs + [s], m.key) == Some(m.id)
    {
      FindAppend(svcs, [s], m.key);
    }
  }

  lemma AddedReused(base: seq<Service>, rest: seq<Service>, log: seq<Lookup>, s: Service, key: Key)
    requires Reused(base, log) && Find(base + rest, key).None?
    ensures Reused(base, log + [Lookup(key, s.id)])
    ensures Find(base, key).None?
  {
    FindPrefixNone(base, rest, key);
  }

  lemma AddedTail(base: seq<Service>, svcs: seq<Service>, log: seq<Lookup>, s: Service, key: Key)
    requires base <= svcs
    requires forall t :: t in svcs[|base|..] ==> t.id in Wanted(log)
    ensures forall t :: t in (svcs + [s])[|base|..] ==> t.id in Wanted(log + [Lookup(key, s.id)])
  {
    assert (svcs + [s])[|base|..] == svcs[|base|..] + [s];
    assert Lookup(key, s.id) in log + [Lookup(key, s.id)];
    assert forall l :: l in log ==> l in log + [Lookup(key, s.id)];
  }

  /** One value of a group: the sensor named `${property}.${value}` is
      looked up or created (subtype `value`, Name `value`) and recorded in
      `genericServices[property][value]`. */
  function SensorStep(b: Build, p: string, v: string): (r: Build)
    requires Inv(b) && p in b.sensors
    ensures Inv(r)
    ensures r.base == b.base && r.subs == b.subs
    ensures |r.wanted| == |b.wanted| + 1 && r.wanted[..|b.wanted|] == b.wanted
    ensures r.sensors == Record(b.sensors, p, v, r.wanted[|b.wanted|].id)
    ensures r.wanted[|b.wanted|].key == ByName(SensorName(p, v))
    ensures Find(b.acc.services, ByName(SensorName(p, v))).Some? ==> r.created == b.created && r.acc == b.acc
    ensures Find(b.acc.services, ByName(SensorName(p, v))).None? ==>
      && r.created == b.created + [r.wanted[|b.wanted|]]
      && AddedTo(b.acc, r.acc, r.wanted[|b.wanted|].id, MotionSensor, Some(SensorName(p, v)), Some(v), v)
    ensures b.created <= r.created
    ensures |r.created| == |b.created| ==> r.acc == b.acc
    ensures Extends(b.acc, r.acc, {})
  {
    var name := SensorName(p, v);
    var b1 := GetOrAdd(b, ByName(name), MotionSensor, Some(name), Some(v), v);
    var l := b1.wanted[|b.wanted|];
    RecordSensorKeepsInv(b1, p, v, l);
    b1.(sensors := Record(b1.sensors, p, v, l.id))
  }

  /** `genericServices[p][v] = id`. */
  function Record(sensors: map<string, map<string, nat>>, p: string, v: string, id: nat): map<string, map<string, nat>>
    requires p in sensors
  {
    var group: map<string, nat> := sensors[p][v := id];
    sensors[p := group]
  }

  lemma RecordSensorKeepsInv(b: Build, p: string, v: string, l: Lookup)
    requires Inv(b) && p in b.sensors && l in b.wanted && l.key == ByName(SensorName(p, v))
    ensures Inv(b.(sensors := Record(b.sensors, p, v, l.id)))
  {
  }

  /** The inner loop over one group's values, in order. */
  function SensorValues(b: Build, p: string, vs: seq<string>): (r: Build)
    requires Inv(b) && p in b.sensors
    ensures Inv(r)
    ensures r.base == b.base && r.subs == b.subs
    ensures r.sensors.Keys == b.sensors.Keys
    ensures forall q :: q in b.sensors && q != p ==> r.sensors[q] == b.sensors[q]
    ensures r.sensors[p].Keys == b.sensors[p].Keys + (set v | v in vs)
    ensures b.wanted <= r.wanted
    ensures LookedUp(r.wanted) == LookedUp(b.wanted) + (set v | v in vs :: ByName(SensorName(p, v)))
    ensures b.created <= r.created
    ensures |r.created| == |b.created| ==> r.acc == b.acc
    ensures Extends(b.acc, r.acc, {})
    decreases |vs|
  {
    if |vs| == 0 then b
    else
      var b1 := SensorStep(b, p, vs[0]);
      var r := SensorValues(b1, p, vs[1..]);
      ValuesStep(b, p, vs, b1, r);
      ExtendsTrans(b.acc, b1.acc, r.acc, {});
      r
  }

  lemma ValuesStep(b: Build, p: string, vs: seq<string>, b1: Build, r: Build)
    requires |vs| > 0 && p in b.sensors
    requires |b1.wanted| == |b.wanted| + 1 && b1.wanted[..|b.wanted|] == b.wanted
    requires b1.sensors == Record(b.sensors, p, vs[0], b1.wanted[|b.wanted|].id)
    requires b1.wanted[|b.wanted|].key == ByName(SensorName(p, vs[0]))
    requires b.created <= b1.created && b1.created <= r.created
    requires r.sensors.Keys == b1.sensors.Keys
    requires forall q :: q in b1.sensors && q != p ==> r.sensors[q] == b1.sensors[q]
    requires r.sensors[p].Keys == b1.sensors[p].Keys + (set v | v in vs[1..])
    requires b1.wanted <= r.wanted
    requires LookedUp(r.wanted) == LookedUp(b1.wanted) + (set v | v in vs[1..] :: ByName(SensorName(p, v)))
    ensures r.sensors.Keys == b.sensors.Keys
    ensures forall q :: q in b.sensors && q != p ==> r.sensors[q] == b.sensors[q]
    ensures r.sensors[p].Keys == b.sensors[p].Keys + (set v | v in vs)
    ensures b.wanted <= r.wanted
    ensures LookedUp(r.wanted) == LookedUp(b.wanted) + (set v | v in vs :: ByName(SensorName(p, v)))
    ensures b.created <= r.created
  {
    assert b1.wanted == b.wanted + [b1.wanted[|b.wanted|]];
    LookedUpAppend(b.wanted, b1.wanted[|b.wanted|]);
    ValueKeysCons(p, vs);
    ValueSetCons(vs);
  }

  /** The distinct property names of the groups. */
  function Properties(groups: seq<Group>): set<string> {
    set g | g in groups :: g.property
  }

  /** The subscriptions the group loop makes, one per group, in order. */
  function SensorSubs(groups: seq<Group>): seq<Subscription> {
    seq(|groups|, i requires 0 <= i < |groups| => Subscription(Channel(groups[i].property), SensorHandler(groups[i].property)))
  }

  /** Group `i` is the last group with its property. */
  ghost predicate LastFor(groups: seq<Group>, i: int)
    requires 0 <= i < |groups|
  {
    forall j :: i < j < |groups| ==> groups[j].property != groups[i].property
  }

  /** The lookup keys of every sensor the groups describe. */
  ghost function GroupKeys(groups: seq<Group>): set<Key> {
    set pr | pr in Pairs(groups) :: ByName(SensorName(pr.0, pr.1))
  }

  lemma PairsCons(groups: seq<Group>)
    requires |groups| > 0
    ensures Pairs(groups) == (set v | v in groups[0].values :: (groups[0].property, v)) + Pairs(groups[1..])
  {
    var head := set v | v in groups[0].values :: (groups[0].property, v);
    forall pr | pr in Pairs(groups)
      ensures pr in head + Pairs(groups[1..])
    {
      var i, v :| 0 <= i < |groups| && v in groups[i].values && pr == (groups[i].property, v);
      if i > 0 {
        assert groups[1..][i - 1] == groups[i];
      }
    }
    forall pr | pr in Pairs(groups[1..])
      ensures pr in Pairs(groups)
    {
      var i, v :| 0 <= i < |groups[1..]| && v in groups[1..][i].values && pr == (groups[1..][i].property, v);
      assert groups[i + 1] == groups[1..][i];
    }
  }

  /** The outer loop over `generic_sensors`: per group, reset
      `genericServices[property]` to `{}`, get or create its sensors, and
      subscribe `update:${property}`. */
  function SensorGroups(b: Build, groups: seq<Group>): (r: Build)
    requires Inv(b)
    ensures Inv(r)
    ensures r.base == b.base
    ensures r.subs == b.subs + SensorSubs(groups)
    ensures r.sensors.Keys == b.sensors.Keys + Properties(groups)
    ensures forall q :: q in b.sensors && q !in Properties(groups) ==> r.sensors[q] == b.sensors[q]
    ensures forall i :: 0 <= i < |groups| && LastFor(groups, i) ==>
      r.sensors[groups[i].property].Keys == set v | v in groups[i].values
    ensures b.wanted <= r.wanted
    ensures LookedUp(r.wanted) == LookedUp(b.wanted) + GroupKeys(groups)
    ensures b.created <= r.created
    ensures |r.created| == |b.created| ==> r.acc == b.acc
    ensures Extends(b.acc, r.acc, {})
    decreases |groups|
  {
    if |groups| == 0 then
      assert SensorSubs(groups) == [];
      assert Pairs(groups) == {};
      b
    else
      var g := groups[0];
      var b1 := b.(sensors := b.sensors[g.property := map[]]);
      var b2 := SensorValues(b1, g.property, g.values);
      var b3 := b2.(subs := b2.subs + [Subscription(Channel(g.property), SensorHandler(g.property))]);
      var r := SensorGroups(b3, groups[1..]);
      GroupsStep(b, groups, b1, b2, b3, r);
      TraceStep(b, groups, b2, r);
      r
  }

  lemma LookedUpAppend(log: seq<Lookup>, l: Lookup)
    ensures LookedUp(log + [l]) == LookedUp(log) + {l.key}
  {
    assert forall m :: m in log + [l] <==> m in log || m == l;
  }

  lemma ValueKeysCons(p: string, vs: seq<string>)
    requires |vs| > 0
    ensures (set v | v in vs :: ByName(SensorName(p, v)))
         == {ByName(SensorName(p, vs[0]))} + (set v | v in vs[1..] :: ByName(SensorName(p, v)))
  {
    assert forall v :: v in vs <==> v == vs[0] || v in vs[1..] by {
      assert vs == [vs[0]] + vs[1..];
    }
  }

  lemma ValueSetCons(vs: seq<string>)
    requires |vs| > 0
    ensures (set v | v in vs) == {vs[0]} + (set v | v in vs[1..])
  {
    assert forall v :: v in vs <==> v == vs[0] || v in vs[1..] by {
      assert vs == [vs[0]] + vs[1..];
    }
  }

  lemma SubsCons(groups: seq<Group>)
    requires |groups| > 0
    ensures SensorSubs(groups) == [Subscription(Channel(groups[0].property), SensorHandler(groups[0].property))] + SensorSubs(groups[1..])
  {
  }

  lemma PropertiesCons(groups: seq<Group>)
    requires |groups| > 0
    ensures Properties(groups) == {groups[0].property} + Properties(groups[1..])
  {
    assert groups == [groups[0]] + groups[1..];
  }

  lemma GroupKeysCons(groups: seq<Group>)
    requires |groups| > 0
    ensures GroupKeys(groups) == (set v | v in groups[0].values :: ByName(SensorName(groups[0].property, v))) + GroupKeys(groups[1..])
  {
    PairsCons(groups);
    var g := groups[0];
    var head := set v | v in g.values :: (g.property, v);
    var tail := Pairs(groups[1..]);
    forall k | k in GroupKeys(groups)
      ensures k in (set v | v in g.values :: ByName(SensorName(g.property, v))) + GroupKeys(groups[1..])
    {
      var pr :| pr in Pairs(groups) && k == ByName(SensorName(pr.0, pr.1));
      if pr in head {
        assert pr.1 in g.values && pr.0 == g.property;
      } else {
        assert pr in tail;
      }
    }
    forall v | v in g.values
      ensures ByName(SensorName(g.property, v)) in GroupKeys(groups)
    {
      assert (g.property, v) in head;
    }
  }

  /** The first group is the last for its property exactly when no later
      group has that property. */
  lemma FirstIsLast(groups: seq<Group>)
    requires |groups| > 0 && LastFor(groups, 0)
    ensures groups[0].property !in Properties(groups[1..])
  {
    forall h | h in groups[1..]
      ensures h.property != groups[0].property
    {
      var j :| 0 <= j < |groups[1..]| && groups[1..][j] == h;
      assert groups[j + 1] == h;
    }
  }

  lemma LastForTail(groups: seq<Group>, i: int)
    requires 0 < i < |groups| && LastFor(groups, i)
    ensures groups[1..][i - 1] == groups[i] && LastFor(groups[1..], i - 1)
  {
  }

  lemma GroupsStep(b: Build, groups: seq<Group>, b1: Build, b2: Build, b3: Build, r: Build)
    requires |groups| > 0
    requires b1.sensors == b.sensors[groups[0].property := map[]]
    requires b2.sensors.Keys == b1.sensors.Keys
    requires forall q :: q in b1.sensors && q != groups[0].property ==> b2.sensors[q] == b1.sensors[q]
    requires b2.sensors[groups[0].property].Keys == b1.sensors[groups[0].property].Keys + (set v | v in groups[0].values)
    requires b3.sensors == b2.sensors
    requires r.sensors.Keys == b3.sensors.Keys + Properties(groups[1..])
    requires forall q :: q in b3.sensors && q !in Properties(groups[1..]) ==> r.sensors[q] == b3.sensors[q]
    requires forall i :: 0 <= i < |groups[1..]| && LastFor(groups[1..], i) ==>
      r.sensors[groups[1..][i].property].Keys == set v | v in groups[1..][i].values
    ensures r.sensors.Keys == b.sensors.Keys + Properties(groups)
    ensures forall q :: q in b.sensors && q !in Properties(groups) ==> r.sensors[q] == b.sensors[q]
    ensures forall i :: 0 <= i < |groups| && LastFor(groups, i) ==>
      r.sensors[groups[i].property].Keys == set v | v in groups[i].values
  {
    PropertiesCons(groups);
    forall i | 0 <= i < |groups| && LastFor(groups, i)
      ensures r.sensors[groups[i].property].Keys == set v | v in groups[i].values
    {
      if i > 0 {
        LastForTail(groups, i);
      } else {
        FirstIsLast(groups);
      }
    }
  }

  /** The subscriptions, lookups, creations and values of one group step
      compose with those of the remaining groups. */
  lemma TraceStep(b: Build, groups: seq<Group>, b2: Build, r: Build)
    requires |groups| > 0
    requires r.subs == b.subs + [Subscription(Channel(groups[0].property), SensorHandler(groups[0].property))] + SensorSubs(groups[1..])
    requires b.wanted <= b2.wanted && b2.wanted <= r.wanted
    requires LookedUp(b2.wanted) == LookedUp(b.wanted) + (set v | v in groups[0].values :: ByName(SensorName(groups[0].property, v)))
    requires LookedUp(r.wanted) == LookedUp(b2.wanted) + GroupKeys(groups[1..])
    requires b.created <= b2.created && b2.created <= r.created
    requires |b2.created| == |b.created| ==> b2.acc == b.acc
    requires |r.created| == |b2.created| ==> r.acc == b2.acc
    requires Extends(b.acc, b2.acc, {}) && Extends(b2.acc, r.acc, {})
    ensures r.subs == b.subs + SensorSubs(groups)
    ensures b.wanted <= r.wanted
    ensures LookedUp(r.wanted) == LookedUp(b.wanted) + GroupKeys(groups)
    ensures b.created <= r.created
    ensures |r.created| == |b.created| ==> r.acc == b.acc
    ensures Extends(b.acc, r.acc, {})
  {
    SubsCons(groups);
    GroupKeysCons(groups);
    ExtendsTrans(b.acc, b2.acc, r.acc, {});
  }


  // ---------------------------------------------------------------------
  // The constructor

  const ManufacturerName: string := "Apple Inc."
  const ModelName: string := "AppleTV"
  const FallbackSerial: string := "Serial"
  const PowerStateName: string := "Power State"

  /** The one crash of the constructor this model keeps: an accessory
      without an information service, where `getService` yields `undefined`
      and the `.setCharacteristic` call on it throws. */
  datatype ConstructError = MissingInformationService

  /** A constructed `AppleTVAccessory`. `wanted` is its `services` list (with
      the key each entry was obtained by), `sensors` its `genericServices`,
      `subs` the subscriptions it made, `created` the services it added and
      `removed` the services it deleted as unused. */
  datatype Built = Built(
    acc: Accessory,
    device: Device,
    infoId: nat,
    switchId: nat,
    wanted: seq<Lookup>,
    sensors: map<string, map<string, nat>>,
    subs: seq<Subscription>,
    created: seq<Lookup>,
    removed: seq<Service>)

  /** `this.atv.id ?? "Serial"`. */
  function SerialOf(atvId: Option<string>): string {
    atvId.GetOr(FallbackSerial)
  }

  /** Every key a run looks up: the two service types and one name per
      (property, value) of the topology. */
  ghost function RunKeys(groups: seq<Group>): set<Key> {
    {ByKind(AccessoryInformation), ByKind(Switch)} + GroupKeys(groups)
  }

  /** The topology a construction reads: `generic_sensors` after the append. */
  function TopologyOf(b: Built): seq<Group> {
    b.device.genericSensors.GetOr([])
  }

  /** Only wanted services remain, each an original one or one the
      constructor created; an original service survives iff it is wanted;
      the unwanted original services are removed, each once, in registry
      order. */
  ghost predicate Pruned(acc: Accessory, r: Built) {
    var wanted := Wanted(r.wanted);
    && WellFormed(r.acc)
    && (forall s :: s in r.acc.services ==> s.id in wanted)
    && (forall s :: s in r.acc.services ==> s in acc.services || s.id in Wanted(r.created))
    && (forall s :: s in acc.services ==> (s in r.acc.services <==> s.id in wanted))
    && (forall s :: s in r.removed <==> s in acc.services && s.id !in wanted)
    && r.removed == Without(acc.services, wanted)
    && (r.created == [] ==> r.acc.services == Keep(acc.services, wanted))
  }

  /** Apart from removal, the constructor writes only the identification
      values and the Names of the services it creates: every other value of
      a surviving original service is as it was, and no value of a removed
      service remains. */
  ghost predicate Framed(acc: Accessory, r: Built) {
    && (forall c :: c in acc.values && c.service in Ids(acc.services) && c.service in Ids(r.acc.services)
                    && c !in InfoRefs(r.infoId) ==>
          c in r.acc.values && r.acc.values[c] == acc.values[c])
    && (forall c :: c in r.acc.values && c !in acc.values ==>
          c in InfoRefs(r.infoId) || (c.ch == Name && c.service in Wanted(r.created)))
    && (forall c :: c in r.acc.values ==> c.service !in Ids(r.removed))
  }

  /** Get-or-create: a service the original registry answered with is
      reused, and a service is created only for a key it did not answer. */
  ghost predicate GotOrCreated(acc: Accessory, r: Built) {
    && Reused(acc.services, r.wanted)
    && (forall c :: c in r.created ==> c in r.wanted && Find(acc.services, c.key).None?)
  }

  /** The wanted list: the information service, the switch, and every key
      of the topology, each still leading to the service obtained for it. */
  ghost predicate Tracked(r: Built) {
    && LookedUp(r.wanted) == RunKeys(TopologyOf(r))
    && Consistent(r.acc.services, r.wanted)
    && |r.wanted| >= 2
    && r.wanted[0] == Lookup(ByKind(AccessoryInformation), r.infoId)
    && r.wanted[1] == Lookup(ByKind(Switch), r.switchId)
  }

  /** `genericServices` has one entry per property of the groups, holding
      exactly the values of the last group with that property. */
  ghost predicate Indexed(sensors: map<string, map<string, nat>>, groups: seq<Group>) {
    && sensors.Keys == Properties(groups)
    && (forall i :: 0 <= i < |groups| && LastFor(groups, i) ==>
          sensors[groups[i].property].Keys == set v | v in groups[i].values)
  }

  lemma IndexedFromEmpty(before: map<string, map<string, nat>>, after: map<string, map<string, nat>>, groups: seq<Group>)
    requires before == map[]
    requires after.Keys == before.Keys + Properties(groups)
    requires forall i :: 0 <= i < |groups| && LastFor(groups, i) ==>
      after[groups[i].property].Keys == set v | v in groups[i].values
    ensures Indexed(after, groups)
  {
    assert before.Keys == {};
  }

  /** `genericServices` has one entry per property, filled from the last
      group with that property, every sensor found by its name; one power
      subscription comes first, then one per group. */
  ghost predicate Routed(r: Built) {
    var groups := TopologyOf(r);
    && SensorsLogged(r.sensors, r.wanted)
    && Indexed(r.sensors, groups)
    && r.subs == [Subscription(PowerChannel, PowerHandler)] + SensorSubs(groups)
  }

  function InfoValue(r: Built, ch: Characteristic): Option<Value> {
    if CharRef(r.infoId, ch) in r.acc.values then Some(r.acc.values[CharRef(r.infoId, ch)]) else None
  }

  /** Every service the constructor created is what its key leads to, and
      is as the constructor creates it for that key. */
  ghost predicate CreatedAsCoded(r: Built) {
    forall c :: c in r.created ==>
      && Find(r.acc.services, c.key).Some?
      && AsCreated(r.acc.services[Find(r.acc.services, c.key).value], r.acc.values, c.key)
  }

  /** The information service carries the fixed identification. */
  ghost predicate Identified(r: Built, atvId: Option<string>) {
    && InfoValue(r, Manufacturer) == Some(Label(ManufacturerName))
    && InfoValue(r, Model) == Some(Label(ModelName))
    && InfoValue(r, SerialNumber) == Some(Label(SerialOf(atvId)))
  }

  /** The information service shows the fixed identification. */
  ghost predicate ShowsIdentity(vals: map<CharRef, Value>, info: nat, atvId: Option<string>) {
    && CharRef(info, Manufacturer) in vals && vals[CharRef(info, Manufacturer)] == Label(ManufacturerName)
    && CharRef(info, Model) in vals && vals[CharRef(info, Model)] == Label(ModelName)
    && CharRef(info, SerialNumber) in vals && vals[CharRef(info, SerialNumber)] == Label(SerialOf(atvId))
  }

  lemma IdentityKept(a0: Accessory, a1: Accessory, info: nat, atvId: Option<string>)
    requires ShowsIdentity(a0.values, info, atvId) && info in Ids(a0.services)
    requires Extends(a0, a1, {})
    ensures ShowsIdentity(a1.values, info, atvId)
  {
    assert CharRef(info, Manufacturer) in a0.values;
    assert CharRef(info, Model) in a0.values;
    assert CharRef(info, SerialNumber) in a0.values;
  }

  /** Lines 56-68: the information service gets its three identification
      values and opens the wanted list. */
  function Start(acc: Accessory, atvId: Option<string>, i: nat): (b0: Build)
    requires WellFormed(acc) && Find(acc.services, ByKind(AccessoryInformation)) == Some(i)
    ensures Inv(b0)
    ensures b0.base == acc.services && b0.acc.services == acc.services
    ensures b0.wanted == [Lookup(ByKind(AccessoryInformation), acc.services[i].id)]
    ensures b0.sensors == map[] && b0.subs == [] && b0.created == []
    ensures ShowsIdentity(b0.acc.values, acc.services[i].id, atvId)
    ensures b0.acc.values.Keys == acc.values.Keys + InfoRefs(acc.services[i].id)
    ensures forall c :: c in acc.values && c !in InfoRefs(acc.services[i].id) ==> b0.acc.values[c] == acc.values[c]
    ensures Extends(acc, b0.acc, InfoRefs(acc.services[i].id))
  {
    var info := acc.services[i].id;
    var a1 := SetCharacteristic(acc, info, Manufacturer, Label(ManufacturerName));
    var a2 := SetCharacteristic(a1, info, Model, Label(ModelName));
    var a3 := SetCharacteristic(a2, info, SerialNumber, Label(SerialOf(atvId)));
    var b0 := Build(acc.services, a3, [Lookup(ByKind(AccessoryInformation), info)], map[], [], []);
    StartInv(acc, b0, i);
    b0
  }

  /** The constructor up to the removal step: the information service is
      labelled, the switch obtained and its power handler subscribed, the
      topology extended and every sensor obtained and subscribed. */
  function Assemble(acc: Accessory, d: Device, atvId: Option<string>, i: nat): (b: Build)
    requires WellFormed(acc) && Find(acc.services, ByKind(AccessoryInformation)) == Some(i)
    ensures Inv(b) && b.base == acc.services
    ensures |b.wanted| >= 2
    ensures b.wanted[0] == Lookup(ByKind(AccessoryInformation), acc.services[i].id)
    ensures b.wanted[1].key == ByKind(Switch)
    ensures var groups := WithGenericSensors(d).genericSensors.value;
      && LookedUp(b.wanted) == RunKeys(groups)
      && b.subs == [Subscription(PowerChannel, PowerHandler)] + SensorSubs(groups)
      && Indexed(b.sensors, groups)
    ensures ShowsIdentity(b.acc.values, acc.services[i].id, atvId)
    ensures Extends(acc, b.acc, InfoRefs(acc.services[i].id))
    ensures Shaped(b.base, b.acc, b.created)
  {
    var b2 := OpenSwitch(acc, atvId, i);
    var groups := WithGenericSensors(d).genericSensors.value;
    var b3 := SensorGroups(b2, groups);
    ExtendsTrans(acc, b2.acc, b3.acc, InfoRefs(acc.services[i].id));
    SensorGroupsShaped(b2, groups);
    IdentityKept(b2.acc, b3.acc, acc.services[i].id, atvId);
    AssembledKeys(b2.wanted, b3.wanted, groups);
    IndexedFromEmpty(b2.sensors, b3.sensors, groups);
    b3
  }

  /** Lines 56-80: the information service is labelled, the switch is
      obtained, and the power handler is subscribed. */
  function OpenSwitch(acc: Accessory, atvId: Option<string>, i: nat): (b: Build)
    requires WellFormed(acc) && Find(acc.services, ByKind(AccessoryInformation)) == Some(i)
    ensures Inv(b) && b.base == acc.services
    ensures |b.wanted| == 2
    ensures b.wanted[0] == Lookup(ByKind(AccessoryInformation), acc.services[i].id)
    ensures b.wanted[1].key == ByKind(Switch)
    ensures b.sensors == map[] && b.subs == [Subscription(PowerChannel, PowerHandler)]
    ensures ShowsIdentity(b.acc.values, acc.services[i].id, atvId)
    ensures Find(acc.services, ByKind(Switch)).Some? ==>
      && b.created == [] && b.acc.services == acc.services
      && b.wanted[1].id == acc.services[Find(acc.services, ByKind(Switch)).value].id
    ensures Find(acc.services, ByKind(Switch)).None? ==>
      && b.created == [b.wanted[1]]
      && b.acc.services == acc.services + [Service(b.wanted[1].id, Switch, None, None)]
      && b.wanted[1].id !in Ids(acc.services)
      && CharRef(b.wanted[1].id, Name) in b.acc.values
      && b.acc.values[CharRef(b.wanted[1].id, Name)] == Label(PowerStateName)
    ensures Extends(acc, b.acc, InfoRefs(acc.services[i].id))
    ensures Shaped(b.base, b.acc, b.created)
  {
    var b0 := Start(acc, atvId, i);
    var b1 := GetOrAdd(b0, ByKind(Switch), Switch, None, None, PowerStateName);
    ExtendsTrans(acc, b0.acc, b1.acc, InfoRefs(acc.services[i].id));
    SwitchShaped(b0, b1);
    IdentityKept(b0.acc, b1.acc, acc.services[i].id, atvId);
    b1.(subs := [Subscription(PowerChannel, PowerHandler)])
  }

  /** A sensor step creates its sensor as the constructor does. */
  lemma SensorStepShaped(b: Build, p: string, v: string)
    requires Inv(b) && Shaped(b.base, b.acc, b.created) && p in b.sensors
    ensures var r := SensorStep(b, p, v); Shaped(r.base, r.acc, r.created)
  {
    var r := SensorStep(b, p, v);
    var name := SensorName(p, v);
    if Find(b.acc.services, ByName(name)).None? {
      var id := r.wanted[|b.wanted|].id;
      SensorNameEnds(p, v);
      ShapedGrow(b.base, b.acc, b.created, r.acc, id, MotionSensor, Some(name), Some(v), v, ByName(name));
    }
  }

  /** `${property}.${value}` ends with a dot and `value`. */
  lemma SensorNameEnds(p: string, v: string)
    ensures NamedFor(SensorName(p, v), v)
  {
    var name := SensorName(p, v);
    assert name[|name| - |v| - 1..] == "." + v;
  }

  lemma {:induction false} SensorValuesShaped(b: Build, p: string, vs: seq<string>)
    requires Inv(b) && Shaped(b.base, b.acc, b.created) && p in b.sensors
    ensures var r := SensorValues(b, p, vs); Shaped(r.base, r.acc, r.created)
    decreases |vs|
  {
    if |vs| > 0 {
      SensorStepShaped(b, p, vs[0]);
      SensorValuesShaped(SensorStep(b, p, vs[0]), p, vs[1..]);
    }
  }

  lemma {:induction false} SensorGroupsShaped(b: Build, groups: seq<Group>)
    requires Inv(b) && Shaped(b.base, b.acc, b.created)
    ensures var r := SensorGroups(b, groups); Shaped(r.base, r.acc, r.created)
    decreases |groups|
  {
    if |groups| > 0 {
      var g := groups[0];
      var b1 := b.(sensors := b.sensors[g.property := map[]]);
      SensorValuesShaped(b1, g.property, g.values);
      var b2 := SensorValues(b1, g.property, g.values);
      var b3 := b2.(subs := b2.subs + [Subscription(Channel(g.property), SensorHandler(g.property))]);
      SensorGroupsShaped(b3, groups[1..]);
    }
  }

  lemma SwitchShaped(b0: Build, b1: Build)
    requires Inv(b0) && b0.created == []
    requires b1 == GetOrAdd(b0, ByKind(Switch), Switch, None, None, PowerStateName)
    ensures Shaped(b1.base, b1.acc, b1.created)
  {
    if Find(b0.acc.services, ByKind(Switch)).None? {
      var id := b1.wanted[|b0.wanted|].id;
      ShapedGrow(b0.base, b0.acc, b0.created, b1.acc, id, Switch, None, None, PowerStateName, ByKind(Switch));
    }
  }

  lemma AssembledKeys(w2: seq<Lookup>, w3: seq<Lookup>, groups: seq<Group>)
    requires |w2| == 2 && w2[0].key == ByKind(AccessoryInformation) && w2[1].key == ByKind(Switch)
    requires w2 <= w3
    requires LookedUp(w3) == LookedUp(w2) + GroupKeys(groups)
    ensures |w3| >= 2 && w3[0] == w2[0] && w3[1] == w2[1]
    ensures LookedUp(w3) == RunKeys(groups)
  {
    assert forall m :: m in w2 <==> m == w2[0] || m == w2[1];
  }

  /** `new AppleTVAccessory(platform, accessory)` on a registry `acc` and a
      context `d`, with `atvId` the device handle's id. */
  function Construct(acc: Accessory, d: Device, atvId: Option<string>): (r: Result<Built, ConstructError>)
    requires WellFormed(acc)
    ensures r.Failure? <==> Find(acc.services, ByKind(AccessoryInformation)).None?
    ensures r.Success? ==> r.value.device == WithGenericSensors(d)
    ensures r.Success? ==> Pruned(acc, r.value) && GotOrCreated(acc, r.value)
    ensures r.Success? ==> Tracked(r.value) && Routed(r.value)
    ensures r.Success? ==> Identified(r.value, atvId)
    ensures r.Success? ==> CreatedAsCoded(r.value)
    ensures r.Success? ==> Framed(acc, r.value)
  {
    match Find(acc.services, ByKind(AccessoryInformation))
    case None => Failure(MissingInformationService)
    case Some(i) =>
      var b := Assemble(acc, d, atvId, i);
      var victims := Unused(b.acc.services, Wanted(b.wanted));
      var r := Built(RemoveServices(b.acc, victims), WithGenericSensors(d), acc.services[i].id, b.wanted[1].id,
                     b.wanted, b.sensors, b.subs, b.created, victims);
      RemovalFacts(b.base, b.acc, b.wanted, b.created, victims, r.acc);
      TrackedFacts(b, r);
      RoutedFacts(b, r);
      IdentifiedFacts(b, r, atvId);
      CreatedFacts(b, r);
      OriginalOrCreated(b.base, b.acc, b.created, r.acc.services, Wanted(b.wanted));
      FramedFacts(acc, b.acc, b.created, r);
      PrunedFacts(acc, b, r);
      Success(r)
  }

  lemma StartInv(acc: Accessory, b0: Build, i: nat)
    requires WellFormed(acc) && Find(acc.services, ByKind(AccessoryInformation)) == Some(i)
    requires b0.base == acc.services && b0.acc.services == acc.services && b0.acc.nextId == acc.nextId
    requires b0.wanted == [Lookup(ByKind(AccessoryInformation), acc.services[i].id)]
    requires b0.sensors == map[] && b0.created == []
    ensures Inv(b0)
  {
    assert acc.services[|acc.services|..] == [];
  }

  lemma PrunedFacts(acc: Accessory, b: Build, r: Built)
    requires Inv(b) && b.base == acc.services
    requires r.wanted == b.wanted && r.created == b.created
    requires WellFormed(r.acc)
    requires forall s :: s in r.acc.services ==> s.id in Wanted(b.wanted)
    requires forall s :: s in r.acc.services ==> s in b.base || s.id in Wanted(b.created)
    requires forall s :: s in b.base ==> (s in r.acc.services <==> s.id in Wanted(b.wanted))
    requires forall s :: s in r.removed <==> s in b.base && s.id !in Wanted(b.wanted)
    requires r.removed == Without(b.base, Wanted(b.wanted))
    requires b.created == [] ==> r.acc.services == Keep(b.base, Wanted(b.wanted))
    ensures Pruned(acc, r) && GotOrCreated(acc, r)
  {
  }

  lemma TrackedFacts(b: Build, r: Built)
    requires |b.wanted| >= 2
    requires b.wanted[0] == Lookup(ByKind(AccessoryInformation), r.infoId)
    requires b.wanted[1].key == ByKind(Switch) && r.switchId == b.wanted[1].id
    requires LookedUp(b.wanted) == RunKeys(TopologyOf(r)) && r.wanted == b.wanted
    requires Consistent(r.acc.services, b.wanted)
    ensures Tracked(r)
  {
  }

  lemma RoutedFacts(b: Build, r: Built)
    requires var groups := TopologyOf(r);
      && b.subs == [Subscription(PowerChannel, PowerHandler)] + SensorSubs(groups)
      && Indexed(b.sensors, groups)
    requires SensorsLogged(b.sensors, b.wanted)
    requires r.wanted == b.wanted && r.sensors == b.sensors && r.subs == b.subs
    ensures Routed(r)
  {
  }

  lemma IdentifiedFacts(b: Build, r: Built, atvId: Option<string>)
    requires ShowsIdentity(b.acc.values, r.infoId, atvId)
    requires |b.wanted| > 0 && b.wanted[0].id == r.infoId
    requires forall id :: id in Ids(r.removed) ==> id !in Wanted(b.wanted)
    requires r.acc == RemoveServices(b.acc, r.removed)
    ensures Identified(r, atvId)
  {
    assert b.wanted[0] in b.wanted;
    assert r.infoId in Wanted(b.wanted);
  }

  /** Deleting the unused services keeps exactly the wanted ones, leaves
      every logged key leading to its service, and touches only services
      the constructor found (never one it created). */
  lemma RemovalFacts(base: seq<Service>, acc: Accessory, wanted: seq<Lookup>, created: seq<Lookup>, victims: seq<Service>, a: Accessory)
    requires Registered(base, acc, wanted, created)
    requires victims == Unused(acc.services, Wanted(wanted))
    requires a == RemoveServices(acc, victims)
    ensures a.services == Keep(acc.services, Wanted(wanted))
    ensures WellFormed(a)
    ensures Consistent(a.services, wanted)
    ensures forall s :: s in a.services ==> s.id in Wanted(wanted)
    ensures forall s :: s in base ==> (s in a.services <==> s.id in Wanted(wanted))
    ensures forall s :: s in victims <==> s in base && s.id !in Wanted(wanted)
    ensures forall id :: id in Ids(victims) ==> id !in Wanted(wanted)
    ensures victims == Without(base, Wanted(wanted))
    ensures created == [] ==> a.services == Keep(base, Wanted(wanted))
  {
    var W := Wanted(wanted);
    assert acc.services == base + acc.services[|base|..];
    WithoutDroppedTail(base, acc.services[|base|..], W);
    RemoveUnusedKeepsWanted(acc, W);
    KeptWellFormed(acc, W, a);
    KeptConsistent(acc.services, wanted);
    VictimsUnwanted(base, acc.services, W, victims);
    if created == [] {
      assert acc.services == base;
    }
  }

  /** Removal keeps every created service and its Name, so each is still
      what its key leads to and keeps its shape. */
  lemma CreatedFacts(b: Build, r: Built)
    requires Registered(b.base, b.acc, b.wanted, b.created) && Shaped(b.base, b.acc, b.created)
    requires r.created == b.created
    requires r.acc.services == Keep(b.acc.services, Wanted(b.wanted))
    requires Consistent(r.acc.services, b.wanted)
    requires forall c :: c in r.acc.values <==> c in b.acc.values && c.service !in Ids(r.removed)
    requires forall c :: c in r.acc.values ==> r.acc.values[c] == b.acc.values[c]
    requires forall id :: id in Ids(r.removed) ==> id !in Wanted(b.wanted)
    ensures CreatedAsCoded(r)
  {
    forall c | c in r.created
      ensures && Find(r.acc.services, c.key).Some?
              && AsCreated(r.acc.services[Find(r.acc.services, c.key).value], r.acc.values, c.key)
    {
      var j :| 0 <= j < |b.created| && b.created[j] == c;
      var t := b.acc.services[|b.base| + j];
      assert c in b.wanted;
      assert IdOf(r.acc.services, c.key) == Some(c.id);
      var u := r.acc.services[Find(r.acc.services, c.key).value];
      assert u in b.acc.services;
      SameIdSameService(b.acc.services, u, t);
      assert c.id in Wanted(b.wanted);
      AsCreatedFrame(t, b.acc.values, r.acc.values, c.key);
    }
  }

  /** A value the run added belongs to the identification or names a
      created service; removal keeps the rest of the frame. */
  lemma FramedFacts(acc: Accessory, built: Accessory, created: seq<Lookup>, r: Built)
    requires Extends(acc, built, InfoRefs(r.infoId))
    requires forall s :: s in built.services ==> s in acc.services || s.id in Wanted(created)
    requires r.created == created
    requires r.acc.services == Without(built.services, Ids(r.removed))
    requires forall c :: c in r.acc.values <==> c in built.values && c.service !in Ids(r.removed)
    requires forall c :: c in r.acc.values ==> r.acc.values[c] == built.values[c]
    ensures Framed(acc, r)
  {
    forall c | c in acc.values && c.service in Ids(acc.services) && c.service in Ids(r.acc.services) && c !in InfoRefs(r.infoId)
      ensures c in r.acc.values && r.acc.values[c] == acc.values[c]
    {
      var s :| s in r.acc.services && s.id == c.service;
    }
    forall c | c in r.acc.values && c !in acc.values && c !in InfoRefs(r.infoId)
      ensures c.ch == Name && c.service in Wanted(r.created)
    {
      var s :| s in built.services && s.id == c.service;
      assert s !in acc.services;
    }
  }

  /** Whatever survives removal was found or created by the constructor. */
  lemma OriginalOrCreated(base: seq<Service>, acc: Accessory, created: seq<Lookup>, kept: seq<Service>, W: set<nat>)
    requires base <= acc.services && |acc.services| == |base| + |created| && Shaped(base, acc, created)
    requires kept == Keep(acc.services, W)
    ensures forall s :: s in kept ==> s in base || s.id in Wanted(created)
    ensures forall s :: s in acc.services ==> s in base || s.id in Wanted(created)
  {
    assert forall j :: 0 <= j < |created| ==> acc.services[|base| + j].id == created[j].id;
    TailCreated(base, acc.services, created);
  }

  lemma TailCreated(base: seq<Service>, svcs: seq<Service>, created: seq<Lookup>)
    requires base <= svcs && |svcs| == |base| + |created|
    requires forall j :: 0 <= j < |created| ==> svcs[|base| + j].id == created[j].id
    ensures forall s :: s in svcs ==> s in base || s.id in Wanted(created)
  {
    forall s | s in svcs
      ensures s in base || s.id in Wanted(created)
    {
      var k :| 0 <= k < |svcs| && svcs[k] == s;
      if k >= |base| {
        assert created[k - |base|] in created;
      } else {
        assert base[k] == s;
      }
    }
  }

  lemma SameIdSameService(svcs: seq<Service>, u: Service, t: Service)
    requires UniqueIds(svcs) && u in svcs && t in svcs && u.id == t.id
    ensures u == t
  {
    var i :| 0 <= i < |svcs| && svcs[i] == u;
    var j :| 0 <= j < |svcs| && svcs[j] == t;
    assert i == j;
  }

  lemma KeptWellFormed(acc: Accessory, W: set<nat>, a: Accessory)
    requires WellFormed(acc)
    requires a.services == Keep(acc.services, W) && a.nextId == acc.nextId
    ensures WellFormed(a)
  {
    KeepUnique(acc.services, W);
  }

  /** Filtering down to wanted services keeps every logged key leading to its service. */
  lemma KeptConsistent(svcs: seq<Service>, log: seq<Lookup>)
    requires Consistent(svcs, log)
    ensures Consistent(Keep(svcs, Wanted(log)), log)
  {
    forall l | l in log
      ensures IdOf(Keep(svcs, Wanted(log)), l.key) == Some(l.id)
    {
      FindKeep(svcs, Wanted(log), l.key);
    }
  }

  /** The services removed are exactly the unwanted ones the constructor
      found; everything after them was created and is wanted. */
  lemma VictimsUnwanted(base: seq<Service>, svcs: seq<Service>, W: set<nat>, victims: seq<Service>)
    requires base <= svcs
    requires forall s :: s in svcs[|base|..] ==> s.id in W
    requires forall s :: s in victims <==> s in svcs && s.id !in W
    ensures forall s :: s in victims <==> s in base && s.id !in W
    ensures forall id :: id in Ids(victims) ==> id !in W
  {
    var rest := svcs[|base|..];
    assert svcs == base + rest;
    forall id | id in Ids(victims)
      ensures id !in W
    {
      var s :| s in victims && s.id == id;
    }
  }

  // ---------------------------------------------------------------------
  // Properties of construction

  /** Restarting is harmless: constructing again on the registry a
      construction left behind, with the context it persisted, finds every
      service it looks for, creates nothing, removes nothing, and leaves the
      services exactly as they were. */
  lemma {:induction false} SecondRunChangesNothing(acc: Accessory, d: Device, atvId: Option<string>)
    requires WellFormed(acc) && Find(acc.services, ByKind(AccessoryInformation)).Some?
    ensures var first := Construct(acc, d, atvId).value;
      var second := Construct(first.acc, first.device, atvId);
      && second.Success?
      && second.value.created == []
      && second.value.removed == []
      && second.value.acc.services == first.acc.services
      && Wanted(second.value.wanted) == Wanted(first.wanted)
  {
    var first := Construct(acc, d, atvId).value;
    InformationSurvives(first);
    var second := Construct(first.acc, first.device, atvId).value;
    SameKeysOnRerun(d, first, second);
    RerunFindsEverything(first, second);
    RerunWantsEverything(first, second);
  }

  /** The other restart: the registry a construction left behind, with the
      context re-read as it was before the append. Both runs compute the
      same topology, so again nothing is created or removed. */
  lemma {:induction false} RestartWithOriginalContext(acc: Accessory, d: Device, atvId: Option<string>)
    requires WellFormed(acc) && Find(acc.services, ByKind(AccessoryInformation)).Some?
    ensures var first := Construct(acc, d, atvId).value;
      var second := Construct(first.acc, d, atvId);
      && second.Success?
      && second.value.created == []
      && second.value.removed == []
      && second.value.acc.services == first.acc.services
      && Wanted(second.value.wanted) == Wanted(first.wanted)
  {
    var first := Construct(acc, d, atvId).value;
    InformationSurvives(first);
    var second := Construct(first.acc, d, atvId).value;
    assert TopologyOf(second) == TopologyOf(first);
    RerunFindsEverything(first, second);
    RerunWantsEverything(first, second);
  }

  /** The information service is wanted, so a constructed accessory still has it. */
  lemma InformationSurvives(r: Built)
    requires Tracked(r)
    ensures Find(r.acc.services, ByKind(AccessoryInformation)).Some?
  {
    assert r.wanted[0] in r.wanted;
  }

  /** The second run looks up exactly the keys the first one did: the
      topology grew by the pushed groups again, which add no new pair. */
  lemma SameKeysOnRerun(d: Device, first: Built, second: Built)
    requires first.device == WithGenericSensors(d) && second.device == WithGenericSensors(first.device)
    requires LookedUp(first.wanted) == RunKeys(TopologyOf(first))
    requires LookedUp(second.wanted) == RunKeys(TopologyOf(second))
    ensures LookedUp(second.wanted) == LookedUp(first.wanted)
  {
    ReloadRepeatsPushedGroups(d);
  }

  /** Every key of the second run is answered by the first run's registry,
      so nothing is created. */
  lemma RerunFindsEverything(first: Built, second: Built)
    requires Consistent(first.acc.services, first.wanted)
    requires forall c :: c in second.created ==> c in second.wanted && Find(first.acc.services, c.key).None?
    requires LookedUp(second.wanted) == LookedUp(first.wanted)
    ensures second.created == []
  {
    forall l2 | l2 in second.wanted
      ensures Find(first.acc.services, l2.key).Some?
    {
      assert l2.key in LookedUp(first.wanted);
      var l1 :| l1 in first.wanted && l1.key == l2.key;
    }
    assert forall c :: c !in second.created;
    EmptyIfNoMember(second.created);
  }

  /** Every service the first run left is wanted again, under the same key,
      so nothing is removed. */
  lemma RerunWantsEverything(first: Built, second: Built)
    requires Consistent(first.acc.services, first.wanted)
    requires forall s :: s in first.acc.services ==> s.id in Wanted(first.wanted)
    requires Reused(first.acc.services, second.wanted)
    requires forall s :: s in second.removed <==> s in first.acc.services && s.id !in Wanted(second.wanted)
    requires second.created == [] ==> second.acc.services == Keep(first.acc.services, Wanted(second.wanted))
    requires second.created == []
    requires LookedUp(second.wanted) == LookedUp(first.wanted)
    ensures second.removed == []
    ensures second.acc.services == first.acc.services
    ensures Wanted(second.wanted) == Wanted(first.wanted)
  {
    var svcs := first.acc.services;
    forall l1 | l1 in first.wanted
      ensures l1.id in Wanted(second.wanted)
    {
      assert l1.key in LookedUp(second.wanted);
      var l2 :| l2 in second.wanted && l2.key == l1.key;
      assert l2.id == l1.id;
    }
    forall l2 | l2 in second.wanted
      ensures l2.id in Wanted(first.wanted)
    {
      assert l2.key in LookedUp(first.wanted);
      var l1 :| l1 in first.wanted && l1.key == l2.key;
    }
    KeepAll(svcs, Wanted(second.wanted));
    assert forall s :: s !in second.removed;
    EmptyIfNoMember(second.removed);
  }

  /** Within one property, distinct values have distinct sensor services. */
  ghost predicate DistinctSensors(sensors: map<string, map<string, nat>>) {
    forall p, v1, v2 :: p in sensors && v1 in sensors[p] && v2 in sensors[p] && v1 != v2 ==>
      sensors[p][v1] != sensors[p][v2]
  }

  lemma SensorNameInjective(p: string, v1: string, v2: string)
    requires SensorName(p, v1) == SensorName(p, v2)
    ensures v1 == v2
  {
    assert v1 == SensorName(p, v1)[|p| + 1..];
    assert v2 == SensorName(p, v2)[|p| + 1..];
  }

  /** Every constructed accessory has one sensor service per value of a
      property: two values never share a service, since each sensor is the
      service found under its own `${property}.${value}` name. */
  lemma ConstructedSensorsDistinct(acc: Accessory, d: Device, atvId: Option<string>)
    requires WellFormed(acc) && Find(acc.services, ByKind(AccessoryInformation)).Some?
    ensures DistinctSensors(Construct(acc, d, atvId).value.sensors)
  {
    var r := Construct(acc, d, atvId).value;
    LoggedSensorsDistinct(r.acc.services, r.wanted, r.sensors);
  }

  lemma LoggedSensorsDistinct(svcs: seq<Service>, log: seq<Lookup>, sensors: map<string, map<string, nat>>)
    requires UniqueIds(svcs) && Consistent(svcs, log) && SensorsLogged(sensors, log)
    ensures DistinctSensors(sensors)
  {
    forall p, v1, v2 | p in sensors && v1 in sensors[p] && v2 in sensors[p] && sensors[p][v1] == sensors[p][v2]
      ensures v1 == v2
    {
      var k1 := ByName(SensorName(p, v1));
      var k2 := ByName(SensorName(p, v2));
      assert Lookup(k1, sensors[p][v1]) in log;
      assert Lookup(k2, sensors[p][v2]) in log;
      var i1 := Find(svcs, k1).value;
      var i2 := Find(svcs, k2).value;
      assert svcs[i1].id == svcs[i2].id;
      assert i1 == i2;
      SensorNameInjective(p, v1, v2);
    }
  }
}
