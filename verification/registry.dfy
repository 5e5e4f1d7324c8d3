/** The host accessory registry, reduced to what the accessory code relies
    on: an ordered list of service records, lookup of the first service
    answering a key (`getService`), append (`addService`), deletion
    (`removeService`) and a map of characteristic values. */
module Registry {
  import opened Wrappers

  /** Service types the accessory uses. */
  datatype Kind = AccessoryInformation | Switch | MotionSensor

  /** Characteristic types the accessory writes. */
  datatype Characteristic = Manufacturer | Model | SerialNumber | Name | On | MotionDetected

  /** A characteristic value: the on/off and detected flags, or a text. */
  datatype Value = Flag(flag: bool) | Label(text: string)

  /** One service object; `id` stands for its object identity. */
  datatype Service = Service(id: nat, kind: Kind, displayName: Option<string>, subtype: Option<string>)

  /** Address of one characteristic of one service. */
  datatype CharRef = CharRef(service: nat, ch: Characteristic)

  /** The accessory: its services in registry order, every characteristic
      value written so far, and the identity the next created service gets. */
  datatype Accessory = Accessory(services: seq<Service>, values: map<CharRef, Value>, nextId: nat)

  /** What `getService` is asked for: a service type, or a name. */
  datatype Key = ByKind(kind: Kind) | ByName(name: string)

  predicate Matches(s: Service, k: Key) {
    match k
    case ByKind(kind) => s.kind == kind
    case ByName(name) => s.displayName == Some(name)
  }

  function Ids(svcs: seq<Service>): set<nat> {
    set s | s in svcs :: s.id
  }

  ghost predicate UniqueIds(svcs: seq<Service>) {
    forall i, j :: 0 <= i < j < |svcs| ==> svcs[i].id != svcs[j].id
  }

  /** Distinct services are distinct objects, and `nextId` is fresh. */
  ghost predicate WellFormed(a: Accessory) {
    && UniqueIds(a.services)
    && forall s :: s in a.services ==> s.id < a.nextId
  }

  /** Position of the first service answering `k`, as `getService` scans. */
  function Find(svcs: seq<Service>, k: Key): (r: Option<nat>)
    ensures r.Some? ==> r.value < |svcs| && Matches(svcs[r.value], k)
    ensures r.Some? ==> forall j :: 0 <= j < r.value ==> !Matches(svcs[j], k)
    ensures r.None? ==> forall j :: 0 <= j < |svcs| ==> !Matches(svcs[j], k)
  {
    if |svcs| == 0 then None
    else if Matches(svcs[0], k) then Some(0)
    else match Find(svcs[1..], k)
      case None => None
      case Some(i) => Some(i + 1)
  }

  /** Identity of the service `getService(k)` returns, if any. */
  function IdOf(svcs: seq<Service>, k: Key): Option<nat> {
    match Find(svcs, k)
    case Some(i) => Some(svcs[i].id)
    case None => None
  }

  /** `addService`: append a new service object with a fresh identity. */
  function AddService(a: Accessory, kind: Kind, displayName: Option<string>, subtype: Option<string>): (r: Accessory)
    ensures |r.services| == |a.services| + 1 && r.services[..|a.services|] == a.services
    ensures var s := r.services[|a.services|];
      s.kind == kind && s.displayName == displayName && s.subtype == subtype
    ensures WellFormed(a) ==> WellFormed(r) && r.services[|a.services|].id !in Ids(a.services)
    ensures r.values == a.values
  {
    Accessory(a.services + [Service(a.nextId, kind, displayName, subtype)], a.values, a.nextId + 1)
  }

  /** `setCharacteristic` / `updateValue`: write one value. */
  function SetCharacteristic(a: Accessory, id: nat, ch: Characteristic, v: Value): (r: Accessory)
    ensures r.services == a.services && r.nextId == a.nextId
    ensures CharRef(id, ch) in r.values && r.values[CharRef(id, ch)] == v
    ensures forall c :: c in a.values && c != CharRef(id, ch) ==> c in r.values && r.values[c] == a.values[c]
    ensures r.values.Keys == a.values.Keys + {CharRef(id, ch)}
  {
    a.(values := a.values[CharRef(id, ch) := v])
  }

  /** The services whose identity is in `wanted`, in registry order. */
  function Keep(svcs: seq<Service>, wanted: set<nat>): (r: seq<Service>)
    ensures forall s :: s in r <==> s in svcs && s.id in wanted
    ensures |r| <= |svcs|
  {
    if |svcs| == 0 then []
    else if svcs[0].id in wanted then [svcs[0]] + Keep(svcs[1..], wanted)
    else Keep(svcs[1..], wanted)
  }

  /** The services whose identity is NOT in `gone`, in registry order. */
  function Without(svcs: seq<Service>, gone: set<nat>): (r: seq<Service>)
    ensures forall s :: s in r <==> s in svcs && s.id !in gone
  {
    if |svcs| == 0 then []
    else if svcs[0].id in gone then Without(svcs[1..], gone)
    else [svcs[0]] + Without(svcs[1..], gone)
  }

  /** `removeService`: the service object leaves the accessory together
      with its characteristic values. */
  function RemoveService(a: Accessory, s: Service): (r: Accessory)
    ensures forall t :: t in r.services <==> t in a.services && t.id != s.id
    ensures forall c :: c in r.values <==> c in a.values && c.service != s.id
    ensures forall c :: c in r.values ==> r.values[c] == a.values[c]
    ensures r.nextId == a.nextId
  {
    Accessory(Without(a.services, {s.id}),
              map c | c in a.values && c.service != s.id :: a.values[c],
              a.nextId)
  }

  /** Remove each of `victims` in turn, as the constructor's final loop does. */
  function RemoveServices(a: Accessory, victims: seq<Service>): (r: Accessory)
    ensures r.services == Without(a.services, Ids(victims))
    ensures forall c :: c in r.values <==> c in a.values && c.service !in Ids(victims)
    ensures forall c :: c in r.values ==> r.values[c] == a.values[c]
    ensures r.nextId == a.nextId
    decreases |victims|
  {
    if |victims| == 0 then
      WithoutNothing(a.services);
      assert Ids(victims) == {};
      a
    else
      var a1 := RemoveService(a, victims[0]);
      var r := RemoveServices(a1, victims[1..]);
      RemoveStep(a, victims, a1, r);
      r
  }

  lemma RemoveStep(a: Accessory, victims: seq<Service>, a1: Accessory, r: Accessory)
    requires |victims| > 0
    requires a1.services == Without(a.services, {victims[0].id})
    requires forall c :: c in a1.values <==> c in a.values && c.service != victims[0].id
    requires forall c :: c in a1.values ==> a1.values[c] == a.values[c]
    requires r.services == Without(a1.services, Ids(victims[1..]))
    requires forall c :: c in r.values <==> c in a1.values && c.service !in Ids(victims[1..])
    requires forall c :: c in r.values ==> r.values[c] == a1.values[c]
    ensures r.services == Without(a.services, Ids(victims))
    ensures forall c :: c in r.values <==> c in a.values && c.service !in Ids(victims)
    ensures forall c :: c in r.values ==> r.values[c] == a.values[c]
  {
    WithoutTwice(a.services, {victims[0].id}, Ids(victims[1..]));
    assert Ids(victims) == {victims[0].id} + Ids(victims[1..]) by {
      assert victims == [victims[0]] + victims[1..];
    }
  }

  /** The services no longer wanted: `services.filter(x => !wanted.includes(x))`. */
  function Unused(svcs: seq<Service>, wanted: set<nat>): (r: seq<Service>)
    ensures forall s :: s in r <==> s in svcs && s.id !in wanted
  {
    Without(svcs, wanted)
  }

  // ---------------------------------------------------------------------
  // Lemmas about lookup and filtering

  lemma {:induction false} WithoutNothing(svcs: seq<Service>)
    ensures Without(svcs, {}) == svcs
  {
    if |svcs| > 0 {
      WithoutNothing(svcs[1..]);
      assert svcs == [svcs[0]] + svcs[1..];
    }
  }

  lemma {:induction false} WithoutTwice(svcs: seq<Service>, a: set<nat>, b: set<nat>)
    ensures Without(Without(svcs, a), b) == Without(svcs, a + b)
  {
    if |svcs| > 0 {
      WithoutTwice(svcs[1..], a, b);
      if svcs[0].id !in a {
        var w := Without(svcs, a);
        assert w == [svcs[0]] + Without(svcs[1..], a);
        assert w[1..] == Without(svcs[1..], a);
      }
    }
  }

  /** Removing exactly the unused services leaves exactly the wanted ones,
      in their original order. */
  lemma {:induction false} RemoveUnusedKeepsWanted(a: Accessory, wanted: set<nat>)
    ensures RemoveServices(a, Unused(a.services, wanted)).services == Keep(a.services, wanted)
  {
    var victims := Unused(a.services, wanted);
    assert forall s :: s in a.services ==> (s.id in Ids(victims) <==> s.id !in wanted) by {
      forall s | s in a.services
        ensures s.id in Ids(victims) <==> s.id !in wanted
      {
        if s.id in Ids(victims) {
          var t :| t in victims && t.id == s.id;
        }
      }
    }
    WithoutComplement(a.services, Ids(victims), wanted);
  }

  lemma {:induction false} WithoutComplement(svcs: seq<Service>, gone: set<nat>, wanted: set<nat>)
    requires forall s :: s in svcs ==> (s.id in gone <==> s.id !in wanted)
    ensures Without(svcs, gone) == Keep(svcs, wanted)
  {
    if |svcs| > 0 {
      assert forall s :: s in svcs[1..] ==> s in svcs;
      WithoutComplement(svcs[1..], gone, wanted);
    }
  }

  /** Services appended after `x` that are all filtered out leave the
      filter's result as it was on `x`. */
  lemma {:induction false} WithoutDroppedTail(x: seq<Service>, y: seq<Service>, gone: set<nat>)
    requires forall s :: s in y ==> s.id in gone
    ensures Without(x + y, gone) == Without(x, gone)
  {
    if |x| == 0 {
      assert x + y == y;
      assert forall s :: s !in Without(y, gone);
      EmptyIfNoMember(Without(y, gone));
    } else {
      assert (x + y)[0] == x[0] && (x + y)[1..] == x[1..] + y;
      WithoutDroppedTail(x[1..], y, gone);
    }
  }

  /** Keeping every service changes nothing. */
  lemma {:induction false} KeepAll(svcs: seq<Service>, wanted: set<nat>)
    requires forall s :: s in svcs ==> s.id in wanted
    ensures Keep(svcs, wanted) == svcs
  {
    if |svcs| > 0 {
      assert forall s :: s in svcs[1..] ==> s in svcs;
      KeepAll(svcs[1..], wanted);
      assert svcs == [svcs[0]] + svcs[1..];
    }
  }

  /** Filtering keeps identities distinct. */
  lemma {:induction false} KeepUnique(svcs: seq<Service>, wanted: set<nat>)
    requires UniqueIds(svcs)
    ensures UniqueIds(Keep(svcs, wanted))
  {
    if |svcs| > 0 {
      KeepUnique(svcs[1..], wanted);
      var rest := Keep(svcs[1..], wanted);
      if svcs[0].id in wanted {
        var r := [svcs[0]] + rest;
        forall i, j | 0 <= i < j < |r|
          ensures r[i].id != r[j].id
        {
          if i == 0 {
            assert r[j] in rest;
            assert r[j] in svcs[1..];
            var k :| 0 <= k < |svcs[1..]| && svcs[1..][k] == r[j];
            assert svcs[k + 1] == r[j];
          } else {
            assert r[i] == rest[i - 1] && r[j] == rest[j - 1];
          }
        }
      }
    }
  }

  /** A first match already present is not disturbed by appending. */
  lemma FindAppend(x: seq<Service>, y: seq<Service>, k: Key)
    requires Find(x, k).Some?
    ensures Find(x + y, k) == Find(x, k)
    ensures IdOf(x + y, k) == IdOf(x, k)
  {
    var i := Find(x, k).value;
    assert (x + y)[i] == x[i];
    var r := Find(x + y, k);
  }

  /** A first match whose service is kept is still the first match after
      filtering. */
  lemma {:induction false} FindKeep(svcs: seq<Service>, wanted: set<nat>, k: Key)
    requires Find(svcs, k).Some? && svcs[Find(svcs, k).value].id in wanted
    ensures IdOf(Keep(svcs, wanted), k) == IdOf(svcs, k)
    decreases |svcs|
  {
    var kept := Keep(svcs, wanted);
    var tail := Keep(svcs[1..], wanted);
    if Matches(svcs[0], k) {
      assert kept == [svcs[0]] + tail;
      assert Find(kept, k) == Some(0);
    } else {
      var i := Find(svcs[1..], k).value;
      assert Find(svcs, k) == Some(i + 1);
      assert svcs[1..][i] == svcs[i + 1];
      FindKeep(svcs[1..], wanted, k);
      if svcs[0].id in wanted {
        assert kept == [svcs[0]] + tail;
        assert kept[1..] == tail;
      } else {
        assert kept == tail;
      }
    }
  }

  /** Appending a service that answers a key nothing answered yet makes
      it that key's first match. */
  lemma FindAppendNew(x: seq<Service>, s: Service, k: Key)
    requires Find(x, k).None? && Matches(s, k)
    ensures Find(x + [s], k) == Some(|x|)
    ensures IdOf(x + [s], k) == Some(s.id)
  {
    assert (x + [s])[|x|] == s;
  }

  /** A key nothing in a registry answers is not answered by its prefix. */
  lemma FindPrefixNone(x: seq<Service>, y: seq<Service>, k: Key)
    requires Find(x + y, k).None?
    ensures Find(x, k).None?
  {
    forall j | 0 <= j < |x|
      ensures !Matches(x[j], k)
    {
      assert x[j] == (x + y)[j];
    }
  }

  lemma HeadIn<T>(s: seq<T>)
    ensures |s| > 0 ==> s[0] in s
  {
  }

  /** A sequence with no member is empty. */
  lemma EmptyIfNoMember<T>(s: seq<T>)
    requires forall x :: x !in s
    ensures s == []
  {
    HeadIn(s);
  }
}
