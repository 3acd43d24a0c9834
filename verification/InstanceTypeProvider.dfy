/** The instance-type provider as one caller uses it: stock responses are folded into maps, the catalogue is
    computed in nested loops, and the list is cached under its key. */
module InstanceTypeProvider {
  import opened TtlCache
  import opened Capacity
  import opened Catalogue
  import opened ListProtocol
  import Pricing
  import UO = UnavailableOfferings

  datatype Result<+T> = Ok(value: T) | Err(message: string)

  // ----- stock responses

  datatype Supported = Supported(instanceType: string, status: string)

  datatype Resource = Resource(supported: Option<seq<Supported>>)

  datatype ZoneStock = ZoneStock(zone: string, status: string, resources: Option<seq<Resource>>)

  predicate InStock(status: string) {
    status == "WithStock" || status == "ClosedWithStock"
  }

  ghost predicate ShowsStock(status: string) {
    status in {"WithStock", "ClosedWithStock"}
  }

  ghost predicate Supports(s: Supported, instanceType: string) {
    s.instanceType == instanceType && ShowsStock(s.status)
  }

  ghost predicate SupportShows(supported: seq<Supported>, instanceType: string) {
    exists k :: 0 <= k < |supported| && Supports(supported[k], instanceType)
  }

  ghost predicate ResourcesShow(resources: seq<Resource>, instanceType: string) {
    exists j :: 0 <= j < |resources| && resources[j].supported.Some? && SupportShows(resources[j].supported.value, instanceType)
  }

  /** The resources of a zone show stock of the type, whatever the zone's own status. */
  ghost predicate ResourcesOf(az: ZoneStock, instanceType: string, zone: string) {
    az.zone == zone && az.resources.Some? && ResourcesShow(az.resources.value, instanceType)
  }

  /** One zone of the response shows stock of the type. */
  ghost predicate ZoneShows(az: ZoneStock, instanceType: string, zone: string) {
    ShowsStock(az.status) && ResourcesOf(az, instanceType, zone)
  }

  ghost predicate ResponseShows(zones: seq<ZoneStock>, instanceType: string, zone: string) {
    exists i :: 0 <= i < |zones| && ZoneShows(zones[i], instanceType, zone)
  }

  /** No type is listed without a zone. */
  ghost predicate NoEmptyZones(stock: Stock) {
    forall t | t in stock :: stock[t] != {}
  }

  method ProcessSupported(supported: seq<Supported>, zone: string, stock: Stock) returns (r: Stock)
    ensures NoEmptyZones(stock) ==> NoEmptyZones(r)
    ensures forall t, z :: HasStock(r, t, z) <==> HasStock(stock, t, z) || (z == zone && SupportShows(supported, t))
  {
    r := stock;
    for k := 0 to |supported|
      invariant NoEmptyZones(stock) ==> NoEmptyZones(r)
      invariant forall t, z :: HasStock(r, t, z) <==> HasStock(stock, t, z) || (z == zone && SupportShows(supported[..k], t))
    {
      assert forall t :: SupportShows(supported[..k + 1], t) <==>
                         SupportShows(supported[..k], t) || Supports(supported[k], t);
      if InStock(supported[k].status) {
        InsertedStock(r, supported[k].instanceType, zone);
        r := Insert(r, supported[k].instanceType, zone);
      }
    }
    assert supported[..|supported|] == supported;
  }

  method ProcessAvailableResources(az: ZoneStock, stock: Stock) returns (r: Stock)
    ensures NoEmptyZones(stock) ==> NoEmptyZones(r)
    ensures forall t, z :: HasStock(r, t, z) <==> HasStock(stock, t, z) || ResourcesOf(az, t, z)
  {
    r := stock;
    if az.resources.Some? {
      var resources := az.resources.value;
      for j := 0 to |resources|
        invariant NoEmptyZones(stock) ==> NoEmptyZones(r)
        invariant forall t, z ::
                    HasStock(r, t, z) <==> HasStock(stock, t, z) || (z == az.zone && ResourcesShow(resources[..j], t))
      {
        assert forall t :: ResourcesShow(resources[..j + 1], t) <==>
                 || ResourcesShow(resources[..j], t)
                 || (resources[j].supported.Some? && SupportShows(resources[j].supported.value, t));
        if resources[j].supported.Some? {
          r := ProcessSupported(resources[j].supported.value, az.zone, r);
        }
      }
      assert resources[..|resources|] == resources;
    }
  }

  /** The stock map holds exactly the pairs the response shows stock for; a missing or empty response is an error. */
  method ProcessResponse(response: Option<seq<ZoneStock>>) returns (r: Result<Stock>)
    ensures r.Ok? <==> response.Some? && response.value != []
    ensures r.Ok? ==> NoEmptyZones(r.value)
    ensures r.Ok? ==> forall t, z :: HasStock(r.value, t, z) <==> ResponseShows(response.value, t, z)
  {
    if response.None? || |response.value| == 0 {
      return Err("no instance types returned");
    }
    var zones, stock := response.value, map[];
    for i := 0 to |zones|
      invariant NoEmptyZones(stock)
      invariant forall t, z :: HasStock(stock, t, z) <==> ResponseShows(zones[..i], t, z)
    {
      assert forall t, z ::
               ResponseShows(zones[..i + 1], t, z) <==> ResponseShows(zones[..i], t, z) || ZoneShows(zones[i], t, z);
      if InStock(zones[i].status) {
        stock := ProcessAvailableResources(zones[i], stock);
      }
    }
    assert zones[..|zones|] == zones;
    r := Ok(stock);
  }

  /** Two stock maps without empty entries that hold the same pairs are equal, so the response determines the map. */
  lemma StockDetermined(a: Stock, b: Stock)
    requires NoEmptyZones(a) && NoEmptyZones(b)
    requires forall t, z :: HasStock(a, t, z) <==> HasStock(b, t, z)
    ensures a == b
  {
    forall t ensures t in a <==> t in b {
      if t in a {
        var z :| z in a[t];
        assert HasStock(a, t, z);
      }
      if t in b {
        var z :| z in b[t];
        assert HasStock(b, t, z);
      }
    }
    forall t | t in a ensures a[t] == b[t] {
      forall z ensures z in a[t] <==> z in b[t] {
        assert HasStock(a, t, z) <==> HasStock(b, t, z);
      }
    }
  }

  // ----- one computation of the list

  datatype ZoneData = ZoneData(zone: string, available: bool, spotAvailable: bool)

  datatype ListedOffering = ListedOffering(id: OfferingId, price: real, available: bool)

  datatype ListedType = ListedType(
    info: InstanceInfo, architecture: string, zones: set<string>, capacityTypes: set<CapacityType>,
    capacity: Resources, offerings: seq<ListedOffering>)

  /** The list holds each offering of the map once and nothing else. */
  ghost predicate Represents(offerings: seq<ListedOffering>, m: map<OfferingId, Offering>) {
    && (forall a, b | 0 <= a < b < |offerings| :: offerings[a].id != offerings[b].id)
    && (forall a | 0 <= a < |offerings| ::
          offerings[a].id in m && m[offerings[a].id] == Offering(offerings[a].price, offerings[a].available))
    && (forall id | id in m :: Has(offerings, id))
  }

  ghost predicate Has(offerings: seq<ListedOffering>, id: OfferingId) {
    exists a :: 0 <= a < |offerings| && offerings[a].id == id
  }

  /** What the computation reads besides the discovered types. */
  datatype Inputs = Inputs(
    onDemand: Stock, spot: Stock, vSwitchZones: set<string>, kc: KubeletConfiguration, disk: Option<int>, cni: Cni, env: Env)

  function ZoneDataOf(inputs: Inputs, instanceType: string, zone: string): ZoneData {
    ZoneData(zone, HasStock(inputs.onDemand, instanceType, zone) && zone in inputs.vSwitchZones,
             HasStock(inputs.spot, instanceType, zone) && zone in inputs.vSwitchZones)
  }

  ghost function ExpectedOfferings(
    inputs: Inputs, instanceType: string, zones: set<string>, marked: set<string>): map<OfferingId, Offering>
  {
    map id | id in OfferingIds(zones) && Price(inputs.env, instanceType, id).Some? ::
      Offering(Price(inputs.env, instanceType, id).value,
               Launchable(instanceType, id, inputs.onDemand, inputs.spot, inputs.vSwitchZones, marked))
  }

  ghost function LiveKeys(marks: UO.OfferingMarks, now: nat): set<string>
    reads marks
  {
    set k | k in marks.items && !ExpiredAt(marks.items[k], now)
  }

  /** An offering without a price is not offered at all. */
  ghost function Put(
    m: map<OfferingId, Offering>, id: OfferingId, price: Option<real>, available: bool): map<OfferingId, Offering>
  {
    if price.Some? then m[id := Offering(price.value, available)] else m
  }

  method AppendOffering(
    offerings: seq<ListedOffering>, ghost m: map<OfferingId, Offering>, id: OfferingId, price: Option<real>, available: bool)
    returns (r: seq<ListedOffering>)
    requires Represents(offerings, m) && id !in m
    ensures Represents(r, Put(m, id, price, available))
  {
    r := offerings;
    if price.Some? {
      r := r + [ListedOffering(id, price.value, available)];
      forall id' | id' in m[id := Offering(price.value, available)] ensures Has(r, id') {
        if id' == id {
          assert r[|offerings|].id == id;
        } else {
          var a :| 0 <= a < |offerings| && offerings[a].id == id';
          assert r[a].id == id';
        }
      }
    }
  }

  /** The two offerings of one zone. */
  method AddZone(
    instanceType: string, offerings: seq<ListedOffering>, ghost m: map<OfferingId, Offering>, data: ZoneData,
    inputs: Inputs, marks: UO.OfferingMarks, now: nat)
    returns (r: seq<ListedOffering>)
    requires Represents(offerings, m)
    requires data == ZoneDataOf(inputs, instanceType, data.zone)
    requires OfferingId(data.zone, OnDemand) !in m && OfferingId(data.zone, Spot) !in m
    ensures Represents(r, m + ExpectedOfferings(inputs, instanceType, {data.zone}, LiveKeys(marks, now)))
  {
    var od, sp := OfferingId(data.zone, OnDemand), OfferingId(data.zone, Spot);
    var odPrice, spotPrice := Price(inputs.env, instanceType, od), Price(inputs.env, instanceType, sp);
    var odMarked := marks.IsUnavailable(instanceType, od, now);
    r := AppendOffering(offerings, m, od, odPrice, !odMarked && data.available);
    var spotMarked := marks.IsUnavailable(instanceType, sp, now);
    r := AppendOffering(r, Put(m, od, odPrice, !odMarked && data.available), sp, spotPrice, !spotMarked && data.spotAvailable);
    TwoOfferings(m, inputs, instanceType, data.zone, LiveKeys(marks, now));
  }

  /** The expected offerings of one zone are its on-demand and its spot offering. */
  lemma TwoOfferings(m: map<OfferingId, Offering>, inputs: Inputs, instanceType: string, zone: string, marked: set<string>)
    ensures var od, sp := OfferingId(zone, OnDemand), OfferingId(zone, Spot);
            var data := ZoneDataOf(inputs, instanceType, zone);
            m + ExpectedOfferings(inputs, instanceType, {zone}, marked)
            == Put(Put(m, od, Price(inputs.env, instanceType, od), MarkKey(instanceType, od) !in marked && data.available),
                   sp, Price(inputs.env, instanceType, sp), MarkKey(instanceType, sp) !in marked && data.spotAvailable)
  {
    OneZone(zone);
  }

  lemma OneZone(zone: string)
    ensures OfferingIds({zone}) == {OfferingId(zone, OnDemand), OfferingId(zone, Spot)}
  {
  }

  /** One offering for each zone and capacity type with a price, available exactly when it can be launched. */
  method CreateOfferings(instanceType: string, zones: seq<string>, inputs: Inputs, marks: UO.OfferingMarks, now: nat)
    returns (offerings: seq<ListedOffering>)
    requires forall a, b | 0 <= a < b < |zones| :: zones[a] != zones[b]
    ensures Represents(offerings, ExpectedOfferings(inputs, instanceType, ToSet(zones), LiveKeys(marks, now)))
  {
    ghost var live := LiveKeys(marks, now);
    offerings := [];
    for n := 0 to |zones|
      invariant Represents(offerings, ExpectedOfferings(inputs, instanceType, ToSet(zones[..n]), live))
    {
      ghost var seen := ToSet(zones[..n]);
      assert zones[n] !in seen;
      NewZone(inputs, instanceType, seen, zones[n], live);
      assert ToSet(zones[..n + 1]) == seen + {zones[n]};
      offerings := AddZone(instanceType, offerings, ExpectedOfferings(inputs, instanceType, seen, live),
                           ZoneDataOf(inputs, instanceType, zones[n]), inputs, marks, now);
    }
    assert zones[..|zones|] == zones;
  }

  /** A new zone adds its own offerings. */
  lemma NewZone(inputs: Inputs, instanceType: string, zones: set<string>, zone: string, marked: set<string>)
    requires zone !in zones
    ensures var m := ExpectedOfferings(inputs, instanceType, zones, marked);
            && OfferingId(zone, OnDemand) !in m && OfferingId(zone, Spot) !in m
            && ExpectedOfferings(inputs, instanceType, zones + {zone}, marked)
               == m + ExpectedOfferings(inputs, instanceType, {zone}, marked)
  {
    assert OfferingIds(zones + {zone}) == OfferingIds(zones) + OfferingIds({zone});
  }

  // ----- the whole list

  /** The reads of an undisturbed computation, and the catalogue it builds. */
  ghost function ReadsOf(inputs: Inputs, prices: Prices, marked: set<string>): Reads {
    Reads(inputs.onDemand, inputs.spot, inputs.disk, inputs.cni, prices, marked)
  }

  ghost function BuildFrom(infos: seq<InstanceInfo>, inputs: Inputs, prices: Prices, marked: set<string>): Listing {
    Build(ToSet(infos), AllZones(inputs.onDemand), inputs.vSwitchZones, inputs.kc, ReadsOf(inputs, prices, marked))
  }

  /** The expected offerings of a type over every zone are those of the catalogue. */
  lemma ExpectedInCatalogue(inputs: Inputs, instanceType: string, marked: set<string>, prices: Prices)
    requires forall id | id in OfferingIds(AllZones(inputs.onDemand)) :: Quoted(inputs.env, prices, instanceType, id)
    ensures ExpectedOfferings(inputs, instanceType, AllZones(inputs.onDemand), marked)
            == OfferingsOf(instanceType, AllZones(inputs.onDemand), inputs.vSwitchZones, ReadsOf(inputs, prices, marked))
  {
    forall id | id in OfferingIds(AllZones(inputs.onDemand)) ensures Quoted(inputs.env, prices, instanceType, id) {}
  }

  ghost predicate Quoted(env: Env, prices: Prices, instanceType: string, id: OfferingId) {
    if Price(env, instanceType, id).Some?
    then (instanceType, id) in prices && prices[(instanceType, id)] == Price(env, instanceType, id).value
    else (instanceType, id) !in prices
  }

  /** A listed type matches what it was computed from. */
  ghost predicate Matches(t: ListedType, i: InstanceInfo, inputs: Inputs, marked: set<string>) {
    && t.info == i && t.architecture == ArchitectureOf(i.architecture)
    && t.capacity == ComputeCapacity(i, inputs.kc, inputs.disk, inputs.cni)
    && Represents(t.offerings, ExpectedOfferings(inputs, i.id, AllZones(inputs.onDemand), marked))
    && t.zones == (set a | 0 <= a < |t.offerings| && t.offerings[a].available :: t.offerings[a].id.zone)
    && t.capacityTypes == (set a | 0 <= a < |t.offerings| && t.offerings[a].available :: t.offerings[a].id.capacityType)
  }

  /** The discovered types that have a priced offering, in order. */
  ghost function Priced(infos: seq<InstanceInfo>, inputs: Inputs, marked: set<string>): seq<InstanceInfo> {
    if infos == [] then []
    else
      var i := infos[|infos| - 1];
      Priced(infos[..|infos| - 1], inputs, marked)
      + (if ExpectedOfferings(inputs, i.id, AllZones(inputs.onDemand), marked) == map[] then [] else [i])
  }

  ghost predicate Listed(types: seq<ListedType>, infos: seq<InstanceInfo>, inputs: Inputs, marked: set<string>) {
    && |types| == |Priced(infos, inputs, marked)|
    && forall n | 0 <= n < |types| :: Matches(types[n], Priced(infos, inputs, marked)[n], inputs, marked)
  }

  /** Union of the zones of all types, in whatever order the map is traversed. */
  method UnionOfZones(onDemand: Stock) returns (zones: set<string>)
    ensures zones == AllZones(onDemand)
  {
    zones := {};
    var todo := onDemand.Keys;
    while todo != {}
      invariant todo <= onDemand.Keys
      invariant zones == set t, z | t in onDemand && t !in todo && z in onDemand[t] :: z
      decreases todo
    {
      var t :| t in todo;
      zones, todo := zones + onDemand[t], todo - {t};
    }
  }

  /** Some enumeration of a set. */
  method Enumerate(s: set<string>) returns (r: seq<string>)
    ensures ToSet(r) == s
    ensures forall a, b | 0 <= a < b < |r| :: r[a] != r[b]
  {
    r := [];
    var todo := s;
    while todo != {}
      invariant todo <= s && ToSet(r) == s - todo
      invariant forall a, b | 0 <= a < b < |r| :: r[a] != r[b]
      decreases todo
    {
      var x :| x in todo;
      assert x !in ToSet(r) && ToSet(r + [x]) == ToSet(r) + {x};
      r, todo := r + [x], todo - {x};
    }
  }

  method NewInstanceType(i: InstanceInfo, offerings: seq<ListedOffering>, inputs: Inputs) returns (t: ListedType)
    ensures t.info == i && t.architecture == ArchitectureOf(i.architecture) && t.offerings == offerings
    ensures t.architecture == (if i.architecture == "ARM" then "arm64" else "amd64")
    ensures t.capacity == ComputeCapacity(i, inputs.kc, inputs.disk, inputs.cni)
    ensures t.zones == (set a | 0 <= a < |offerings| && offerings[a].available :: offerings[a].id.zone)
    ensures t.capacityTypes == (set a | 0 <= a < |offerings| && offerings[a].available :: offerings[a].id.capacityType)
  {
    var zones, capacityTypes := {}, {};
    for n := 0 to |offerings|
      invariant zones == (set a | 0 <= a < n && offerings[a].available :: offerings[a].id.zone)
      invariant capacityTypes == (set a | 0 <= a < n && offerings[a].available :: offerings[a].id.capacityType)
    {
      if offerings[n].available {
        zones, capacityTypes := zones + {offerings[n].id.zone}, capacityTypes + {offerings[n].id.capacityType};
      }
    }
    t := ListedType(i, ArchitectureOf(i.architecture), zones, capacityTypes,
                    ComputeCapacity(i, inputs.kc, inputs.disk, inputs.cni), offerings);
  }

  /** The list, type by type; a type without offerings is left out. */
  method ComputeList(
    infos: seq<InstanceInfo>, inputs: Inputs, marks: UO.OfferingMarks, now: nat)
    returns (types: seq<ListedType>)
    ensures Listed(types, infos, inputs, LiveKeys(marks, now))
  {
    ghost var live := LiveKeys(marks, now);
    var all := UnionOfZones(inputs.onDemand);
    types := [];
    for n := 0 to |infos|
      invariant Listed(types, infos[..n], inputs, live)
    {
      var zones := Enumerate(all);
      var offerings := CreateOfferings(infos[n].id, zones, inputs, marks, now);
      ghost var expected := ExpectedOfferings(inputs, infos[n].id, all, live);
      NoneExactlyWhenEmpty(offerings, expected);
      assert infos[..n + 1][..n] == infos[..n];
      if offerings != [] {
        var t := NewInstanceType(infos[n], offerings, inputs);
        types := types + [t];
      }
    }
    assert infos[..|infos|] == infos;
  }

  lemma NoneExactlyWhenEmpty(offerings: seq<ListedOffering>, m: map<OfferingId, Offering>)
    requires Represents(offerings, m)
    ensures offerings == [] <==> m == map[]
  {
    if offerings != [] {
      assert offerings[0].id in m;
    } else {
      assert forall id | id in m :: Has(offerings, id);
      assert m.Keys == {};
    }
  }

  /** The price the tables have: of the type for on-demand, of the type in the zone for spot. */
  ghost function TablePrice(prices: Pricing.Tables, instanceType: string, id: OfferingId): Option<real> {
    if id.capacityType.OnDemand? then Pricing.OnDemandPrice(prices, instanceType)
    else Pricing.SpotPrice(prices, instanceType, id.zone)
  }

  /** End to end: from two stock responses, prices, marks and vSwitch zones to what the list offers. A listed
      type has at most one offering for a zone and capacity type; it has one exactly when some type has
      on-demand stock in that zone and the offering has a price; and the offering is available exactly when
      the response for its capacity type shows stock of the type there, a vSwitch covers the zone and no live
      mark is on it. */
  lemma ListFromResponses(
    odZones: seq<ZoneStock>, spotZones: seq<ZoneStock>, types: seq<ListedType>, infos: seq<InstanceInfo>,
    inputs: Inputs, marked: set<string>, n: nat, id: OfferingId)
    requires forall t, z :: HasStock(inputs.onDemand, t, z) <==> ResponseShows(odZones, t, z)
    requires forall t, z :: HasStock(inputs.spot, t, z) <==> ResponseShows(spotZones, t, z)
    requires Listed(types, infos, inputs, marked) && n < |types|
    ensures forall a, b | 0 <= a < b < |types[n].offerings| :: types[n].offerings[a].id != types[n].offerings[b].id
    ensures Has(types[n].offerings, id) <==>
              (exists t :: ResponseShows(odZones, t, id.zone)) && TablePrice(inputs.env.prices, types[n].info.id, id).Some?
    ensures forall a | 0 <= a < |types[n].offerings| && types[n].offerings[a].id == id ::
              && Some(types[n].offerings[a].price) == TablePrice(inputs.env.prices, types[n].info.id, id)
              && (types[n].offerings[a].available <==>
                    && ResponseShows(if id.capacityType.Spot? then spotZones else odZones, types[n].info.id, id.zone)
                    && id.zone in inputs.vSwitchZones
                    && MarkKey(types[n].info.id, id) !in marked)
    ensures id.zone in types[n].zones <==>
              exists a :: 0 <= a < |types[n].offerings| && types[n].offerings[a].available
                          && types[n].offerings[a].id.zone == id.zone
    ensures id.capacityType in types[n].capacityTypes <==>
              exists a :: 0 <= a < |types[n].offerings| && types[n].offerings[a].available
                          && types[n].offerings[a].id.capacityType == id.capacityType
  {
    var t := types[n];
    var expected := ExpectedOfferings(inputs, t.info.id, AllZones(inputs.onDemand), marked);
    assert Matches(t, Priced(infos, inputs, marked)[n], inputs, marked);
    assert Represents(t.offerings, expected);
    assert Has(t.offerings, id) <==> id in expected;
    assert id == OfferingId(id.zone, id.capacityType) && (id.capacityType.OnDemand? || id.capacityType.Spot?);
    assert id in OfferingIds(AllZones(inputs.onDemand)) <==> id.zone in AllZones(inputs.onDemand);
    ZoneShown(odZones, inputs.onDemand, id.zone);
  }

  lemma ZoneShown(zones: seq<ZoneStock>, stock: Stock, zone: string)
    requires forall t, z :: HasStock(stock, t, z) <==> ResponseShows(zones, t, z)
    ensures zone in AllZones(stock) <==> exists t :: ResponseShows(zones, t, zone)
  {
    if zone in AllZones(stock) {
      var t :| t in stock && zone in stock[t];
      assert HasStock(stock, t, zone);
    }
    if exists t :: ResponseShows(zones, t, zone) {
      var t :| ResponseShows(zones, t, zone);
      assert HasStock(stock, t, zone);
    }
  }

  /** The listed types are the catalogue, up to the order of types and offerings. */
  ghost predicate Denotes(types: seq<ListedType>, l: Listing) {
    && (forall n | 0 <= n < |types| :: types[n].info in l && SameType(types[n], l[types[n].info]))
    && (forall i | i in l :: exists n :: 0 <= n < |types| && types[n].info == i)
  }

  ghost predicate SameType(t: ListedType, u: InstanceType) {
    t.info.id == u.name && t.architecture == u.architecture && t.capacity == u.capacity && Represents(t.offerings, u.offerings)
  }

  /** The loops compute the catalogue of the list protocol: they refine `Build`. */
  lemma LoopsRefineBuild(types: seq<ListedType>, infos: seq<InstanceInfo>, inputs: Inputs, marked: set<string>, prices: Prices)
    requires Listed(types, infos, inputs, marked)
    requires forall i, id | i in infos && id in OfferingIds(AllZones(inputs.onDemand)) :: Quoted(inputs.env, prices, i.id, id)
    ensures Denotes(types, BuildFrom(infos, inputs, prices, marked))
  {
    var l := BuildFrom(infos, inputs, prices, marked);
    var priced := Priced(infos, inputs, marked);
    PricedElements(infos, inputs, marked);
    forall n | 0 <= n < |types| ensures types[n].info in l && SameType(types[n], l[types[n].info]) {
      assert Matches(types[n], priced[n], inputs, marked);
      assert priced[n] in priced;
      TypeRefines(types[n], priced[n], infos, inputs, marked, prices);
    }
    forall i | i in l ensures exists n :: 0 <= n < |types| && types[n].info == i {
      TypeListed(i, infos, inputs, marked, prices);
      var n :| 0 <= n < |priced| && priced[n] == i;
      assert Matches(types[n], priced[n], inputs, marked);
    }
  }

  lemma TypeListed(i: InstanceInfo, infos: seq<InstanceInfo>, inputs: Inputs, marked: set<string>, prices: Prices)
    requires forall id | id in OfferingIds(AllZones(inputs.onDemand)) :: Quoted(inputs.env, prices, i.id, id)
    requires i in infos
    ensures i in BuildFrom(infos, inputs, prices, marked)
            <==> i in Priced(infos, inputs, marked)
  {
    ExpectedInCatalogue(inputs, i.id, marked, prices);
    PricedElements(infos, inputs, marked);
  }

  lemma TypeRefines(
    t: ListedType, i: InstanceInfo, infos: seq<InstanceInfo>, inputs: Inputs, marked: set<string>, prices: Prices)
    requires Matches(t, i, inputs, marked) && i in infos && i in Priced(infos, inputs, marked)
    requires forall id | id in OfferingIds(AllZones(inputs.onDemand)) :: Quoted(inputs.env, prices, i.id, id)
    ensures var l := BuildFrom(infos, inputs, prices, marked);
            i in l && SameType(t, l[i])
  {
    TypeListed(i, infos, inputs, marked, prices);
    ExpectedInCatalogue(inputs, i.id, marked, prices);
  }

  /** The listed types are in discovered order. */
  lemma {:induction false} PricedInOrder(infos: seq<InstanceInfo>, inputs: Inputs, marked: set<string>) returns (at: seq<nat>)
    ensures PickedAt(Priced(infos, inputs, marked), infos, at)
  {
    at := [];
    if infos != [] {
      var last := |infos| - 1;
      at := PricedInOrder(infos[..last], inputs, marked);
      if ExpectedOfferings(inputs, infos[last].id, AllZones(inputs.onDemand), marked) != map[] {
        at := at + [last];
      }
    }
  }

  lemma {:induction false} EligibleInOrder(infos: seq<InstanceInfo>, cni: Cni) returns (at: seq<nat>)
    ensures PickedAt(EligibleTypes(infos, cni), infos, at)
  {
    at := [];
    if infos != [] {
      var last := |infos| - 1;
      at := EligibleInOrder(infos[..last], cni);
      if Eligible(infos[last], cni) {
        at := at + [last];
      }
    }
  }

  /** The part holds the elements of the whole at these positions, in order. */
  ghost predicate PickedAt(part: seq<InstanceInfo>, whole: seq<InstanceInfo>, at: seq<nat>) {
    && |at| == |part| && (forall j, k | 0 <= j < k < |at| :: at[j] < at[k])
    && forall k | 0 <= k < |at| :: at[k] < |whole| && part[k] == whole[at[k]]
  }

  lemma {:induction false} PricedElements(infos: seq<InstanceInfo>, inputs: Inputs, marked: set<string>)
    ensures forall i :: i in Priced(infos, inputs, marked) <==>
                        i in infos && ExpectedOfferings(inputs, i.id, AllZones(inputs.onDemand), marked) != map[]
  {
    if infos != [] {
      var last := |infos| - 1;
      PricedElements(infos[..last], inputs, marked);
      assert infos == infos[..last] + [infos[last]];
    }
  }

  // ----- the provider

  class Provider {
    const marks: UO.OfferingMarks
    var infos: seq<InstanceInfo>
    var typesSeq: nat
    var typesSeen: Option<Item<set<InstanceInfo>>>
    var onDemand: Stock
    var stockSeq: nat
    var stockSeen: Option<Item<Stock>>
    var spot: Stock
    var cached: map<Key, Item<seq<ListedType>>>

    ghost function Found(): Discovery
      reads this
    {
      Discovery(infos, typesSeq, typesSeen, onDemand, stockSeq, stockSeen)
    }

    constructor (marks: UO.OfferingMarks)
      ensures this.marks == marks && Found() == NOTHING_FOUND && spot == map[] && cached == map[]
    {
      this.marks := marks;
      infos, typesSeq, typesSeen, onDemand, stockSeq, stockSeen := [], 0, None, map[], 0, None;
      spot, cached := map[], map[];
    }

    /** A failed call leaves the discovered types as they were. */
    method UpdateInstanceTypes(response: Option<seq<InstanceInfo>>, cni: Option<Cni>, now: nat) returns (ok: bool)
      modifies this`infos, this`typesSeq, this`typesSeen
      ensures ok <==> response.Some? && cni.Some?
      ensures Found() == if ok then WithTypes(old(Found()), EligibleTypes(response.value, cni.value), now) else old(Found())
    {
      if response.None? || cni.None? {
        return false;
      }
      var types := [];
      for n := 0 to |response.value|
        invariant types == EligibleTypes(response.value[..n], cni.value)
        invariant Found() == old(Found())
      {
        assert response.value[..n + 1][..n] == response.value[..n];
        if Eligible(response.value[n], cni.value) {
          types := types + [response.value[n]];
        }
      }
      assert response.value[..|response.value|] == response.value;
      if HasChanged(typesSeen, ToSet(types), now) {
        typesSeen := Some(Item(ToSet(types), now + MONITOR_TTL));
        typesSeq := typesSeq + 1;
      }
      infos := types;
      ok := true;
    }

    /** The on-demand answer takes effect even when the spot call that follows fails. */
    method UpdateInstanceTypeOfferings(odResponse: Option<seq<ZoneStock>>, spotResponse: Option<seq<ZoneStock>>, now: nat)
      returns (ok: bool)
      modifies this`onDemand, this`stockSeq, this`stockSeen, this`spot
      ensures ok <==> Answered(odResponse) && Answered(spotResponse)
      ensures !Answered(odResponse) ==> Found() == old(Found())
      ensures Answered(odResponse) ==>
                && NoEmptyZones(onDemand)
                && (forall t, z :: HasStock(onDemand, t, z) <==> ResponseShows(odResponse.value, t, z))
                && Found() == WithStock(old(Found()), onDemand, now)
      ensures if ok then NoEmptyZones(spot) && forall t, z :: HasStock(spot, t, z) <==> ResponseShows(spotResponse.value, t, z)
              else spot == old(spot)
    {
      var od := ProcessResponse(odResponse);
      if od.Err? {
        return false;
      }
      if HasChanged(stockSeen, od.value, now) {
        stockSeen := Some(Item(od.value, now + MONITOR_TTL));
        stockSeq := stockSeq + 1;
      }
      onDemand := od.value;
      var sp := ProcessResponse(spotResponse);
      if sp.Err? {
        return false;
      }
      spot := sp.value;
      ok := true;
    }

    /** Neither the counters, nor the monitors, nor the spot stock are reset. */
    method Reset()
      modifies this`infos, this`onDemand, this`cached
      ensures Found() == old(Found()).(infos := [], onDemand := map[]) && cached == map[]
    {
      infos, onDemand, cached := [], map[], map[];
    }

    /** A live entry under the current key is returned as it is; otherwise the list is computed and stored. */
    method List(request: Request, quotes: Env, cni: Option<Cni>, now: nat) returns (r: Result<seq<ListedType>>)
      modifies this`cached
      ensures var key := KeyOf(Found(), marks.seqNum, request);
              if infos == [] || onDemand == map[] || spot == map[] || request.vSwitchZones == {}
              then !Valid(Found(), spot, request) && r.Err? && cached == old(cached)
              else if !Valid(Found(), spot, request) then false
              else if Live(old(cached), key, now) then r == Ok(old(cached)[key].value) && cached == old(cached)
              else if cni.None? then r.Err? && cached == old(cached)
              else
                && r.Ok? && cached == old(cached)[key := Item(r.value, now + 300)]
                && Listed(r.value, infos,
                          Inputs(onDemand, spot, request.vSwitchZones, request.kc, request.disk, cni.value, quotes),
                          LiveKeys(marks, now))
    {
      if infos == [] || onDemand == map[] || spot == map[] || request.vSwitchZones == {} {
        return Err("state not initialised");
      }
      var key := Key(typesSeq, stockSeq, marks.seqNum, request.vSwitchZones, request.kc);
      if key in cached && !ExpiredAt(cached[key].expiration, now) {
        return Ok(cached[key].value);
      }
      if cni.None? {
        return Err("failed to get cluster CNI");
      }
      var inputs := Inputs(onDemand, spot, request.vSwitchZones, request.kc, request.disk, cni.value, quotes);
      var types := ComputeList(infos, inputs, marks, now);
      cached := cached[key := Item(types, now + LIST_TTL)];
      r := Ok(types);
    }
  }

  predicate Answered(response: Option<seq<ZoneStock>>) {
    response.Some? && response.value != []
  }

  function EligibleTypes(infos: seq<InstanceInfo>, cni: Cni): seq<InstanceInfo> {
    if infos == [] then []
    else
      var last := infos[|infos| - 1];
      EligibleTypes(infos[..|infos| - 1], cni) + (if Eligible(last, cni) then [last] else [])
  }

  /** A discovery keeps exactly the eligible types. */
  lemma {:induction false} EligibleElements(infos: seq<InstanceInfo>, cni: Cni)
    ensures forall i :: i in EligibleTypes(infos, cni) <==> i in infos && Eligible(i, cni)
    ensures cni.Terway? ==> forall i | i in EligibleTypes(infos, cni) :: (i.eniQuantity - 1) * i.eniAddresses >= 11
    ensures !cni.Terway? ==> EligibleTypes(infos, cni) == infos
  {
    if infos != [] {
      var last := |infos| - 1;
      EligibleElements(infos[..last], cni);
      assert infos == infos[..last] + [infos[last]];
    }
  }
}
