/** The catalogue of instance types: what one computation of the list yields from the discovered types,
    the stock responses, the prices and the marks on unavailable offerings. */
module Catalogue {
  import opened TtlCache
  import opened Capacity

  datatype CapacityType = OnDemand | Spot

  datatype OfferingId = OfferingId(zone: string, capacityType: CapacityType)

  datatype Offering = Offering(price: real, available: bool)

  datatype InstanceType = InstanceType(
    name: string, architecture: string, capacity: Resources, offerings: map<OfferingId, Offering>)

  /** Zones in which each type has stock. */
  type Stock = map<string, set<string>>

  /** Price of each offering of each type; an absent pair has no known price. */
  type Prices = map<(string, OfferingId), real>

  /** Instance types indexed by what they were discovered from; order and repetition are not observable. */
  type Listing = map<InstanceInfo, InstanceType>

  function CapacityTypeName(c: CapacityType): string {
    match c case OnDemand => "on-demand" case Spot => "spot"
  }

  /** The key under which a mark on an offering is cached. */
  function MarkKey(instanceType: string, id: OfferingId): string {
    CapacityTypeName(id.capacityType) + ":" + instanceType + ":" + id.zone
  }

  lemma MarkKeySpelled(instanceType: string, zone: string)
    ensures MarkKey(instanceType, OfferingId(zone, OnDemand)) == "on-demand:" + instanceType + ":" + zone
    ensures MarkKey(instanceType, OfferingId(zone, Spot)) == "spot:" + instanceType + ":" + zone
  {
    assert "on-demand" + ":" == "on-demand:" && "spot" + ":" == "spot:";
  }

  predicate HasStock(stock: Stock, instanceType: string, zone: string) {
    instanceType in stock && zone in stock[instanceType]
  }

  function Insert(stock: Stock, instanceType: string, zone: string): Stock {
    var zones := if instanceType in stock then stock[instanceType] else {};
    stock[instanceType := zones + {zone}]
  }

  lemma InsertedStock(stock: Stock, instanceType: string, zone: string)
    ensures var r := Insert(stock, instanceType, zone);
            forall t, z :: HasStock(r, t, z) <==> HasStock(stock, t, z) || (t == instanceType && z == zone)
  {
  }

  /** Every zone in which some type has on-demand stock. */
  function AllZones(onDemand: Stock): set<string> {
    set t, z | t in onDemand && z in onDemand[t] :: z
  }

  function OfferingIds(zones: set<string>): set<OfferingId> {
    set z, c | z in zones && c in {OnDemand, Spot} :: OfferingId(z, c)
  }

  /** An offering can be launched: not marked, in stock for its capacity type, and in a zone with a vSwitch. */
  predicate Launchable(
    instanceType: string, id: OfferingId, onDemand: Stock, spot: Stock, vSwitchZones: set<string>, marked: set<string>)
  {
    && MarkKey(instanceType, id) !in marked
    && HasStock(if id.capacityType.Spot? then spot else onDemand, instanceType, id.zone)
    && id.zone in vSwitchZones
  }

  /** What a computation reads besides the types and the zones. */
  datatype Reads = Reads(onDemand: Stock, spot: Stock, disk: Option<int>, cni: Cni, prices: Prices, marked: set<string>)

  function OfferingsOf(
    instanceType: string, zones: set<string>, vSwitchZones: set<string>, r: Reads): map<OfferingId, Offering>
  {
    map id | id in OfferingIds(zones) && (instanceType, id) in r.prices ::
      Offering(r.prices[(instanceType, id)], Launchable(instanceType, id, r.onDemand, r.spot, vSwitchZones, r.marked))
  }

  function ArchitectureOf(reported: string): string {
    if reported == "ARM" then "arm64" else "amd64"
  }

  /** One computation of the whole catalogue; types without a single priced offering are dropped. */
  function Build(
    infos: set<InstanceInfo>, zones: set<string>, vSwitchZones: set<string>, kc: KubeletConfiguration, r: Reads): Listing
  {
    map i | i in infos && OfferingsOf(i.id, zones, vSwitchZones, r) != map[] ::
      InstanceType(i.id, ArchitectureOf(i.architecture), ComputeCapacity(i, kc, r.disk, r.cni),
                   OfferingsOf(i.id, zones, vSwitchZones, r))
  }

  /** What `a` and `b` may differ in is availability, and only in one direction: available in `a` implies
      available in `b`. */
  ghost predicate SameButAvailability(a: Listing, b: Listing) {
    && a.Keys == b.Keys
    && forall i | i in a :: SameTypeButAvailability(a[i], b[i])
  }

  ghost predicate SameTypeButAvailability(a: InstanceType, b: InstanceType) {
    && a.name == b.name && a.architecture == b.architecture && a.capacity == b.capacity
    && a.offerings.Keys == b.offerings.Keys
    && forall id | id in a.offerings ::
         a.offerings[id].price == b.offerings[id].price && (a.offerings[id].available ==> b.offerings[id].available)
  }

  /** The listing shows the offering as available. */
  ghost predicate Shows(l: Listing, i: InstanceInfo, id: OfferingId) {
    i in l && id in l[i].offerings && l[i].offerings[id].available
  }

  ghost predicate SamePrices(infos: set<InstanceInfo>, zones: set<string>, a: Reads, b: Reads) {
    forall i, id | i in infos && id in OfferingIds(zones) :: SamePrice(a.prices, b.prices, i.id, id)
  }

  /** Every listed type has the same storage and pod capacity. */
  ghost predicate SameSizes(l: Listing, kc: KubeletConfiguration, a: Reads, b: Reads) {
    forall i | i in l :: StorageG(a.disk) == StorageG(b.disk) && Pods(i, kc, a.cni) == Pods(i, kc, b.cni)
  }

  /** Every offering shown as available has stock of its capacity type. */
  ghost predicate Stocked(l: Listing, onDemand: Stock, spot: Stock) {
    forall i, id | Shows(l, i, id) :: HasStock(if id.capacityType.Spot? then spot else onDemand, i.id, id.zone)
  }

  /** No offering shown as available is marked. */
  ghost predicate Unmarked(l: Listing, marked: set<string>) {
    forall i, id | Shows(l, i, id) :: MarkKey(i.id, id) !in marked
  }

  /** Two computations under one key differ in availability only, and only one way, exactly if prices and sizes agree and
      what the first shows as available is unmarked and has stock in the second. */
  lemma BuildAgreesExactly(
    infos: set<InstanceInfo>, zones: set<string>, vSwitchZones: set<string>, kc: KubeletConfiguration, a: Reads, b: Reads)
    ensures var la, lb := Build(infos, zones, vSwitchZones, kc, a), Build(infos, zones, vSwitchZones, kc, b);
            SameButAvailability(la, lb) <==>
              && SamePrices(infos, zones, a, b) && SameSizes(la, kc, a, b)
              && Stocked(la, b.onDemand, b.spot) && Unmarked(la, b.marked)
  {
    var la, lb := Build(infos, zones, vSwitchZones, kc, a), Build(infos, zones, vSwitchZones, kc, b);
    if SameButAvailability(la, lb) {
      AgreementNeeds(infos, zones, vSwitchZones, kc, a, b);
    }
    if SamePrices(infos, zones, a, b) && SameSizes(la, kc, a, b) && Stocked(la, b.onDemand, b.spot) && Unmarked(la, b.marked) {
      BuildAgrees(infos, zones, vSwitchZones, kc, a, b);
    }
  }

  /** They are equal exactly if moreover the first shows all that the second shows. */
  lemma BuildEqualsExactly(
    infos: set<InstanceInfo>, zones: set<string>, vSwitchZones: set<string>, kc: KubeletConfiguration, a: Reads, b: Reads)
    ensures var la, lb := Build(infos, zones, vSwitchZones, kc, a), Build(infos, zones, vSwitchZones, kc, b);
            la == lb <==>
              && SamePrices(infos, zones, a, b) && SameSizes(la, kc, a, b)
              && Stocked(la, b.onDemand, b.spot) && Unmarked(la, b.marked)
              && Stocked(lb, a.onDemand, a.spot) && Unmarked(lb, a.marked)
  {
    var la, lb := Build(infos, zones, vSwitchZones, kc, a), Build(infos, zones, vSwitchZones, kc, b);
    BuildAgreesExactly(infos, zones, vSwitchZones, kc, a, b);
    if la == lb {
      AgreementNeeds(infos, zones, vSwitchZones, kc, b, a);
    } else if SameButAvailability(la, lb) && Stocked(lb, a.onDemand, a.spot) && Unmarked(lb, a.marked) {
      Reversed(infos, zones, la, lb, kc, a, b);
      BuildAgrees(infos, zones, vSwitchZones, kc, b, a);
      AgreementBothWays(la, lb);
    }
  }

  lemma Reversed(
    infos: set<InstanceInfo>, zones: set<string>, la: Listing, lb: Listing, kc: KubeletConfiguration, a: Reads, b: Reads)
    requires la.Keys == lb.Keys && SamePrices(infos, zones, a, b) && SameSizes(la, kc, a, b)
    ensures SamePrices(infos, zones, b, a) && SameSizes(lb, kc, b, a)
  {
    forall i, id | i in infos && id in OfferingIds(zones) ensures SamePrice(b.prices, a.prices, i.id, id) {
      assert SamePrice(a.prices, b.prices, i.id, id);
    }
    forall i | i in lb ensures StorageG(b.disk) == StorageG(a.disk) && Pods(i, kc, b.cni) == Pods(i, kc, a.cni) {
      assert i in la;
    }
  }

  /** Without types or without zones there is nothing to list. */
  lemma NothingToList(
    infos: set<InstanceInfo>, zones: set<string>, vSwitchZones: set<string>, kc: KubeletConfiguration, r: Reads)
    requires infos == {} || zones == {}
    ensures Build(infos, zones, vSwitchZones, kc, r) == map[]
  {
    forall i | i in infos ensures OfferingsOf(i.id, zones, vSwitchZones, r) == map[] {
      assert OfferingsOf(i.id, zones, vSwitchZones, r).Keys == {};
    }
    assert Build(infos, zones, vSwitchZones, kc, r).Keys == {};
  }

  lemma SameKeys(
    infos: set<InstanceInfo>, zones: set<string>, vSwitchZones: set<string>, kc: KubeletConfiguration, a: Reads, b: Reads,
    i: InstanceInfo)
    requires SamePrices(infos, zones, a, b) && i in infos
    ensures OfferingsOf(i.id, zones, vSwitchZones, a).Keys
            == OfferingsOf(i.id, zones, vSwitchZones, b).Keys
    ensures i in Build(infos, zones, vSwitchZones, kc, a) <==> i in Build(infos, zones, vSwitchZones, kc, b)
  {
    var l := OfferingsOf(i.id, zones, vSwitchZones, a);
    var r := OfferingsOf(i.id, zones, vSwitchZones, b);
    forall id | id in OfferingIds(zones) ensures id in l <==> id in r {
      assert SamePrice(a.prices, b.prices, i.id, id);
    }
    assert l.Keys == r.Keys;
    assert l == map[] <==> l.Keys == {};
    assert r == map[] <==> r.Keys == {};
  }

  lemma BuildAgrees(
    infos: set<InstanceInfo>, zones: set<string>, vSwitchZones: set<string>, kc: KubeletConfiguration, a: Reads, b: Reads)
    requires SamePrices(infos, zones, a, b)
    requires var l := Build(infos, zones, vSwitchZones, kc, a);
             SameSizes(l, kc, a, b) && Stocked(l, b.onDemand, b.spot) && Unmarked(l, b.marked)
    ensures SameButAvailability(Build(infos, zones, vSwitchZones, kc, a), Build(infos, zones, vSwitchZones, kc, b))
  {
    var la, lb := Build(infos, zones, vSwitchZones, kc, a), Build(infos, zones, vSwitchZones, kc, b);
    forall i | i in infos ensures i in la <==> i in lb {
      SameKeys(infos, zones, vSwitchZones, kc, a, b, i);
    }
    assert la.Keys == lb.Keys;
    forall i | i in la ensures SameTypeButAvailability(la[i], lb[i]) {
      TypeAgrees(infos, zones, vSwitchZones, kc, a, b, i);
    }
  }

  lemma TypeAgrees(
    infos: set<InstanceInfo>, zones: set<string>, vSwitchZones: set<string>, kc: KubeletConfiguration, a: Reads, b: Reads,
    i: InstanceInfo)
    requires SamePrices(infos, zones, a, b)
    requires var l := Build(infos, zones, vSwitchZones, kc, a);
             i in l && SameSizes(l, kc, a, b) && Stocked(l, b.onDemand, b.spot) && Unmarked(l, b.marked)
    ensures var la, lb := Build(infos, zones, vSwitchZones, kc, a), Build(infos, zones, vSwitchZones, kc, b);
            i in lb && SameTypeButAvailability(la[i], lb[i])
  {
    var la, lb := Build(infos, zones, vSwitchZones, kc, a), Build(infos, zones, vSwitchZones, kc, b);
    SameKeys(infos, zones, vSwitchZones, kc, a, b, i);
    assert la[i].capacity == lb[i].capacity;
    forall id | id in la[i].offerings
      ensures la[i].offerings[id].price == lb[i].offerings[id].price
      ensures la[i].offerings[id].available ==> lb[i].offerings[id].available
    {
      assert SamePrice(a.prices, b.prices, i.id, id);
      if Shows(la, i, id) {
        assert Launchable(i.id, id, b.onDemand, b.spot, vSwitchZones, b.marked);
      }
    }
  }

  lemma AgreementNeeds(
    infos: set<InstanceInfo>, zones: set<string>, vSwitchZones: set<string>, kc: KubeletConfiguration, a: Reads, b: Reads)
    requires SameButAvailability(Build(infos, zones, vSwitchZones, kc, a), Build(infos, zones, vSwitchZones, kc, b))
    ensures SamePrices(infos, zones, a, b)
    ensures var l := Build(infos, zones, vSwitchZones, kc, a);
            SameSizes(l, kc, a, b) && Stocked(l, b.onDemand, b.spot) && Unmarked(l, b.marked)
  {
    var la, lb := Build(infos, zones, vSwitchZones, kc, a), Build(infos, zones, vSwitchZones, kc, b);
    forall i, id | i in infos && id in OfferingIds(zones) ensures SamePrice(a.prices, b.prices, i.id, id) {
      PriceNeeded(infos, zones, vSwitchZones, kc, a, b, i, id);
    }
    forall i | i in la ensures StorageG(a.disk) == StorageG(b.disk) && Pods(i, kc, a.cni) == Pods(i, kc, b.cni) {
      assert SameTypeButAvailability(la[i], lb[i]);
    }
    forall i, id | Shows(la, i, id) ensures Launchable(i.id, id, b.onDemand, b.spot, vSwitchZones, b.marked) {
      assert SameTypeButAvailability(la[i], lb[i]);
    }
  }

  lemma PriceNeeded(
    infos: set<InstanceInfo>, zones: set<string>, vSwitchZones: set<string>, kc: KubeletConfiguration, a: Reads, b: Reads,
    i: InstanceInfo, id: OfferingId)
    requires SameButAvailability(Build(infos, zones, vSwitchZones, kc, a), Build(infos, zones, vSwitchZones, kc, b))
    requires i in infos && id in OfferingIds(zones)
    ensures SamePrice(a.prices, b.prices, i.id, id)
  {
    var la, lb := Build(infos, zones, vSwitchZones, kc, a), Build(infos, zones, vSwitchZones, kc, b);
    if (i.id, id) in a.prices {
      PricedIsListed(i, id, infos, zones, vSwitchZones, kc, a);
    }
    if (i.id, id) in b.prices {
      PricedIsListed(i, id, infos, zones, vSwitchZones, kc, b);
    }
    assert i in la ==> i in lb && SameTypeButAvailability(la[i], lb[i]);
    assert i in lb ==> i in la;
  }

  /** A computation shows as available only what is unmarked and has stock. */
  lemma ShownIsLaunchable(
    infos: set<InstanceInfo>, zones: set<string>, vSwitchZones: set<string>, kc: KubeletConfiguration, r: Reads)
    ensures var l := Build(infos, zones, vSwitchZones, kc, r); Stocked(l, r.onDemand, r.spot) && Unmarked(l, r.marked)
  {
  }

  ghost predicate SamePrice(p: Prices, q: Prices, instanceType: string, id: OfferingId) {
    ((instanceType, id) in p <==> (instanceType, id) in q)
    && ((instanceType, id) in p ==> p[(instanceType, id)] == q[(instanceType, id)])
  }

  lemma StockedZone(onDemand: Stock, instanceType: string, id: OfferingId)
    requires HasStock(onDemand, instanceType, id.zone)
    ensures onDemand != map[] && id in OfferingIds(AllZones(onDemand))
  {
    assert instanceType in onDemand && id.zone in onDemand[instanceType];
    assert id.capacityType.OnDemand? || id.capacityType.Spot?;
    assert id == OfferingId(id.zone, id.capacityType);
  }

  /** A priced offering in a known zone is listed, available exactly when it can be launched. */
  lemma PricedIsListed(
    i: InstanceInfo, id: OfferingId,
    infos: set<InstanceInfo>, zones: set<string>, vSwitchZones: set<string>, kc: KubeletConfiguration, r: Reads)
    requires i in infos && id in OfferingIds(zones) && (i.id, id) in r.prices
    ensures var l := Build(infos, zones, vSwitchZones, kc, r);
            && i in l && l[i].capacity == ComputeCapacity(i, kc, r.disk, r.cni)
            && id in l[i].offerings && l[i].offerings[id].price == r.prices[(i.id, id)]
            && (Shows(l, i, id) <==> Launchable(i.id, id, r.onDemand, r.spot, vSwitchZones, r.marked))
  {
    assert id in OfferingsOf(i.id, zones, vSwitchZones, r);
  }

  /** Mutual one-way agreement is equality. */
  lemma AgreementBothWays(a: Listing, b: Listing)
    requires SameButAvailability(a, b) && SameButAvailability(b, a)
    ensures a == b
  {
    forall i | i in a ensures a[i] == b[i] {
      assert SameTypeButAvailability(a[i], b[i]) && SameTypeButAvailability(b[i], a[i]);
      forall id | id in a[i].offerings ensures a[i].offerings[id] == b[i].offerings[id] {}
      assert a[i].offerings == b[i].offerings;
    }
  }

  /** Type names without a colon have distinct mark keys. */
  lemma MarkKeyInjective(t: string, id: OfferingId, t': string, id': OfferingId)
    requires ':' !in t && ':' !in t'
    requires MarkKey(t, id) == MarkKey(t', id')
    ensures t == t' && id == id'
  {
    var c, c' := CapacityTypeName(id.capacityType), CapacityTypeName(id'.capacityType);
    var k, k' := MarkKey(t, id), MarkKey(t', id');
    assert ':' !in c && ':' !in c';
    assert k == c + ([':'] + (t + ":" + id.zone)) && k' == c' + ([':'] + (t' + ":" + id'.zone));
    FirstColon(c, t + ":" + id.zone, c', t' + ":" + id'.zone);
    assert t + ":" + id.zone == t + ([':'] + id.zone) && t' + ":" + id'.zone == t' + ([':'] + id'.zone);
    FirstColon(t, id.zone, t', id'.zone);
  }

  lemma FirstColon(a: string, x: string, b: string, y: string)
    requires ':' !in a && ':' !in b
    requires a + ([':'] + x) == b + ([':'] + y)
    ensures a == b && x == y
  {
    var s := a + ([':'] + x);
    assert s[|a|] == ':' && s[|b|] == ':';
    assert forall i | 0 <= i < |a| :: s[i] != ':';
    assert forall i | 0 <= i < |b| :: s[i] != ':';
    assert a == s[..|a|] && b == s[..|b|];
    assert x == s[|a| + 1..] && y == s[|b| + 1..];
  }

  /** No other offering has this one's key. */
  ghost predicate OwnKey(t: string, id: OfferingId) {
    forall t', id' | MarkKey(t', id') == MarkKey(t, id) :: t' == t && id' == id
  }

  /** An offering has its key to itself exactly if neither its type name nor its zone has a colon. */
  lemma KeyUniqueExactly(t: string, id: OfferingId)
    ensures OwnKey(t, id) <==> ':' !in t && ':' !in id.zone
  {
    if k: nat :| k < |t| && t[k] == ':' {
      ColonMoves(t[..k], t[k + 1..], id.zone, id.capacityType);
      assert t == t[..k] + ":" + t[k + 1..];
      assert MarkKey(t[..k], OfferingId(t[k + 1..] + ":" + id.zone, id.capacityType)) == MarkKey(t, id);
      assert t[..k] != t;
    } else if k: nat :| k < |id.zone| && id.zone[k] == ':' {
      ColonMoves(t, id.zone[..k], id.zone[k + 1..], id.capacityType);
      assert id.zone == id.zone[..k] + ":" + id.zone[k + 1..];
      assert MarkKey(t + ":" + id.zone[..k], OfferingId(id.zone[k + 1..], id.capacityType)) == MarkKey(t, id);
      assert |t + ":" + id.zone[..k]| > |t|;
    } else {
      forall t', id' | MarkKey(t', id') == MarkKey(t, id) ensures t' == t && id' == id {
        OneColon(t, id, t', id');
        MarkKeyInjective(t', id', t, id);
      }
    }
  }

  /** A colon between two parts can belong to the type name or to the zone. */
  lemma ColonMoves(a: string, b: string, c: string, capacityType: CapacityType)
    ensures MarkKey(a + ":" + b, OfferingId(c, capacityType)) == MarkKey(a, OfferingId(b + ":" + c, capacityType))
  {
    var name := CapacityTypeName(capacityType);
    assert name + ":" + (a + ":" + b) + ":" + c == name + ":" + a + ":" + (b + ":" + c);
  }

  /** A key with one colon after the capacity type leaves none for another type name. */
  lemma OneColon(t: string, id: OfferingId, t': string, id': OfferingId)
    requires ':' !in t && ':' !in id.zone && MarkKey(t', id') == MarkKey(t, id)
    ensures ':' !in t'
  {
    var c, c' := CapacityTypeName(id.capacityType), CapacityTypeName(id'.capacityType);
    var rest, rest' := t + ":" + id.zone, t' + ":" + id'.zone;
    assert MarkKey(t, id) == c + ([':'] + rest) && MarkKey(t', id') == c' + ([':'] + rest');
    FirstColon(c, rest, c', rest');
    assert forall i | 0 <= i < |rest| && rest[i] == ':' :: i == |t|;
    assert rest'[|t'|] == ':';
    assert forall i | 0 <= i < |t'| :: t'[i] == rest'[i];
  }

  /** Two such offerings. */
  lemma MarkKeyCollision()
    ensures MarkKey("a:b", OfferingId("c", Spot)) == MarkKey("a", OfferingId("b:c", Spot))
  {
    assert "spot" + ":" + "a:b" + ":" + "c" == "spot:a:b:c" == "spot" + ":" + "a" + ":" + "b:c";
  }
}
