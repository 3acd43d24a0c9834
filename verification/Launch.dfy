/** Selection of what to launch: filters over the instance types, the capacity type, the vSwitch of each type and the
    provisioning request. Prices are exact and the largest float stands for "no price yet". */
module Launch {
  import opened TtlCache
  import opened Catalogue
  import opened InstanceTypeProvider

  const MAX_INSTANCE_TYPES := 20
  const FLEXIBILITY_THRESHOLD := 5

  /** Values a label may take: the given ones, or all but the given ones. */
  datatype Requirement = Requirement(complement: bool, values: set<string>)

  predicate Allows(r: Requirement, value: string) {
    r.complement != (value in r.values)
  }

  /** What a claim requires of an offering; an absent requirement allows everything. */
  datatype Requirements = Requirements(capacityType: Requirement, zone: Requirement, zoneId: Requirement)

  predicate Compatible(reqs: Requirements, id: OfferingId) {
    && Allows(reqs.capacityType, CapacityTypeName(id.capacityType))
    && Allows(reqs.zone, id.zone) && Allows(reqs.zoneId, id.zone)
  }

  /** A requirement lists the allowed values or, complemented, the forbidden ones; an offering is compatible if its capacity
      type's name and its zone are allowed, the zone also as zone ID. */
  lemma CompatibleExactly(reqs: Requirements, id: OfferingId)
    ensures Compatible(reqs, id) <==>
              var name := match id.capacityType case OnDemand => "on-demand" case Spot => "spot";
              && (if reqs.capacityType.complement then name !in reqs.capacityType.values else name in reqs.capacityType.values)
              && (if reqs.zone.complement then id.zone !in reqs.zone.values else id.zone in reqs.zone.values)
              && (if reqs.zoneId.complement then id.zone !in reqs.zoneId.values else id.zone in reqs.zoneId.values)
  {
  }

  lemma OnlyExactly(c: CapacityType, id: OfferingId)
    ensures Allows(Only(c), CapacityTypeName(id.capacityType)) <==> id.capacityType == c
  {
  }

  function Only(c: CapacityType): Requirement {
    Requirement(false, {CapacityTypeName(c)})
  }

  datatype LaunchType = LaunchType(
    name: string, architecture: string, sizes: set<string>, nvidiaGpus: int, amdGpus: int, offerings: seq<ListedOffering>)

  // ----- the filter chain

  predicate Contains(s: string, part: string) {
    exists i :: 0 <= i <= |s| && part <= s[i..]
  }

  /** Neither bare metal nor with a GPU. */
  predicate Generic(t: LaunchType) {
    (forall size | size in t.sizes :: !Contains(size, "metal")) && t.amdGpus == 0 && t.nvidiaGpus == 0
  }

  function GenericTypes(types: seq<LaunchType>): seq<LaunchType> {
    if types == [] then []
    else
      var last := |types| - 1;
      GenericTypes(types[..last]) + (if Generic(types[last]) then [types[last]] else [])
  }

  function WithoutExotic(types: seq<LaunchType>): seq<LaunchType> {
    if GenericTypes(types) != [] then GenericTypes(types) else types
  }

  /** The smaller of two prices, where `None` is no price at all. */
  function Cheaper(a: Option<real>, b: Option<real>): Option<real> {
    if a.None? then b else if b.None? then a else if b.value < a.value then b else a
  }

  /** Cheapest available offering, all of them or the on-demand ones only. */
  function CheapestIn(offerings: seq<ListedOffering>, onDemandOnly: bool): Option<real> {
    if offerings == [] then None
    else
      var last := offerings[|offerings| - 1];
      Cheaper(CheapestIn(offerings[..|offerings| - 1], onDemandOnly),
              if last.available && (onDemandOnly ==> last.id.capacityType.OnDemand?) then Some(last.price) else None)
  }

  function CheapestOnDemand(types: seq<LaunchType>): Option<real> {
    if types == [] then None
    else Cheaper(CheapestOnDemand(types[..|types| - 1]), CheapestIn(types[|types| - 1].offerings, true))
  }

  /** Some available offering costs no more than the bound. */
  predicate Affordable(t: LaunchType, bound: Option<real>) {
    var cheapest := CheapestIn(t.offerings, false);
    cheapest.Some? && (bound.Some? ==> cheapest.value <= bound.value)
  }

  function AffordableTypes(types: seq<LaunchType>, bound: Option<real>): seq<LaunchType> {
    if types == [] then []
    else
      var last := |types| - 1;
      AffordableTypes(types[..last], bound) + (if Affordable(types[last], bound) then [types[last]] else [])
  }

  ghost predicate Offers(reqs: Requirements, types: seq<LaunchType>, c: CapacityType) {
    exists t, k :: t in types && 0 <= k < |t.offerings| && t.offerings[k].available
                   && Compatible(reqs, t.offerings[k].id) && t.offerings[k].id.capacityType == c
  }

  /** The claim allows both capacity types and some type can be launched as each. */
  ghost predicate Mixed(reqs: Requirements, types: seq<LaunchType>) {
    && Allows(reqs.capacityType, "spot") && Allows(reqs.capacityType, "on-demand")
    && Offers(reqs, types, Spot) && Offers(reqs, types, OnDemand)
  }

  /** The whole chain. */
  ghost function Filtered(reqs: Requirements, types: seq<LaunchType>): seq<LaunchType> {
    var plain := WithoutExotic(types);
    if Mixed(reqs, plain) then AffordableTypes(plain, CheapestOnDemand(plain)) else plain
  }

  // ----- properties of the chain

  ghost predicate Subsequence<T>(a: seq<T>, b: seq<T>)
    decreases |b|
  {
    if a == [] then true
    else if b == [] then false
    else
      var (x, y) := (a[|a| - 1], b[|b| - 1]);
      (x == y && Subsequence(a[..|a| - 1], b[..|b| - 1])) || Subsequence(a, b[..|b| - 1])
  }

  lemma {:induction false} SubsequenceRefl<T>(a: seq<T>)
    ensures Subsequence(a, a)
    decreases |a|
  {
    if a != [] {
      SubsequenceRefl(a[..|a| - 1]);
    }
  }

  lemma {:induction false} SubsequenceTrans<T>(a: seq<T>, b: seq<T>, c: seq<T>)
    requires Subsequence(a, b) && Subsequence(b, c)
    ensures Subsequence(a, c)
    decreases |b| + |c|
  {
    if a != [] && b != [] {
      var a', b', c' := a[..|a| - 1], b[..|b| - 1], c[..|c| - 1];
      if Subsequence(b, c') {
        SubsequenceTrans(a, b, c');
      } else if a[|a| - 1] == b[|b| - 1] && Subsequence(a', b') {
        SubsequenceTrans(a', b', c');
      } else {
        SubsequenceTrans(a, b', c');
      }
    }
  }

  lemma {:induction false} GenericElements(types: seq<LaunchType>)
    ensures forall t :: t in GenericTypes(types) <==> t in types && Generic(t)
    decreases |types|
  {
    if types != [] {
      var last := |types| - 1;
      GenericElements(types[..last]);
      assert types == types[..last] + [types[last]];
    }
  }

  lemma {:induction false} GenericSubsequence(types: seq<LaunchType>)
    ensures Subsequence(GenericTypes(types), types)
    decreases |types|
  {
    if types != [] {
      var last := |types| - 1;
      var init := GenericTypes(types[..last]);
      GenericSubsequence(types[..last]);
      assert (init + [types[last]])[..|init|] == init && init + [] == init;
    }
  }

  lemma {:induction false} AffordableElements(types: seq<LaunchType>, bound: Option<real>)
    ensures forall t :: t in AffordableTypes(types, bound) <==> t in types && Affordable(t, bound)
    decreases |types|
  {
    if types != [] {
      var last := |types| - 1;
      AffordableElements(types[..last], bound);
      assert types == types[..last] + [types[last]];
    }
  }

  lemma {:induction false} AffordableSubsequence(types: seq<LaunchType>, bound: Option<real>)
    ensures Subsequence(AffordableTypes(types, bound), types)
    decreases |types|
  {
    if types != [] {
      var last := |types| - 1;
      var init := AffordableTypes(types[..last], bound);
      AffordableSubsequence(types[..last], bound);
      assert (init + [types[last]])[..|init|] == init && init + [] == init;
    }
  }

  /** A filter whose test every element passes changes nothing. */
  lemma {:induction false} AllGeneric(types: seq<LaunchType>)
    requires forall t | t in types :: Generic(t)
    ensures GenericTypes(types) == types
  {
    if types != [] {
      var last := |types| - 1;
      forall t | t in types[..last] ensures Generic(t) {
        assert t in types;
      }
      AllGeneric(types[..last]);
      assert types[last] in types;
      assert types == types[..last] + [types[last]];
    }
  }

  lemma {:induction false} AllAffordable(types: seq<LaunchType>, bound: Option<real>)
    requires forall t | t in types :: Affordable(t, bound)
    ensures AffordableTypes(types, bound) == types
  {
    if types != [] {
      var last := |types| - 1;
      forall t | t in types[..last] ensures Affordable(t, bound) {
        assert t in types;
      }
      AllAffordable(types[..last], bound);
      assert types[last] in types;
      assert types == types[..last] + [types[last]];
    }
  }

  /** The cheapest price is attained by an offering and no greater than that of any other. */
  lemma {:induction false} CheapestInMeaning(offerings: seq<ListedOffering>, onDemandOnly: bool)
    ensures CheapestIn(offerings, onDemandOnly).Some? ==>
              exists k :: 0 <= k < |offerings| && Counts(offerings[k], onDemandOnly)
                          && offerings[k].price == CheapestIn(offerings, onDemandOnly).value
    ensures forall k | 0 <= k < |offerings| && Counts(offerings[k], onDemandOnly) ::
              CheapestIn(offerings, onDemandOnly).Some? && CheapestIn(offerings, onDemandOnly).value <= offerings[k].price
  {
    if offerings != [] {
      var init, last := offerings[..|offerings| - 1], |offerings| - 1;
      CheapestInMeaning(init, onDemandOnly);
      if CheapestIn(init, onDemandOnly).Some? {
        var k :| 0 <= k < |init| && Counts(init[k], onDemandOnly) && init[k].price == CheapestIn(init, onDemandOnly).value;
        assert offerings[k] == init[k];
      }
      assert Counts(offerings[last], onDemandOnly) || !Counts(offerings[last], onDemandOnly);
      forall k | 0 <= k < |offerings| && Counts(offerings[k], onDemandOnly)
        ensures CheapestIn(offerings, onDemandOnly).Some? && CheapestIn(offerings, onDemandOnly).value <= offerings[k].price
      {
        if k < last {
          assert init[k] == offerings[k];
        }
      }
    }
  }

  predicate Counts(o: ListedOffering, onDemandOnly: bool) {
    o.available && (onDemandOnly ==> o.id.capacityType.OnDemand?)
  }

  lemma {:induction false} CheapestOnDemandMeaning(types: seq<LaunchType>)
    ensures CheapestOnDemand(types).Some? ==>
              exists t :: t in types && CheapestIn(t.offerings, true) == CheapestOnDemand(types)
    ensures forall t | t in types && CheapestIn(t.offerings, true).Some? ::
              CheapestOnDemand(types).Some? && CheapestOnDemand(types).value <= CheapestIn(t.offerings, true).value
  {
    if types != [] {
      var last := |types| - 1;
      CheapestOnDemandMeaning(types[..last]);
      assert types == types[..last] + [types[last]];
      assert types[last] in types;
    }
  }

  /** A type with an on-demand price is no dearer overall. */
  lemma CheapestOverall(offerings: seq<ListedOffering>)
    requires CheapestIn(offerings, true).Some?
    ensures CheapestIn(offerings, false).Some? && CheapestIn(offerings, false).value <= CheapestIn(offerings, true).value
  {
    CheapestInMeaning(offerings, true);
    CheapestInMeaning(offerings, false);
    var k :| 0 <= k < |offerings| && Counts(offerings[k], true) && offerings[k].price == CheapestIn(offerings, true).value;
    assert Counts(offerings[k], false);
  }

  /** A launch is mixed if both capacity types have an available offering the requirements are compatible with; that both are
      allowed follows. */
  lemma MixedExactly(reqs: Requirements, types: seq<LaunchType>)
    ensures Mixed(reqs, types) <==>
              && (exists t, k :: t in types && 0 <= k < |t.offerings| && t.offerings[k].available
                                 && Compatible(reqs, t.offerings[k].id) && t.offerings[k].id.capacityType.Spot?)
              && (exists t, k :: t in types && 0 <= k < |t.offerings| && t.offerings[k].available
                                 && Compatible(reqs, t.offerings[k].id) && t.offerings[k].id.capacityType.OnDemand?)
  {
  }

  lemma MixedHasOnDemand(reqs: Requirements, types: seq<LaunchType>)
    requires Mixed(reqs, types)
    ensures CheapestOnDemand(types).Some?
  {
    var t, k :| t in types && 0 <= k < |t.offerings| && t.offerings[k].available
                && Compatible(reqs, t.offerings[k].id) && t.offerings[k].id.capacityType == OnDemand;
    CheapestInMeaning(t.offerings, true);
    assert Counts(t.offerings[k], true);
    CheapestOnDemandMeaning(types);
  }

  /** A type at the cheapest on-demand price is affordable. */
  lemma CheapestIsKept(types: seq<LaunchType>) returns (t: LaunchType)
    requires CheapestOnDemand(types).Some?
    ensures t in AffordableTypes(types, CheapestOnDemand(types)) && CheapestIn(t.offerings, true) == CheapestOnDemand(types)
  {
    CheapestOnDemandMeaning(types);
    t :| t in types && CheapestIn(t.offerings, true) == CheapestOnDemand(types);
    CheapestOverall(t.offerings);
    AffordableElements(types, CheapestOnDemand(types));
  }

  /** No part of the types has a cheaper on-demand price than the whole, and a part with a cheapest type has the same. */
  lemma CheapestOfPart(types: seq<LaunchType>, part: seq<LaunchType>, t: LaunchType)
    requires forall u | u in part :: u in types
    requires t in part && CheapestIn(t.offerings, true).Some? && CheapestIn(t.offerings, true) == CheapestOnDemand(types)
    ensures CheapestOnDemand(part) == CheapestOnDemand(types)
  {
    CheapestOnDemandMeaning(types);
    CheapestOnDemandMeaning(part);
    var u :| u in part && CheapestIn(u.offerings, true) == CheapestOnDemand(part);
    assert u in types;
  }

  /** In a mixed launch the affordable types include one at the cheapest on-demand price, so that price stays. */
  lemma CheapestSurvives(reqs: Requirements, types: seq<LaunchType>)
    requires Mixed(reqs, types)
    ensures var kept := AffordableTypes(types, CheapestOnDemand(types));
            CheapestOnDemand(types).Some? && CheapestOnDemand(kept) == CheapestOnDemand(types)
            && exists t :: t in kept && CheapestIn(t.offerings, true) == CheapestOnDemand(types)
  {
    MixedHasOnDemand(reqs, types);
    var t := CheapestIsKept(types);
    AffordableElements(types, CheapestOnDemand(types));
    CheapestOfPart(types, AffordableTypes(types, CheapestOnDemand(types)), t);
  }

  /** Bare metal or with a GPU. */
  ghost predicate IsExotic(t: LaunchType) {
    t.nvidiaGpus != 0 || t.amdGpus != 0 || exists size :: size in t.sizes && HasMetal(size)
  }

  ghost predicate HasMetal(size: string) {
    exists before, after :: size == before + "metal" + after
  }

  lemma ContainsMetal(size: string)
    ensures Contains(size, "metal") <==> HasMetal(size)
  {
    if i: nat :| i <= |size| && "metal" <= size[i..] {
      assert size == size[..i] + "metal" + size[i..][5..];
    }
    if before, after :| size == before + "metal" + after {
      assert size[|before|..] == "metal" + after;
    }
  }

  lemma ExoticIsNotGeneric(t: LaunchType)
    ensures IsExotic(t) <==> !Generic(t)
  {
    forall size | size in t.sizes {
      ContainsMetal(size);
    }
  }

  /** The exotic types are dropped exactly if some type is not exotic. */
  lemma ExoticExactly(types: seq<LaunchType>)
    ensures if exists t :: t in types && !IsExotic(t)
            then forall t :: t in WithoutExotic(types) <==> t in types && !IsExotic(t)
            else WithoutExotic(types) == types
  {
    GenericElements(types);
    forall t {
      ExoticIsNotGeneric(t);
    }
    if GenericTypes(types) != [] {
      assert GenericTypes(types)[0] in GenericTypes(types);
    }
  }

  /** The spot filter keeps exactly the types that have an available offering no dearer than every available on-demand offering
      of any type. */
  lemma AffordableExactly(types: seq<LaunchType>, t: LaunchType)
    ensures t in AffordableTypes(types, CheapestOnDemand(types)) <==>
              && t in types
              && exists k :: 0 <= k < |t.offerings| && t.offerings[k].available
                             && NoDearerThanOnDemand(types, t.offerings[k].price)
  {
    AffordableElements(types, CheapestOnDemand(types));
    CheapestInMeaning(t.offerings, false);
    BoundMeaning(types);
    if t in types && Affordable(t, CheapestOnDemand(types)) {
      var k :| 0 <= k < |t.offerings| && Counts(t.offerings[k], false)
               && t.offerings[k].price == CheapestIn(t.offerings, false).value;
      assert NoDearerThanOnDemand(types, t.offerings[k].price);
    }
  }

  ghost predicate NoDearerThanOnDemand(types: seq<LaunchType>, price: real) {
    forall u, j | && u in types && 0 <= j < |u.offerings|
                  && u.offerings[j].available && u.offerings[j].id.capacityType.OnDemand? ::
      price <= u.offerings[j].price
  }

  /** The bound is the greatest price no dearer than every available on-demand offering. */
  lemma BoundMeaning(types: seq<LaunchType>)
    ensures forall price :: NoDearerThanOnDemand(types, price) <==>
                            (CheapestOnDemand(types).Some? ==> price <= CheapestOnDemand(types).value)
  {
    CheapestOnDemandMeaning(types);
    forall u | u in types ensures forall j | 0 <= j < |u.offerings| && Counts(u.offerings[j], true) ::
                                    CheapestOnDemand(types).Some? && CheapestOnDemand(types).value <= u.offerings[j].price
    {
      CheapestInMeaning(u.offerings, true);
    }
    if CheapestOnDemand(types).Some? {
      var u :| u in types && CheapestIn(u.offerings, true) == CheapestOnDemand(types);
      CheapestInMeaning(u.offerings, true);
      var j :| 0 <= j < |u.offerings| && Counts(u.offerings[j], true)
               && u.offerings[j].price == CheapestIn(u.offerings, true).value;
      forall price | NoDearerThanOnDemand(types, price) ensures price <= CheapestOnDemand(types).value {
        assert price <= u.offerings[j].price;
      }
    }
  }

  lemma ExoticElements(types: seq<LaunchType>)
    ensures Subsequence(WithoutExotic(types), types)
    ensures types != [] ==> WithoutExotic(types) != []
  {
    GenericSubsequence(types);
    SubsequenceRefl(types);
  }

  /** The chain returns a subsequence, never empties a non-empty list, and in a mixed launch keeps a type at the cheapest
      available on-demand price of the types that passed the exotic filter. */
  lemma ChainKeepsWhatMatters(reqs: Requirements, types: seq<LaunchType>)
    ensures Subsequence(Filtered(reqs, types), types)
    ensures types != [] ==> Filtered(reqs, types) != []
    ensures var plain := WithoutExotic(types);
            Mixed(reqs, plain) ==>
              && CheapestOnDemand(plain).Some?
              && exists t :: t in Filtered(reqs, types) && CheapestIn(t.offerings, true) == CheapestOnDemand(plain)
  {
    var plain := WithoutExotic(types);
    ExoticElements(types);
    if Mixed(reqs, plain) {
      CheapestSurvives(reqs, plain);
      AffordableSubsequence(plain, CheapestOnDemand(plain));
      SubsequenceTrans(Filtered(reqs, types), plain, types);
    }
  }

  /** What the exotic filter returned it returns again, and so it does for any non-empty part of it. */
  lemma ExoticStable(types: seq<LaunchType>, part: seq<LaunchType>)
    requires part != [] && forall t | t in part :: t in WithoutExotic(types)
    ensures WithoutExotic(part) == part
  {
    GenericElements(types);
    GenericElements(part);
    if GenericTypes(types) != [] {
      AllGeneric(part);
    } else {
      forall t | t in part ensures !Generic(t) {
        assert Generic(t) ==> t in GenericTypes(types);
      }
      if GenericTypes(part) != [] {
        assert GenericTypes(part)[0] in GenericTypes(part);
      }
    }
  }

  /** What passes the whole chain: the non-exotic types if there are any, otherwise all; and in a mixed launch only those of
      them with an available offering no dearer than every available on-demand one among them. */
  lemma FilteredExactly(reqs: Requirements, types: seq<LaunchType>, t: LaunchType)
    ensures var plain := WithoutExotic(types);
            t in Filtered(reqs, types) <==>
              && t in types && (IsExotic(t) ==> forall u | u in types :: IsExotic(u))
              && (Mixed(reqs, plain) ==>
                    exists k :: && 0 <= k < |t.offerings| && t.offerings[k].available
                                && NoDearerThanOnDemand(plain, t.offerings[k].price))
  {
    ExoticExactly(types);
    AffordableExactly(WithoutExotic(types), t);
  }

  /** Filtering the affordable types of a mixed launch again, by the same rule, keeps them all. */
  lemma AffordableStable(reqs: Requirements, plain: seq<LaunchType>)
    requires Mixed(reqs, plain)
    ensures var once := AffordableTypes(plain, CheapestOnDemand(plain));
            AffordableTypes(once, CheapestOnDemand(once)) == once
  {
    var bound := CheapestOnDemand(plain);
    CheapestSurvives(reqs, plain);
    AffordableElements(plain, bound);
    AllAffordable(AffordableTypes(plain, bound), bound);
  }

  lemma FilteredElements(reqs: Requirements, types: seq<LaunchType>)
    ensures forall t | t in Filtered(reqs, types) :: t in WithoutExotic(types)
  {
    var plain := WithoutExotic(types);
    AffordableElements(plain, CheapestOnDemand(plain));
  }

  /** The chain is idempotent. */
  lemma ChainIdempotent(reqs: Requirements, types: seq<LaunchType>)
    ensures Filtered(reqs, Filtered(reqs, types)) == Filtered(reqs, types)
  {
    var plain, once := WithoutExotic(types), Filtered(reqs, types);
    if types != [] {
      ChainKeepsWhatMatters(reqs, types);
      FilteredElements(reqs, types);
      ExoticStable(types, once);
      if Mixed(reqs, plain) {
        AffordableStable(reqs, plain);
      }
    }
  }

  // ----- the loops that compute the chain

  method FilterExoticInstanceTypes(types: seq<LaunchType>) returns (r: seq<LaunchType>)
    ensures r == WithoutExotic(types)
  {
    var generic := [];
    for n := 0 to |types|
      invariant generic == GenericTypes(types[..n])
    {
      assert types[..n + 1][..n] == types[..n];
      if Generic(types[n]) {
        generic := generic + [types[n]];
      }
    }
    assert types[..|types|] == types;
    r := if generic != [] then generic else types;
  }

  /** Both flags are raised exactly by the available compatible offerings. */
  method IsMixedCapacityLaunch(reqs: Requirements, types: seq<LaunchType>) returns (mixed: bool)
    ensures mixed <==> Mixed(reqs, types)
  {
    if !Allows(reqs.capacityType, "spot") || !Allows(reqs.capacityType, "on-demand") {
      return false;
    }
    var hasSpot, hasOnDemand := false, false;
    for n := 0 to |types|
      invariant hasSpot <==> Offers(reqs, types[..n], Spot)
      invariant hasOnDemand <==> Offers(reqs, types[..n], OnDemand)
    {
      var spot, onDemand := OfferedBy(reqs, types[n]);
      OffersMore(reqs, types[..n], types[n], Spot);
      OffersMore(reqs, types[..n], types[n], OnDemand);
      assert types[..n + 1] == types[..n] + [types[n]];
      hasSpot, hasOnDemand := hasSpot || spot, hasOnDemand || onDemand;
    }
    assert types[..|types|] == types;
    mixed := hasSpot && hasOnDemand;
  }

  ghost predicate TypeOffers(reqs: Requirements, t: LaunchType, c: CapacityType) {
    exists k :: 0 <= k < |t.offerings| && t.offerings[k].available
                && Compatible(reqs, t.offerings[k].id) && t.offerings[k].id.capacityType == c
  }

  lemma OffersMore(reqs: Requirements, types: seq<LaunchType>, t: LaunchType, c: CapacityType)
    ensures Offers(reqs, types + [t], c) <==> Offers(reqs, types, c) || TypeOffers(reqs, t, c)
  {
    if TypeOffers(reqs, t, c) {
      assert t in types + [t];
    }
  }

  method OfferedBy(reqs: Requirements, t: LaunchType) returns (spot: bool, onDemand: bool)
    ensures spot <==> TypeOffers(reqs, t, Spot)
    ensures onDemand <==> TypeOffers(reqs, t, OnDemand)
  {
    spot, onDemand := false, false;
    for k := 0 to |t.offerings|
      invariant spot <==> exists j :: 0 <= j < k && t.offerings[j].available
                                      && Compatible(reqs, t.offerings[j].id) && t.offerings[j].id.capacityType == Spot
      invariant onDemand <==> exists j :: 0 <= j < k && t.offerings[j].available
                                          && Compatible(reqs, t.offerings[j].id) && t.offerings[j].id.capacityType == OnDemand
    {
      var o := t.offerings[k];
      if o.available && Compatible(reqs, o.id) {
        if o.id.capacityType == Spot {
          spot := true;
        } else {
          onDemand := true;
        }
      }
    }
  }

  method CheapestOffering(offerings: seq<ListedOffering>, onDemandOnly: bool) returns (r: Option<real>)
    ensures r == CheapestIn(offerings, onDemandOnly)
  {
    r := None;
    for k := 0 to |offerings|
      invariant r == CheapestIn(offerings[..k], onDemandOnly)
    {
      assert offerings[..k + 1][..k] == offerings[..k];
      var o := offerings[k];
      if o.available && (onDemandOnly ==> o.id.capacityType.OnDemand?) && (r.None? || o.price < r.value) {
        r := Some(o.price);
      }
    }
    assert offerings[..|offerings|] == offerings;
  }

  method FilterUnwantedSpot(types: seq<LaunchType>) returns (r: seq<LaunchType>)
    ensures r == AffordableTypes(types, CheapestOnDemand(types))
  {
    var bound := None;
    for n := 0 to |types|
      invariant bound == CheapestOnDemand(types[..n])
    {
      assert types[..n + 1][..n] == types[..n];
      var price := CheapestOffering(types[n].offerings, true);
      bound := Cheaper(bound, price);
    }
    assert types[..|types|] == types;
    r := [];
    for n := 0 to |types|
      invariant r == AffordableTypes(types[..n], bound)
    {
      assert types[..n + 1][..n] == types[..n];
      var price := CheapestOffering(types[n].offerings, false);
      if price.Some? && (bound.Some? ==> price.value <= bound.value) {
        r := r + [types[n]];
      }
    }
  }

  method FilterInstanceTypes(reqs: Requirements, types: seq<LaunchType>) returns (r: seq<LaunchType>)
    ensures r == Filtered(reqs, types)
  {
    r := FilterExoticInstanceTypes(types);
    var mixed := IsMixedCapacityLaunch(reqs, r);
    if mixed {
      r := FilterUnwantedSpot(r);
    }
  }

  // ----- capacity type

  /** Spot is chosen exactly when the claim allows it and some type has an available spot offering that the claim's other
      requirements allow. */
  method GetCapacityType(reqs: Requirements, types: seq<LaunchType>) returns (c: CapacityType)
    ensures c.Spot? <==> Allows(reqs.capacityType, "spot") && Offers(reqs, types, Spot)
    ensures c.Spot? <==>
              exists t, k :: t in types && 0 <= k < |t.offerings| && t.offerings[k].available
                             && Compatible(reqs, t.offerings[k].id) && t.offerings[k].id.capacityType == Spot
  {
    if Allows(reqs.capacityType, "spot") {
      var narrowed := reqs.(capacityType := Only(Spot));
      for n := 0 to |types|
        invariant !Offers(reqs, types[..n], Spot)
      {
        for k := 0 to |types[n].offerings|
          invariant forall j | 0 <= j < k ::
                      !(types[n].offerings[j].available && Compatible(narrowed, types[n].offerings[j].id))
        {
          if types[n].offerings[k].available && Compatible(narrowed, types[n].offerings[k].id) {
            assert types[n] in types && types[n].offerings[k].id.capacityType == Spot;
            return Spot;
          }
        }
        OffersMore(reqs, types[..n], types[n], Spot);
        assert types[..n + 1] == types[..n] + [types[n]];
      }
      assert types[..|types|] == types;
    }
    c := OnDemand;
  }

  /** Falling back to on-demand with few types draws a warning and nothing else. */
  method CheckOnDemandFallback(reqs: Requirements, types: seq<LaunchType>) returns (warn: bool)
    ensures warn <==> Allows(reqs.capacityType, "spot") && !Offers(reqs, types, Spot) && |types| < 5
  {
    var c := GetCapacityType(reqs, types);
    warn := c == OnDemand && Allows(reqs.capacityType, "spot") && |types| < FLEXIBILITY_THRESHOLD;
  }

  // ----- vSwitch of a type

  predicate Candidate(o: ListedOffering, vSwitches: map<string, string>, reqs: Requirements) {
    Compatible(reqs, o.id) && o.id.zone in vSwitches
  }

  /** Position of the offering a scan ends with. */
  function BestOffering(offerings: seq<ListedOffering>, vSwitches: map<string, string>, reqs: Requirements): (r: Option<nat>)
    ensures r.Some? ==> r.value < |offerings| && Candidate(offerings[r.value], vSwitches, reqs)
  {
    if offerings == [] then None
    else
      var last := |offerings| - 1;
      var r := BestOffering(offerings[..last], vSwitches, reqs);
      if Candidate(offerings[last], vSwitches, reqs) && (r.None? || offerings[last].price < offerings[r.value].price)
      then Some(last) else r
  }

  /** The k-th offering is the earliest cheapest compatible one whose zone has a vSwitch. */
  ghost predicate EarliestCheapest(offerings: seq<ListedOffering>, vSwitches: map<string, string>, reqs: Requirements, k: nat)
    requires k < |offerings|
  {
    forall j | 0 <= j < |offerings| && Compatible(reqs, offerings[j].id) && offerings[j].id.zone in vSwitches ::
      offerings[k].price <= offerings[j].price && (j < k ==> offerings[k].price < offerings[j].price)
  }

  /** The scan finds the earliest cheapest candidate, and nothing exactly when there is no candidate. */
  lemma {:induction false} BestOfferingIsCheapest(
    offerings: seq<ListedOffering>, vSwitches: map<string, string>, reqs: Requirements)
    ensures var r := BestOffering(offerings, vSwitches, reqs);
            && (r.None? <==> forall k | 0 <= k < |offerings| :: !Candidate(offerings[k], vSwitches, reqs))
            && (r.Some? ==> EarliestCheapest(offerings, vSwitches, reqs, r.value))
  {
    if offerings != [] {
      var last := |offerings| - 1;
      BestOfferingIsCheapest(offerings[..last], vSwitches, reqs);
      assert forall k | 0 <= k < last :: offerings[..last][k] == offerings[k];
      assert Candidate(offerings[last], vSwitches, reqs) || !Candidate(offerings[last], vSwitches, reqs);
    }
  }

  /** The scan looks at every offering, also at unavailable ones. What it ends with is available exactly if some available
      candidate beats every unavailable one on price, or on position at the same price. */
  lemma ChosenZoneAvailableExactly(offerings: seq<ListedOffering>, vSwitches: map<string, string>, reqs: Requirements)
    requires BestOffering(offerings, vSwitches, reqs).Some?
    ensures offerings[BestOffering(offerings, vSwitches, reqs).value].available <==>
              exists k :: 0 <= k < |offerings| && Candidate(offerings[k], vSwitches, reqs) && offerings[k].available
                          && BeatsUnavailable(offerings, vSwitches, reqs, k)
  {
    BestOfferingIsCheapest(offerings, vSwitches, reqs);
    var best := BestOffering(offerings, vSwitches, reqs).value;
    if offerings[best].available {
      forall j | 0 <= j < |offerings| && Candidate(offerings[j], vSwitches, reqs) && !offerings[j].available
        ensures Beats(offerings, best, j)
      {
        assert offerings[best].price <= offerings[j].price;
      }
    }
  }

  /** The k-th offering beats every unavailable candidate. */
  ghost predicate BeatsUnavailable(offerings: seq<ListedOffering>, vSwitches: map<string, string>, reqs: Requirements, k: nat)
    requires k < |offerings|
  {
    forall j | 0 <= j < |offerings| && Candidate(offerings[j], vSwitches, reqs) && !offerings[j].available ::
      Beats(offerings, k, j)
  }

  predicate Beats(offerings: seq<ListedOffering>, k: nat, j: nat)
    requires k < |offerings| && j < |offerings|
  {
    offerings[k].price < offerings[j].price || (offerings[k].price == offerings[j].price && k < j)
  }

  /** So a spot launch can be sent to a zone in which the type is known to be out of stock, past an available zone. */
  lemma UnavailableZoneCanBeChosen(a: string, b: string, v: string, w: string)
    requires a != b
    ensures var reqs := Requirements(Only(Spot), Requirement(true, {}), Requirement(true, {}));
            var offerings := [ListedOffering(OfferingId(a, Spot), 1.0, false), ListedOffering(OfferingId(b, Spot), 2.0, true)];
            CheapestVSwitch(offerings, map[a := v, b := w], reqs) == v
  {
    var reqs := Requirements(Only(Spot), Requirement(true, {}), Requirement(true, {}));
    var offerings := [ListedOffering(OfferingId(a, Spot), 1.0, false), ListedOffering(OfferingId(b, Spot), 2.0, true)];
    BestOfferingIsCheapest(offerings, map[a := v, b := w], reqs);
    assert Candidate(offerings[0], map[a := v, b := w], reqs) && Candidate(offerings[1], map[a := v, b := w], reqs);
  }

  function CheapestVSwitch(offerings: seq<ListedOffering>, vSwitches: map<string, string>, reqs: Requirements): string {
    var best := BestOffering(offerings, vSwitches, reqs);
    if best.Some? then vSwitches[offerings[best.value].id.zone] else ""
  }

  /** For on-demand launches and under the balanced policy any zone's vSwitch; otherwise the cheapest zone's. */
  method GetVSwitchId(
    offerings: seq<ListedOffering>, vSwitches: map<string, string>, reqs: Requirements, c: CapacityType, balanced: bool)
    returns (id: string)
    ensures if AnyZone(vSwitches, c, balanced) then id in vSwitches.Values
            else id == CheapestVSwitch(offerings, vSwitches, reqs)
    ensures AnyZone(vSwitches, c, balanced) <==> (c.OnDemand? || balanced) && vSwitches != map[]
  {
    if (c.OnDemand? || balanced) && vSwitches != map[] {
      var zone :| zone in vSwitches;
      return vSwitches[zone];
    }
    id := "";
    var price := None;
    ghost var best: Option<nat> := None;
    for k := 0 to |offerings|
      invariant best == BestOffering(offerings[..k], vSwitches, reqs)
      invariant price == if best.Some? then Some(offerings[best.value].price) else None
      invariant id == if best.Some? then vSwitches[offerings[best.value].id.zone] else ""
    {
      assert offerings[..k + 1][..k] == offerings[..k];
      var o := offerings[k];
      if Compatible(reqs, o.id) && o.id.zone in vSwitches && (price.None? || o.price < price.value) {
        id, price, best := vSwitches[o.id.zone], Some(o.price), Some(k);
      }
    }
    assert offerings[..|offerings|] == offerings;
  }

  // ----- the request

  datatype Config = Config(instanceType: string, vSwitch: string)

  datatype Group = Group(configs: seq<Config>, image: string, total: int, spotTarget: int, payAsYouGoTarget: int)

  /** The launch may go to any zone with a vSwitch. */
  predicate AnyZone(vSwitches: map<string, string>, c: CapacityType, balanced: bool) {
    (c.OnDemand? || balanced) && vSwitches != map[]
  }

  /** The vSwitch belongs to the zone of the earliest cheapest candidate. */
  ghost predicate InCheapestZone(
    offerings: seq<ListedOffering>, vSwitches: map<string, string>, reqs: Requirements, id: string)
  {
    exists k: nat :: k < |offerings| && Compatible(reqs, offerings[k].id) && offerings[k].id.zone in vSwitches
                     && EarliestCheapest(offerings, vSwitches, reqs, k) && vSwitches[offerings[k].id.zone] == id
  }

  lemma CheapestVSwitchMeaning(offerings: seq<ListedOffering>, vSwitches: map<string, string>, reqs: Requirements, id: string)
    requires id != ""
    ensures CheapestVSwitch(offerings, vSwitches, reqs) == id <==> InCheapestZone(offerings, vSwitches, reqs, id)
  {
    BestOfferingIsCheapest(offerings, vSwitches, reqs);
    var best := BestOffering(offerings, vSwitches, reqs);
    if k: nat :| k < |offerings| && Candidate(offerings[k], vSwitches, reqs) && EarliestCheapest(offerings, vSwitches, reqs, k)
                 && vSwitches[offerings[k].id.zone] == id
    {
      assert best.value == k;
    }
  }

  /** What decides where a type goes. */
  datatype Placing = Placing(vSwitches: map<string, string>, reqs: Requirements, c: CapacityType, balanced: bool)

  /** The request may name this vSwitch for the type: any zone's, or the cheapest zone's. */
  ghost predicate Places(p: Placing, t: LaunchType, id: string) {
    && id != ""
    && if AnyZone(p.vSwitches, p.c, p.balanced) then id in p.vSwitches.Values
       else InCheapestZone(t.offerings, p.vSwitches, p.reqs, id)
  }

  /** The type gets a vSwitch, whatever zone is drawn. */
  ghost predicate Placeable(p: Placing, t: LaunchType) {
    if AnyZone(p.vSwitches, p.c, p.balanced) then "" !in p.vSwitches.Values else exists id :: Places(p, t, id)
  }

  /** The k-th configuration is for the type at `chosen[k]`, with a vSwitch it may have; types keep their order. */
  ghost predicate Configures(p: Placing, types: seq<LaunchType>, configs: seq<Config>, chosen: seq<nat>) {
    && |chosen| == |configs| <= 20
    && (forall j, k | 0 <= j < k < |chosen| :: chosen[j] < chosen[k])
    && (forall k | 0 <= k < |chosen| ::
          && chosen[k] < |types| && configs[k].instanceType == types[chosen[k]].name
          && Places(p, types[chosen[k]], configs[k].vSwitch))
  }

  /** A type that gets a vSwitch is left out only when twenty configurations precede it. */
  ghost predicate LeavesOutOnlyTheRest(p: Placing, types: seq<LaunchType>, chosen: seq<nat>) {
    forall j: nat | j < |types| && Placeable(p, types[j]) && j !in chosen ::
      |chosen| == 20 && forall k | 0 <= k < |chosen| :: chosen[k] < j
  }

  ghost predicate SomePlaceable(p: Placing, types: seq<LaunchType>) {
    exists j: nat :: j < |types| && Placeable(p, types[j])
  }

  lemma ConfiguredExactly(p: Placing, types: seq<LaunchType>, configs: seq<Config>, chosen: seq<nat>)
    requires Configures(p, types, configs, chosen) && LeavesOutOnlyTheRest(p, types, chosen)
    ensures SomePlaceable(p, types) ==> configs != []
    ensures configs != [] && !AnyZone(p.vSwitches, p.c, p.balanced) ==> SomePlaceable(p, types)
  {
    if configs != [] {
      assert Places(p, types[chosen[0]], configs[0].vSwitch);
    }
  }

  lemma OneMoreConfig(p: Placing, types: seq<LaunchType>, configs: seq<Config>, chosen: seq<nat>, n: nat, id: string)
    requires n < |types| && Configures(p, types[..n], configs, chosen) && LeavesOutOnlyTheRest(p, types[..n], chosen)
    ensures |configs| < MAX_INSTANCE_TYPES && Places(p, types[n], id) ==>
              && Configures(p, types[..n + 1], configs + [Config(types[n].name, id)], chosen + [n])
              && LeavesOutOnlyTheRest(p, types[..n + 1], chosen + [n])
    ensures Configures(p, types[..n + 1], configs, chosen)
    ensures |configs| == MAX_INSTANCE_TYPES || !Placeable(p, types[n]) ==> LeavesOutOnlyTheRest(p, types[..n + 1], chosen)
  {
    assert forall j | 0 <= j < n :: types[..n + 1][j] == types[..n][j];
    assert forall j | 0 <= j < n && j in chosen :: j in chosen + [n];
  }

  /** One configuration per type that gets a vSwitch, until there are twenty. */
  method BuildConfigs(
    types: seq<LaunchType>, vSwitches: map<string, string>, reqs: Requirements, c: CapacityType, balanced: bool)
    returns (configs: seq<Config>, ghost chosen: seq<nat>)
    ensures var p := Placing(vSwitches, reqs, c, balanced);
            Configures(p, types, configs, chosen) && LeavesOutOnlyTheRest(p, types, chosen)
  {
    ghost var p := Placing(vSwitches, reqs, c, balanced);
    configs, chosen := [], [];
    for n := 0 to |types|
      invariant Configures(p, types[..n], configs, chosen) && LeavesOutOnlyTheRest(p, types[..n], chosen)
    {
      if |configs| < MAX_INSTANCE_TYPES {
        var id := GetVSwitchId(types[n].offerings, vSwitches, reqs, c, balanced);
        PlacedOrNot(p, types[n], id);
        OneMoreConfig(p, types, configs, chosen, n, id);
        if id != "" {
          configs, chosen := configs + [Config(types[n].name, id)], chosen + [n];
        }
      } else {
        OneMoreConfig(p, types, configs, chosen, n, "");
      }
    }
    assert types[..|types|] == types;
  }

  /** The vSwitch found for a type is one it may have, and none is found only if the type need not have one. */
  lemma PlacedOrNot(p: Placing, t: LaunchType, id: string)
    requires if AnyZone(p.vSwitches, p.c, p.balanced) then id in p.vSwitches.Values
             else id == CheapestVSwitch(t.offerings, p.vSwitches, p.reqs)
    ensures if id != "" then Places(p, t, id) else !Placeable(p, t)
  {
    if id != "" {
      CheapestVSwitchMeaning(t.offerings, p.vSwitches, p.reqs, id);
    } else {
      forall other | other != "" {
        CheapestVSwitchMeaning(t.offerings, p.vSwitches, p.reqs, other);
      }
    }
  }

  /** A successful request has between one and twenty configurations, for types in their order, each with the vSwitch of
      its cheapest zone or, for on-demand and under the balanced policy, of any zone; a type that gets a vSwitch is left out
      only after twenty. Its target capacities sum to one and match the capacity type, and its image is the one mapped to
      the first type. It succeeds exactly if that image exists and, for the cheapest zone, some type has a vSwitch. */
  method GetProvisioningGroup(
    types: seq<LaunchType>, vSwitches: map<string, string>, reqs: Requirements, c: CapacityType, balanced: bool,
    images: map<string, string>)
    returns (r: Result<Group>, ghost chosen: seq<nat>)
    ensures var p := Placing(vSwitches, reqs.(capacityType := Only(c)), c, balanced);
            && (r.Ok? ==>
                  && Configures(p, types, r.value.configs, chosen) && LeavesOutOnlyTheRest(p, types, chosen)
                  && r.value.configs != [])
            && (r.Ok? ==> types != [] && types[0].name in images && r.value.image == images[types[0].name])
            && (SomePlaceable(p, types) && types[0].name in images ==> r.Ok?)
            && (r.Ok? && !AnyZone(vSwitches, c, balanced) ==> SomePlaceable(p, types))
    ensures r.Ok? ==>
              r.value.spotTarget + r.value.payAsYouGoTarget == r.value.total == 1 && (r.value.spotTarget == 1 <==> c.Spot?)
  {
    chosen := [];
    if types == [] {
      return Err("no instance types match the system disk requirements"), chosen;
    }
    var narrowed, configs := reqs.(capacityType := Only(c)), [];
    configs, chosen := BuildConfigs(types, vSwitches, narrowed, c, balanced);
    ConfiguredExactly(Placing(vSwitches, narrowed, c, balanced), types, configs, chosen);
    if configs == [] {
      return Err("no capacity offerings are currently available given the constraints"), chosen;
    }
    if types[0].name !in images {
      return Err("matching image not found"), chosen;
    }
    r := Ok(Group(configs, images[types[0].name], 1, if c.Spot? then 1 else 0, if c.Spot? then 0 else 1));
  }
}
