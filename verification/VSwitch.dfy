/** The vSwitch provider: discovery in pages, tracking of free IP addresses between two discoveries, and the
    choice of one vSwitch per zone for a launch. */
module VSwitch {
  import opened TtlCache
  import opened Catalogue
  import Capacity

  const IP_COUNT_TTL := 300
  const VSWITCH_LIST_TTL := 60
  const PAGE_SIZE := 50
  const LAST_PAGE := 359

  /** An entry of the node class status. */
  datatype VSwitchRef = VSwitchRef(id: string, zone: string)

  /** A vSwitch as the cloud describes it. */
  datatype VSwitchInfo = VSwitchInfo(id: string, zone: string, available: int)

  /** A vSwitch chosen for a launch, with the cached count at that time. */
  datatype Choice = Choice(id: string, zone: string, original: int)

  /** Cached counts, and the counts tracked since launches deducted from them. */
  datatype Ips = Ips(now: nat, cached: map<string, Item<int>>, inflight: map<string, int>)

  /** The cached count, zero when it is absent or expired. */
  function Count(s: Ips, id: string): int {
    if Live(s.cached, id, s.now) then s.cached[id].value else 0
  }

  /** The count a launch goes by. */
  function Tracked(s: Ips, id: string): int {
    if id in s.inflight then s.inflight[id] else Count(s, id)
  }

  /** What a launch goes by: the tracked count if there is one, otherwise the cached count while it lasts, otherwise nothing. */
  lemma TrackedExactly(s: Ips, id: string)
    ensures id in s.inflight ==> Tracked(s, id) == s.inflight[id]
    ensures id !in s.inflight && id in s.cached && (s.cached[id].expiration <= 0 || s.now <= s.cached[id].expiration) ==>
              Tracked(s, id) == s.cached[id].value
    ensures id !in s.inflight && (id !in s.cached || 0 < s.cached[id].expiration < s.now) ==> Tracked(s, id) == 0
  {
  }

  // ----- predicted use

  predicate Fits(t: InstanceType, id: OfferingId) {
    id in t.offerings && t.offerings[id].available
  }

  /** The pod capacity of a smallest type that can be launched as the offering, zero if there is none. */
  function MinPods(types: seq<InstanceType>, id: OfferingId): int {
    var fitting := Fitting(types, id);
    if fitting == [] then 0 else LeastPods(fitting)
  }

  function Fitting(types: seq<InstanceType>, id: OfferingId): seq<InstanceType> {
    if types == [] then [] else (if Fits(types[0], id) then [types[0]] else []) + Fitting(types[1..], id)
  }

  function LeastPods(types: seq<InstanceType>): int
    requires types != []
  {
    if |types| == 1 then types[0].capacity.pods
    else
      var rest := LeastPods(types[1..]);
      if types[0].capacity.pods <= rest then types[0].capacity.pods else rest
  }

  /** The type has the offering and it is available. */
  ghost predicate Offered(t: InstanceType, id: OfferingId) {
    exists o :: o in t.offerings.Items && o.0 == id && o.1.available
  }

  lemma FitsIfOffered(t: InstanceType, id: OfferingId)
    ensures Fits(t, id) <==> Offered(t, id)
  {
    if Fits(t, id) {
      assert (id, t.offerings[id]) in t.offerings.Items;
    }
  }

  /** The prediction is the minimum over the fitting types, attained by one of them. */
  lemma MinPodsIsMinimum(types: seq<InstanceType>, id: OfferingId)
    ensures (forall t | t in types :: !Offered(t, id)) ==> MinPods(types, id) == 0
    ensures (exists t :: t in types && Offered(t, id)) ==>
              exists t :: t in types && Offered(t, id) && MinPods(types, id) == t.capacity.pods
    ensures forall t | t in types && Offered(t, id) :: MinPods(types, id) <= t.capacity.pods
  {
    FittingElements(types, id);
    forall t | t in types {
      FitsIfOffered(t, id);
    }
    if Fitting(types, id) != [] {
      LeastPodsIsLeast(Fitting(types, id));
    }
  }

  lemma {:induction false} FittingElements(types: seq<InstanceType>, id: OfferingId)
    ensures forall t :: t in Fitting(types, id) <==> t in types && Fits(t, id)
  {
    if types != [] {
      FittingElements(types[1..], id);
      assert types == [types[0]] + types[1..];
    }
  }

  lemma {:induction false} LeastPodsIsLeast(types: seq<InstanceType>)
    requires types != []
    ensures exists t :: t in types && LeastPods(types) == t.capacity.pods
    ensures forall t | t in types :: LeastPods(types) <= t.capacity.pods
  {
    if |types| > 1 {
      LeastPodsIsLeast(types[1..]);
      assert types == [types[0]] + types[1..];
    }
    assert types[0] in types;
  }

  // ----- the choice

  /** The k-th entry is the earliest of its zone with the greatest tracked count. */
  ghost predicate EarliestBest(s: Ips, status: seq<VSwitchRef>, k: nat)
    requires k < |status|
  {
    forall j | 0 <= j < |status| && status[j].zone == status[k].zone ::
      && Tracked(s, status[j].id) <= Tracked(s, status[k].id)
      && (j < k ==> Tracked(s, status[j].id) < Tracked(s, status[k].id))
  }

  ghost predicate ChosenIn(s: Ips, status: seq<VSwitchRef>, zone: string, c: Choice) {
    exists k :: 0 <= k < |status| && status[k].zone == zone && EarliestBest(s, status, k)
                && c == Choice(status[k].id, zone, Count(s, status[k].id))
  }

  ghost function Zones(status: seq<VSwitchRef>): set<string> {
    set k | 0 <= k < |status| :: status[k].zone
  }

  /** Exactly one choice per zone of the status list: the earliest vSwitch with the greatest tracked count. */
  ghost predicate IsSelection(s: Ips, status: seq<VSwitchRef>, choices: map<string, Choice>) {
    && choices.Keys == Zones(status)
    && forall z | z in choices :: ChosenIn(s, status, z, choices[z])
  }

  /** The selection is determined by the tracked counts and the status list. */
  lemma SelectionUnique(s: Ips, status: seq<VSwitchRef>, a: map<string, Choice>, b: map<string, Choice>)
    requires IsSelection(s, status, a) && IsSelection(s, status, b)
    ensures a == b
  {
    forall z | z in a ensures a[z] == b[z] {
      var j :| 0 <= j < |status| && status[j].zone == z && EarliestBest(s, status, j)
               && a[z] == Choice(status[j].id, z, Count(s, status[j].id));
      var k :| 0 <= k < |status| && status[k].zone == z && EarliestBest(s, status, k)
               && b[z] == Choice(status[k].id, z, Count(s, status[k].id));
      assert j == k;
    }
  }

  /** A vSwitch lies in one zone. */
  ghost predicate OneZone(status: seq<VSwitchRef>) {
    forall j, k | 0 <= j < |status| && 0 <= k < |status| && status[j].id == status[k].id :: status[j].zone == status[k].zone
  }

  ghost predicate IsChosen(choices: map<string, Choice>, id: string) {
    exists z :: z in choices && choices[z].id == id
  }

  /** A prediction for each zone: the least pod capacity of what can be launched there. */
  ghost predicate Predicts(
    predicted: map<string, int>, types: seq<InstanceType>, capacityType: CapacityType, zones: set<string>)
  {
    predicted.Keys == zones && forall z | z in zones :: predicted[z] == MinPods(types, OfferingId(z, capacityType))
  }

  function At(m: map<string, int>, k: string): int {
    if k in m then m[k] else 0
  }

  /** The zones for which the vSwitch was chosen. */
  ghost function ZonesOf(choices: map<string, Choice>, id: string): set<string> {
    set z | z in choices && choices[z].id == id
  }

  ghost function Total(zones: set<string>, predicted: map<string, int>): int {
    if zones == {} then 0
    else var z :| z in zones; At(predicted, z) + Total(zones - {z}, predicted)
  }

  /** The total does not depend on the order in which the zones are taken. */
  lemma {:induction false} TotalWithout(zones: set<string>, predicted: map<string, int>, z: string)
    requires z in zones
    ensures Total(zones, predicted) == At(predicted, z) + Total(zones - {z}, predicted)
    decreases zones
  {
    var y :| y in zones && Total(zones, predicted) == At(predicted, y) + Total(zones - {y}, predicted);
    if y != z {
      TotalWithout(zones - {y}, predicted, z);
      TotalWithout(zones - {z}, predicted, y);
      assert zones - {y} - {z} == zones - {z} - {y};
    }
  }

  /** What a launch charges: each chosen vSwitch the predictions of all zones it was chosen for, and no other vSwitch. */
  ghost predicate IsCharge(choices: map<string, Choice>, predicted: map<string, int>, charge: map<string, int>) {
    && (forall id :: id in charge <==> IsChosen(choices, id))
    && (forall id | id in charge :: charge[id] == Total(ZonesOf(choices, id), predicted))
  }

  /** Charging one more zone adds its prediction to its vSwitch. */
  lemma ChargeOneMore(choices: map<string, Choice>, predicted: map<string, int>, charge: map<string, int>, z: string, c: Choice)
    requires IsCharge(choices, predicted, charge) && z !in choices
    ensures IsCharge(choices[z := c], predicted, charge[c.id := At(charge, c.id) + At(predicted, z)])
  {
    var more, total := choices[z := c], charge[c.id := At(charge, c.id) + At(predicted, z)];
    assert more[z].id == c.id;
    forall id ensures id in total <==> IsChosen(more, id) {
      if IsChosen(choices, id) {
        var y :| y in choices && choices[y].id == id;
        assert more[y].id == id;
      }
    }
    forall id | id in total ensures total[id] == Total(ZonesOf(more, id), predicted) {
      if id == c.id {
        TotalWithout(ZonesOf(more, id), predicted, z);
        assert ZonesOf(more, id) - {z} == ZonesOf(choices, id);
        if id !in charge {
          assert ZonesOf(choices, id) == {};
        }
      } else {
        assert ZonesOf(more, id) == ZonesOf(choices, id);
      }
    }
  }

  /** A vSwitch chosen for one zone only is charged that zone's prediction. */
  lemma ChargeOfOneZone(
    s: Ips, status: seq<VSwitchRef>, choices: map<string, Choice>, predicted: map<string, int>, charge: map<string, int>,
    z: string)
    requires IsSelection(s, status, choices) && OneZone(status) && IsCharge(choices, predicted, charge) && z in choices
    ensures choices[z].id in charge && charge[choices[z].id] == At(predicted, z)
  {
    SelectionDistinct(s, status, choices);
    assert IsChosen(choices, choices[z].id);
    assert ZonesOf(choices, choices[z].id) == {z};
    TotalWithout({z}, predicted, z);
    assert {z} - {z} == {};
  }

  /** The tracked counts after charging: each charged vSwitch drops once from its tracked count, no other changes. */
  ghost function Charged(s: Ips, charge: map<string, int>): map<string, int> {
    map id | id in s.inflight.Keys + charge.Keys :: if id in charge then Tracked(s, id) - charge[id] else s.inflight[id]
  }

  /** Each chosen vSwitch drops by the least pod capacity of the types that can be launched in its zone, and no other
      changes. */
  ghost predicate Deducted(s: Ips, t: Ips, choices: map<string, Choice>, types: seq<InstanceType>, capacityType: CapacityType) {
    && (forall z | z in choices ::
          Tracked(t, choices[z].id) == Tracked(s, choices[z].id) - MinPods(types, OfferingId(z, capacityType)))
    && (forall id | !IsChosen(choices, id) :: Tracked(t, id) == Tracked(s, id))
  }

  lemma LaunchDeducts(
    s: Ips, status: seq<VSwitchRef>, choices: map<string, Choice>, types: seq<InstanceType>, capacityType: CapacityType,
    predicted: map<string, int>, charge: map<string, int>)
    requires IsSelection(s, status, choices) && OneZone(status)
    requires Predicts(predicted, types, capacityType, choices.Keys) && IsCharge(choices, predicted, charge)
    ensures Deducted(s, s.(inflight := Charged(s, charge)), choices, types, capacityType)
  {
    var t := s.(inflight := Charged(s, charge));
    forall z | z in choices
      ensures Tracked(t, choices[z].id) == Tracked(s, choices[z].id) - MinPods(types, OfferingId(z, capacityType))
    {
      ChargeOfOneZone(s, status, choices, predicted, charge, z);
      ChargedTracked(s, charge, choices[z].id);
    }
    forall id | !IsChosen(choices, id) ensures Tracked(t, id) == Tracked(s, id) {
      ChargedTracked(s, charge, id);
    }
  }

  lemma ChargedTracked(s: Ips, charge: map<string, int>, id: string)
    ensures Tracked(s.(inflight := Charged(s, charge)), id) == Tracked(s, id) - At(charge, id)
  {
  }

  lemma ChargedOneMore(s: Ips, charge: map<string, int>, id: string, use: int)
    ensures var before := Charged(s, charge);
            var previous := if id in before then before[id] else Count(s, id);
            Charged(s, charge[id := At(charge, id) + use]) == before[id := previous - use]
  {
    var before := Charged(s, charge);
    var previous := if id in before then before[id] else Count(s, id);
    assert previous == Tracked(s, id) - At(charge, id);
    var l, r := Charged(s, charge[id := At(charge, id) + use]), before[id := previous - use];
    assert l.Keys == r.Keys;
    assert forall i | i in l :: l[i] == r[i];
  }

  ghost predicate ChargedSoFar(
    s: Ips, done: map<string, Choice>, predicted: map<string, int>, charge: map<string, int>, inflight: map<string, int>)
  {
    IsCharge(done, predicted, charge) && inflight == Charged(s, charge)
  }

  lemma ChargeZone(
    s: Ips, done: map<string, Choice>, predicted: map<string, int>, charge: map<string, int>, inflight: map<string, int>,
    z: string, c: Choice, previous: int, use: int)
    requires ChargedSoFar(s, done, predicted, charge, inflight) && z !in done && use == At(predicted, z)
    requires previous == if c.id in inflight then inflight[c.id] else Count(s, c.id)
    ensures ChargedSoFar(s, done[z := c], predicted, charge[c.id := At(charge, c.id) + use], inflight[c.id := previous - use])
  {
    ChargedOneMore(s, charge, c.id, use);
    ChargeOneMore(done, predicted, charge, z, c);
  }

  /** Each choice is recorded with its zone and the cached count of its vSwitch. */
  ghost predicate RecordedChoices(s: Ips, choices: map<string, Choice>) {
    forall z | z in choices :: choices[z].zone == z && choices[z].original == Count(s, choices[z].id)
  }

  /** Choices of distinct zones are distinct vSwitches. */
  ghost predicate DistinctChoices(choices: map<string, Choice>) {
    forall y, z | y in choices && z in choices && y != z :: choices[y].id != choices[z].id
  }

  lemma ChosenEntry(s: Ips, status: seq<VSwitchRef>, choices: map<string, Choice>, z: string) returns (k: nat)
    requires IsSelection(s, status, choices) && z in choices
    ensures k < |status| && status[k] == VSwitchRef(choices[z].id, z) && EarliestBest(s, status, k)
    ensures choices[z] == Choice(status[k].id, z, Count(s, status[k].id))
  {
    assert ChosenIn(s, status, z, choices[z]);
    k :| 0 <= k < |status| && status[k].zone == z && EarliestBest(s, status, k)
         && choices[z] == Choice(status[k].id, z, Count(s, status[k].id));
  }

  lemma ChoiceRecorded(s: Ips, status: seq<VSwitchRef>, choices: map<string, Choice>, z: string)
    requires IsSelection(s, status, choices) && z in choices
    ensures choices[z].zone == z && choices[z].original == Count(s, choices[z].id)
  {
    var k := ChosenEntry(s, status, choices, z);
  }

  lemma SelectionRecorded(s: Ips, status: seq<VSwitchRef>, choices: map<string, Choice>)
    requires IsSelection(s, status, choices)
    ensures RecordedChoices(s, choices)
  {
    forall z | z in choices ensures choices[z].zone == z && choices[z].original == Count(s, choices[z].id) {
      ChoiceRecorded(s, status, choices, z);
    }
  }

  lemma SelectionDistinct(s: Ips, status: seq<VSwitchRef>, choices: map<string, Choice>)
    requires IsSelection(s, status, choices) && OneZone(status)
    ensures DistinctChoices(choices)
  {
    forall y, z | y in choices && z in choices && y != z ensures choices[y].id != choices[z].id {
      var j := ChosenEntry(s, status, choices, y);
      var k := ChosenEntry(s, status, choices, z);
    }
  }

  // ----- add-back

  /** The first vSwitch of the list with the id. */
  ghost function Find(vSwitches: seq<Choice>, id: string): Option<Choice> {
    if vSwitches == [] then None else if vSwitches[0].id == id then Some(vSwitches[0]) else Find(vSwitches[1..], id)
  }

  /** The deduction from this vSwitch is given back: it was requested, not used, is still tracked, and its cached
      count is the one the launch saw. */
  ghost predicate GivesBack(s: Ips, requested: set<string>, used: set<string>, vSwitches: seq<Choice>, id: string) {
    && id in requested && id != "" && id !in used
    && Live(s.cached, id, s.now) && Find(vSwitches, id).Some?
    && Find(vSwitches, id).value.original == s.cached[id].value
    && id in s.inflight
  }

  ghost function GivenBack(
    s: Ips, requested: set<string>, used: set<string>, vSwitches: seq<Choice>, types: seq<InstanceType>,
    capacityType: CapacityType)
    : map<string, int>
  {
    map id | id in s.inflight ::
      if GivesBack(s, requested, used, vSwitches, id)
      then s.inflight[id] + MinPods(types, OfferingId(Find(vSwitches, id).value.zone, capacityType))
      else s.inflight[id]
  }

  // ----- discovery

  datatype VSwitchTerm = VSwitchTerm(id: string, tags: map<string, string>)

  datatype Page = Failed | Page(total: int, items: seq<VSwitchInfo>)

  /** The cloud may have more after the page. */
  ghost predicate Full(server: nat -> Page, p: nat) {
    server(p).Page? && server(p).total >= p * PAGE_SIZE && |server(p).items| >= PAGE_SIZE
  }

  /** The page is asked for: every page before it was full. */
  ghost predicate Requested(server: nat -> Page, p: nat) {
    1 <= p <= LAST_PAGE && forall q: nat | 1 <= q < p :: Full(server, q)
  }

  ghost predicate Answers(server: nat -> Page) {
    forall p: nat | Requested(server, p) :: server(p).Page?
  }

  /** The last page asked for, from page `p` on. */
  ghost function LastRequested(server: nat -> Page, p: nat): nat
    decreases LAST_PAGE - p
  {
    if p >= LAST_PAGE || !Full(server, p) then p else LastRequested(server, p + 1)
  }

  lemma {:induction false} RequestedExactly(server: nat -> Page, n: nat)
    requires Requested(server, n)
    ensures forall p: nat :: Requested(server, p) <==> 1 <= p <= LastRequested(server, n)
    decreases LAST_PAGE - n
  {
    if n < LAST_PAGE && Full(server, n) {
      RequestedExactly(server, n + 1);
    }
  }

  /** In numbers: at most 359 pages, and only after pages of fifty that the reported total reaches. */
  lemma RequestedMeaning(server: nat -> Page, p: nat)
    ensures Requested(server, p) <==>
              && 1 <= p <= 359
              && forall q: nat {:trigger server(q)} | 1 <= q < p ::
                   server(q).Page? && server(q).total >= 50 * q && |server(q).items| >= 50
  {
    if Requested(server, p) {
      forall q: nat {:trigger server(q)} | 1 <= q < p
        ensures server(q).Page? && server(q).total >= 50 * q && |server(q).items| >= 50
      {
        assert Full(server, q);
      }
    }
  }

  /** The loop after `done` pages: each of them was full, so another is asked for unless it was the last. */
  ghost predicate AskedFor(server: nat -> Page, done: nat) {
    && done <= LAST_PAGE && (forall q: nat | 1 <= q <= done :: server(q).Page?)
    && (done < LAST_PAGE ==> Requested(server, done + 1))
    && LastRequested(server, 1) == if done < LAST_PAGE then LastRequested(server, done + 1) else LAST_PAGE
  }

  lemma PageArrives(server: nat -> Page, done: nat)
    requires AskedFor(server, done) && done < LAST_PAGE
    ensures server(done + 1).Failed? ==> LastRequested(server, 1) == done + 1 && !Answers(server)
    ensures server(done + 1).Page? && !Full(server, done + 1) ==> LastRequested(server, 1) == done + 1 && Answers(server)
    ensures Full(server, done + 1) ==> AskedFor(server, done + 1)
  {
    RequestedExactly(server, 1);
  }

  lemma AllPagesArrived(server: nat -> Page)
    requires AskedFor(server, LAST_PAGE)
    ensures LastRequested(server, 1) == LAST_PAGE && Answers(server)
  {
    RequestedExactly(server, 1);
  }

  /** The items of the first pages in order. */
  ghost function Items(server: nat -> Page, pages: nat): seq<VSwitchInfo> {
    if pages == 0 then [] else Items(server, pages - 1) + if server(pages).Page? then server(pages).items else []
  }

  /** What the pages asked for describe. */
  ghost function Described(server: nat -> Page): seq<VSwitchInfo> {
    Items(server, LastRequested(server, 1))
  }

  /** The first terms' descriptions, in order. */
  ghost function AllDescribed(terms: seq<VSwitchTerm>, serve: VSwitchTerm -> nat -> Page): seq<VSwitchInfo> {
    if terms == [] then []
    else AllDescribed(terms[..|terms| - 1], serve) + Described(serve(terms[|terms| - 1]))
  }

  /** A cloud that serves the list in pages of fifty. */
  ghost predicate Serves(server: nat -> Page, all: seq<VSwitchInfo>) {
    forall p: nat {:trigger server(p)} :: p >= 1 ==>
      server(p) == Page(|all|, all[Capacity.Min((p - 1) * PAGE_SIZE, |all|)..Capacity.Min(p * PAGE_SIZE, |all|)])
  }

  /** Effect of describing vSwitches in order: the count is cached afresh and tracking starts over. */
  ghost function Refreshed(s: Ips, items: seq<VSwitchInfo>): Ips {
    if items == [] then s
    else
      var last := items[|items| - 1];
      var t := Refreshed(s, items[..|items| - 1]);
      t.(cached := t.cached[last.id := Item(last.available, s.now + IP_COUNT_TTL)], inflight := t.inflight - {last.id})
  }

  /** What can be described of a list: 359 pages of fifty. */
  function Reach(all: seq<VSwitchInfo>): seq<VSwitchInfo> {
    all[..Capacity.Min(|all|, LAST_PAGE * PAGE_SIZE)]
  }

  lemma NextPage(server: nat -> Page, all: seq<VSwitchInfo>, p: nat)
    requires Serves(server, all) && p >= 1 && (p - 1) * PAGE_SIZE <= |all|
    ensures server(p).Page? && server(p).total == |all|
    ensures |server(p).items| == Capacity.Min(PAGE_SIZE, |all| - (p - 1) * PAGE_SIZE)
    ensures all[..(p - 1) * PAGE_SIZE] + server(p).items == all[..Capacity.Min(p * PAGE_SIZE, |all|)]
    ensures Full(server, p) <==> |all| >= p * PAGE_SIZE
  {
  }

  lemma {:induction false} ServedFrom(server: nat -> Page, all: seq<VSwitchInfo>, p: nat)
    requires Serves(server, all) && 1 <= p <= LAST_PAGE && (p - 1) * PAGE_SIZE <= |all|
    requires Items(server, p - 1) == all[..(p - 1) * PAGE_SIZE]
    ensures LastRequested(server, p) == Capacity.Min(|all| / PAGE_SIZE + 1, LAST_PAGE)
    ensures Items(server, LastRequested(server, p)) == Reach(all)
    decreases LAST_PAGE - p
  {
    NextPage(server, all, p);
    if p < LAST_PAGE && Full(server, p) {
      ServedFrom(server, all, p + 1);
    }
  }

  /** With pages of fifty every vSwitch within reach is described once, in order, in N/50 + 1 requests but at most 359. */
  lemma PagesCoverList(server: nat -> Page, all: seq<VSwitchInfo>)
    requires Serves(server, all)
    ensures Answers(server) && Described(server) == Reach(all)
    ensures Described(server) == if |all| <= 17950 then all else all[..17950]
    ensures LastRequested(server, 1) == if |all| < 17950 then |all| / 50 + 1 else 359
  {
    ServedFrom(server, all, 1);
  }

  /** The served lists, as far as within reach, one after the other. */
  ghost function Reached(served: seq<seq<VSwitchInfo>>): seq<VSwitchInfo> {
    if served == [] then [] else Reached(served[..|served| - 1]) + Reach(served[|served| - 1])
  }

  /** Each term's server serves its list. */
  ghost predicate AllServed(terms: seq<VSwitchTerm>, serve: VSwitchTerm -> nat -> Page, served: seq<seq<VSwitchInfo>>) {
    |served| == |terms| && forall n | 0 <= n < |terms| :: Serves(serve(terms[n]), served[n])
  }

  ghost predicate AllAnswer(terms: seq<VSwitchTerm>, serve: VSwitchTerm -> nat -> Page) {
    forall n | 0 <= n < |terms| :: Answers(serve(terms[n]))
  }

  lemma AllAnswerMore(terms: seq<VSwitchTerm>, serve: VSwitchTerm -> nat -> Page, n: nat)
    requires n < |terms| && AllAnswer(terms[..n], serve)
    ensures if Answers(serve(terms[n])) then AllAnswer(terms[..n + 1], serve) else FailsAt(terms, serve, n)
  {
    assert forall k | 0 <= k < n :: terms[..n][k] == terms[k] == terms[..n + 1][k];
  }

  /** The n-th term is the first to fail. */
  ghost predicate FailsAt(terms: seq<VSwitchTerm>, serve: VSwitchTerm -> nat -> Page, n: int) {
    0 <= n < |terms| && !Answers(serve(terms[n])) && forall k | 0 <= k < n :: Answers(serve(terms[k]))
  }

  lemma {:induction false} AllDescribedIsReached(
    terms: seq<VSwitchTerm>, serve: VSwitchTerm -> nat -> Page, served: seq<seq<VSwitchInfo>>)
    requires AllServed(terms, serve, served)
    ensures AllDescribed(terms, serve) == Reached(served)
    ensures AllAnswer(terms, serve)
  {
    if terms != [] {
      var last := |terms| - 1;
      AllDescribedIsReached(terms[..last], serve, served[..last]);
      PagesCoverList(serve(terms[last]), served[last]);
      assert forall n | 0 <= n < last :: terms[..last][n] == terms[n];
    }
  }

  /** The description of each vSwitch that came last. */
  function Latest(items: seq<VSwitchInfo>): map<string, VSwitchInfo> {
    if items == [] then map[] else Latest(items[..|items| - 1])[items[|items| - 1].id := items[|items| - 1]]
  }

  /** It is an item of the list, the last of its id. */
  lemma {:induction false} LatestMeaning(items: seq<VSwitchInfo>, id: string)
    ensures id in Latest(items) <==> exists k :: 0 <= k < |items| && items[k].id == id
    ensures id in Latest(items) ==>
              exists k :: 0 <= k < |items| && items[k] == Latest(items)[id] && items[k].id == id
                          && forall j | k < j < |items| :: items[j].id != id
  {
    if items != [] {
      var last := |items| - 1;
      LatestMeaning(items[..last], id);
      assert forall k | 0 <= k < last :: items[..last][k] == items[k];
      if items[last].id != id && id in Latest(items) {
        var k :| 0 <= k < last && items[..last][k] == Latest(items[..last])[id] && items[..last][k].id == id
                 && forall j | k < j < last :: items[..last][j].id != id;
        assert items[k] == Latest(items)[id];
      }
    }
  }

  lemma {:induction false} LatestAppend(a: seq<VSwitchInfo>, b: seq<VSwitchInfo>)
    ensures Latest(a + b) == Latest(a) + Latest(b)
  {
    if b == [] {
      assert a + b == a;
    } else {
      LatestAppend(a, b[..|b| - 1]);
      assert (a + b)[..|a + b| - 1] == a + b[..|b| - 1];
    }
  }

  ghost function FreshCounts(
    cached: map<string, Item<int>>, found: map<string, VSwitchInfo>, expiration: int): map<string, Item<int>>
  {
    map id | id in cached.Keys + found.Keys :: if id in found then Item(found[id].available, expiration) else cached[id]
  }

  ghost function Reset(s: Ips, found: map<string, VSwitchInfo>): Ips {
    s.(cached := FreshCounts(s.cached, found, s.now + IP_COUNT_TTL), inflight := s.inflight - found.Keys)
  }

  lemma FreshTwice(cached: map<string, Item<int>>, a: map<string, VSwitchInfo>, b: map<string, VSwitchInfo>, e: int)
    ensures FreshCounts(FreshCounts(cached, a, e), b, e) == FreshCounts(cached, a + b, e)
  {
    var l, r := FreshCounts(FreshCounts(cached, a, e), b, e), FreshCounts(cached, a + b, e);
    assert l.Keys == r.Keys;
    assert forall id | id in l :: l[id] == r[id];
  }

  lemma ResetTwice(s: Ips, a: map<string, VSwitchInfo>, b: map<string, VSwitchInfo>)
    ensures Reset(Reset(s, a), b) == Reset(s, a + b)
  {
    FreshTwice(s.cached, a, b, s.now + IP_COUNT_TTL);
    assert (a + b).Keys == a.Keys + b.Keys;
    assert s.inflight - a.Keys - b.Keys == s.inflight - (a.Keys + b.Keys);
  }

  lemma ResetOne(s: Ips, v: VSwitchInfo)
    ensures Reset(s, map[v.id := v])
            == s.(cached := s.cached[v.id := Item(v.available, s.now + IP_COUNT_TTL)], inflight := s.inflight - {v.id})
  {
    var e := s.now + IP_COUNT_TTL;
    assert FreshCounts(s.cached, map[v.id := v], e) == s.cached[v.id := Item(v.available, e)];
  }

  lemma ResetMore(s: Ips, found: map<string, VSwitchInfo>, v: VSwitchInfo)
    ensures var t := Reset(s, found);
            Reset(s, found + map[v.id := v])
            == t.(cached := t.cached[v.id := Item(v.available, s.now + IP_COUNT_TTL)], inflight := t.inflight - {v.id})
  {
    ResetOne(Reset(s, found), v);
    ResetTwice(s, found, map[v.id := v]);
  }

  /** Describing vSwitches resets exactly those described. */
  lemma {:induction false} RefreshedIsReset(s: Ips, items: seq<VSwitchInfo>)
    ensures Refreshed(s, items) == Reset(s, Latest(items))
  {
    if items == [] {
      assert FreshCounts(s.cached, map[], s.now + IP_COUNT_TTL) == s.cached;
    } else {
      var init, last := items[..|items| - 1], items[|items| - 1];
      RefreshedIsReset(s, init);
      assert Latest(items) == Latest(init) + map[last.id := last];
      ResetMore(s, Latest(init), last);
    }
  }

  /** A described vSwitch is at its last described count for five minutes, and untracked. */
  lemma RefreshedLasts(s: Ips, items: seq<VSwitchInfo>, id: string, later: nat)
    requires id in Latest(items)
    ensures var t := Refreshed(s, items).(now := later);
            id !in t.inflight && Count(t, id) == if later <= s.now + 300 then Latest(items)[id].available else 0
  {
    RefreshedIsReset(s, items);
  }

  lemma {:induction false} RefreshedAppend(s: Ips, a: seq<VSwitchInfo>, b: seq<VSwitchInfo>)
    ensures Refreshed(s, a + b) == Refreshed(Refreshed(s, a), b) && Refreshed(s, a).now == s.now
  {
    if b != [] {
      RefreshedAppend(s, a, b[..|b| - 1]);
      assert (a + b)[..|a + b| - 1] == a + b[..|b| - 1];
    } else if a != [] {
      RefreshedAppend(s, a[..|a| - 1], []);
      assert a[..|a| - 1] + [] == a[..|a| - 1];
      assert a + b == a;
    }
  }

  /** The first terms are described and what they describe has started over. */
  ghost predicate TermsDescribed(
    s: Ips, t: Ips, terms: seq<VSwitchTerm>, serve: VSwitchTerm -> nat -> Page, n: nat, found: map<string, VSwitchInfo>)
  {
    n <= |terms| && found == Latest(AllDescribed(terms[..n], serve)) && t == Reset(s, found)
  }

  lemma NoTermDescribed(s: Ips, terms: seq<VSwitchTerm>, serve: VSwitchTerm -> nat -> Page)
    ensures TermsDescribed(s, s, terms, serve, 0, map[])
  {
    assert FreshCounts(s.cached, map[], s.now + IP_COUNT_TTL) == s.cached;
  }

  lemma OneMoreTerm(
    s: Ips, t: Ips, terms: seq<VSwitchTerm>, serve: VSwitchTerm -> nat -> Page, n: nat, found: map<string, VSwitchInfo>)
    requires n < |terms| && TermsDescribed(s, t, terms, serve, n, found)
    ensures var handled := Described(serve(terms[n]));
            TermsDescribed(s, Refreshed(t, handled), terms, serve, n + 1, found + Latest(handled))
  {
    var handled := Described(serve(terms[n]));
    assert terms[..n + 1][..n] == terms[..n];
    LatestAppend(AllDescribed(terms[..n], serve), handled);
    RefreshedIsReset(Reset(s, found), handled);
    ResetTwice(s, found, Latest(handled));
  }

  lemma ServedOutcome(terms: seq<VSwitchTerm>, serve: VSwitchTerm -> nat -> Page, served: seq<seq<VSwitchInfo>>)
    ensures AllServed(terms, serve, served) ==> AllAnswer(terms, serve) && AllDescribed(terms, serve) == Reached(served)
  {
    if AllServed(terms, serve, served) {
      AllDescribedIsReached(terms, serve, served);
    }
  }

  lemma TermsOutcome(
    s: Ips, t: Ips, terms: seq<VSwitchTerm>, serve: VSwitchTerm -> nat -> Page, n: nat, found: map<string, VSwitchInfo>)
    requires TermsDescribed(s, t, terms, serve, n, found)
    ensures n == |terms| ==> found == Latest(AllDescribed(terms, serve))
    ensures n > 0 && FailsAt(terms, serve, n - 1) ==> !AllAnswer(terms, serve)
    ensures n <= |terms| && t == Reset(s, found) == Reset(s, Latest(AllDescribed(terms[..n], serve)))
  {
    assert terms[..|terms|] == terms;
  }

  class Provider {
    var cached: map<string, Item<int>>
    var inflight: map<string, int>
    var lists: map<set<VSwitchTerm>, Item<map<string, VSwitchInfo>>>

    ghost function View(now: nat): Ips
      reads this
    {
      Ips(now, cached, inflight)
    }

    constructor ()
      ensures cached == map[] && inflight == map[] && lists == map[]
    {
      cached, inflight, lists := map[], map[], map[];
    }

    /** Every described vSwitch gets a fresh cached count and loses its tracked one. */
    method Record(items: seq<VSwitchInfo>, now: nat)
      modifies this`cached, this`inflight
      ensures View(now) == Refreshed(old(View(now)), items)
    {
      for i := 0 to |items|
        invariant View(now) == Refreshed(old(View(now)), items[..i])
      {
        cached := cached[items[i].id := Item(items[i].available, now + IP_COUNT_TTL)];
        inflight := inflight - {items[i].id};
        assert items[..i + 1][..i] == items[..i];
      }
      assert items[..|items|] == items;
    }

    /** One page request after another; the items of each page are recorded as they arrive. It fails exactly when a page it
        asks for fails. */
    method DescribeVSwitches(server: nat -> Page, now: nat) returns (ok: bool, handled: seq<VSwitchInfo>, requests: nat)
      modifies this`cached, this`inflight
      ensures View(now) == Refreshed(old(View(now)), handled)
      ensures handled == Described(server) && requests == LastRequested(server, 1) && (ok <==> Answers(server))
    {
      handled, requests := [], 0;
      while requests < LAST_PAGE
        invariant View(now) == Refreshed(old(View(now)), handled)
        invariant handled == Items(server, requests) && AskedFor(server, requests)
      {
        var output := server(requests + 1);
        PageArrives(server, requests);
        requests := requests + 1;
        if output.Failed? {
          return false, handled, requests;
        }
        RefreshedAppend(old(View(now)), handled, output.items);
        Record(output.items, now);
        handled := handled + output.items;
        if output.total < requests * PAGE_SIZE || |output.items| < PAGE_SIZE {
          return true, handled, requests;
        }
      }
      AllPagesArrived(server);
      ok := true;
    }

    /** The terms are described one after the other, up to the first that fails. */
    method DescribeTerms(terms: seq<VSwitchTerm>, serve: VSwitchTerm -> nat -> Page, now: nat)
      returns (ok: bool, found: map<string, VSwitchInfo>, n: nat)
      modifies this`cached, this`inflight
      ensures if ok then n == |terms| && AllAnswer(terms, serve) else FailsAt(terms, serve, n - 1)
      ensures TermsDescribed(old(View(now)), View(now), terms, serve, n, found)
    {
      n, found := 0, map[];
      NoTermDescribed(View(now), terms, serve);
      while n < |terms|
        invariant TermsDescribed(old(View(now)), View(now), terms, serve, n, found)
        invariant AllAnswer(terms[..n], serve)
      {
        AllAnswerMore(terms, serve, n);
        OneMoreTerm(old(View(now)), View(now), terms, serve, n, found);
        var answered, handled, requests := DescribeVSwitches(serve(terms[n]), now);
        found, n := found + Latest(handled), n + 1;
        if !answered {
          return false, found, n;
        }
      }
      assert terms[..n] == terms;
      ok := true;
    }

    /** A cached list is returned as it is. Otherwise the last description of each vSwitch, over the terms in order, is
        returned and cached, and starts the vSwitch over with the count just described. It fails exactly when a page of some
        term fails; what was described up to the first failing term has then started over, and no list is cached. */
    method List(terms: seq<VSwitchTerm>, serve: VSwitchTerm -> nat -> Page, ghost served: seq<seq<VSwitchInfo>>, now: nat)
      returns (r: Option<map<string, VSwitchInfo>>, ghost n: nat)
      modifies this
      ensures terms == [] ==> r == Some(map[]) && View(now) == old(View(now)) && lists == old(lists)
      ensures terms != [] && Live(old(lists), ToSet(terms), now) ==>
                r == Some(old(lists)[ToSet(terms)].value) && View(now) == old(View(now)) && lists == old(lists)
      ensures terms != [] && !Live(old(lists), ToSet(terms), now) ==>
                && (r.Some? <==> AllAnswer(terms, serve))
                && (r.Some? ==>
                      && r.value == Latest(AllDescribed(terms, serve))
                      && View(now) == Reset(old(View(now)), r.value)
                      && lists == old(lists)[ToSet(terms) := Item(r.value, now + 60)])
                && (AllServed(terms, serve, served) ==> r == Some(Latest(Reached(served))))
      ensures r.None? ==>
                && lists == old(lists) && FailsAt(terms, serve, n)
                && View(now) == Reset(old(View(now)), Latest(AllDescribed(terms[..n + 1], serve)))
    {
      n := 0;
      if terms == [] {
        return Some(map[]), n;
      }
      var key := ToSet(terms);
      if key in lists && !ExpiredAt(lists[key].expiration, now) {
        return Some(lists[key].value), n;
      }
      ServedOutcome(terms, serve, served);
      var ok, found, done := DescribeTerms(terms, serve, now);
      TermsOutcome(old(View(now)), View(now), terms, serve, done, found);
      if !ok {
        return None, done - 1;
      }
      lists := lists[key := Item(found, now + VSWITCH_LIST_TTL)];
      r := Some(found);
    }

    /** Scan of the status list: per zone the entry with the greatest tracked count so far, ties to the earlier. */
    method SelectPerZone(status: seq<VSwitchRef>, now: nat) returns (choices: map<string, Choice>)
      ensures IsSelection(View(now), status, choices)
    {
      ghost var s := View(now);
      choices := map[];
      for n := 0 to |status|
        invariant IsSelection(s, status[..n], choices)
      {
        var v := status[n];
        var count := if v.id in cached && !ExpiredAt(cached[v.id].expiration, now) then cached[v.id].value else 0;
        SelectionExtends(s, status[..n], choices, v);
        assert status[..n + 1] == status[..n] + [v];
        if v.zone in choices {
          var c := choices[v.zone];
          var currentCount := if c.id in inflight then inflight[c.id] else c.original;
          var newCount := if v.id in inflight then inflight[v.id] else count;
          ChoiceRecorded(s, status[..n], choices, v.zone);
          if currentCount >= newCount {
            continue;
          }
        }
        choices := choices[v.zone := Choice(v.id, v.zone, count)];
      }
      assert status[..|status|] == status;
    }

    /** Charges every choice with its zone's prediction, in whatever order the zones are visited. */
    method Charge(choices: map<string, Choice>, types: seq<InstanceType>, capacityType: CapacityType, now: nat)
      returns (ghost predicted: map<string, int>, ghost charge: map<string, int>)
      modifies this`inflight
      ensures Predicts(predicted, types, capacityType, choices.Keys)
      ensures RecordedChoices(old(View(now)), choices) ==>
                IsCharge(choices, predicted, charge) && inflight == Charged(old(View(now)), charge)
    {
      ghost var s := View(now);
      predicted := map z | z in choices :: MinPods(types, OfferingId(z, capacityType));
      ghost var recorded := RecordedChoices(s, choices);
      ghost var done: map<string, Choice> := map[];
      charge := map[];
      var todo := choices.Keys;
      while todo != {}
        invariant todo <= choices.Keys && done.Keys == choices.Keys - todo && forall z | z in done :: done[z] == choices[z]
        invariant recorded ==> ChargedSoFar(s, done, predicted, charge, inflight)
        decreases todo
      {
        var z :| z in todo;
        var c := choices[z];
        var use := MinPods(types, OfferingId(c.zone, capacityType));
        var previous := if c.id in inflight then inflight[c.id] else c.original;
        if recorded {
          ChargeZone(s, done, predicted, charge, inflight, z, c, previous, use);
        }
        inflight := inflight[c.id := previous - use];
        todo, done, charge := todo - {z}, done[z := c], charge[c.id := At(charge, c.id) + use];
      }
      assert done == choices;
    }

    /** One vSwitch per zone, the earliest with the most tracked addresses; exactly the chosen ones are charged,
        each the predictions of its zones. */
    method ZonalVSwitchesForLaunch(status: seq<VSwitchRef>, types: seq<InstanceType>, capacityType: CapacityType, now: nat)
      returns (r: Option<map<string, Choice>>, ghost predicted: map<string, int>, ghost charge: map<string, int>)
      modifies this`inflight
      ensures r.None? <==> status == []
      ensures r.None? ==> inflight == old(inflight)
      ensures r.Some? ==>
                && IsSelection(old(View(now)), status, r.value)
                && Predicts(predicted, types, capacityType, Zones(status))
                && IsCharge(r.value, predicted, charge)
                && inflight == Charged(old(View(now)), charge)
      ensures r.Some? && OneZone(status) ==> Deducted(old(View(now)), View(now), r.value, types, capacityType)
    {
      if status == [] {
        return None, map[], map[];
      }
      var choices := SelectPerZone(status, now);
      SelectionRecorded(View(now), status, choices);
      ghost var before := View(now);
      predicted, charge := Charge(choices, types, capacityType, now);
      if OneZone(status) {
        LaunchDeducts(before, status, choices, types, capacityType, predicted, charge);
      }
      r := Some(choices);
    }

    /** Gives back the deductions of requested vSwitches that were not used, as far as they are still tracked
        against the count the launch saw. */
    method UpdateInflightIPs(
      requested: set<string>, used: set<string>, types: seq<InstanceType>, vSwitches: seq<Choice>,
      capacityType: CapacityType, now: nat)
      modifies this`inflight
      ensures inflight == GivenBack(old(View(now)), requested, used, vSwitches, types, capacityType)
    {
      ghost var s := View(now);
      var addBack := requested - {""} - (used - {""});
      var todo := set id | id in cached && !ExpiredAt(cached[id].expiration, now);
      ghost var all := todo;
      while todo != {}
        invariant todo <= all && inflight.Keys == s.inflight.Keys
        invariant forall id | id in inflight ::
                    inflight[id] == if id in all - todo
                                    then GivenBack(s, requested, used, vSwitches, types, capacityType)[id]
                                    else s.inflight[id]
        decreases todo
      {
        var id :| id in todo;
        todo := todo - {id};
        if id in addBack {
          var k := FindIndex(vSwitches, id);
          if k < |vSwitches| && vSwitches[k].original == cached[id].value && id in inflight {
            inflight := inflight[id := inflight[id] + MinPods(types, OfferingId(vSwitches[k].zone, capacityType))];
          }
        }
      }
    }
  }

  method FindIndex(vSwitches: seq<Choice>, id: string) returns (k: nat)
    ensures k <= |vSwitches|
    ensures k < |vSwitches| ==> Find(vSwitches, id) == Some(vSwitches[k])
    ensures k == |vSwitches| ==> Find(vSwitches, id).None?
  {
    k := 0;
    while k < |vSwitches|
      invariant k <= |vSwitches| && Find(vSwitches, id) == Find(vSwitches[k..], id)
    {
      if vSwitches[k].id == id {
        return;
      }
      k := k + 1;
    }
  }

  ghost function Updated(s: Ips, choices: map<string, Choice>, v: VSwitchRef): map<string, Choice> {
    if v.zone in choices && Tracked(s, choices[v.zone].id) >= Tracked(s, v.id) then choices
    else choices[v.zone := Choice(v.id, v.zone, Count(s, v.id))]
  }

  /** One more entry replaces its zone's choice exactly when it has a greater tracked count. */
  lemma SelectionExtends(s: Ips, status: seq<VSwitchRef>, choices: map<string, Choice>, v: VSwitchRef)
    requires IsSelection(s, status, choices)
    ensures IsSelection(s, status + [v], Updated(s, choices, v))
  {
    var longer, keep := status + [v], v.zone in choices && Tracked(s, choices[v.zone].id) >= Tracked(s, v.id);
    var next := Updated(s, choices, v);
    ZonesExtend(status, v);
    forall z | z in next ensures ChosenIn(s, longer, z, next[z]) {
      if z == v.zone && !keep {
        NewBest(s, status, choices, v);
      } else {
        ChoiceStays(s, status, choices, v, z);
      }
    }
  }

  lemma ChoiceStays(s: Ips, status: seq<VSwitchRef>, choices: map<string, Choice>, v: VSwitchRef, z: string)
    requires IsSelection(s, status, choices) && z in choices
    requires z == v.zone ==> Tracked(s, choices[z].id) >= Tracked(s, v.id)
    ensures ChosenIn(s, status + [v], z, choices[z])
  {
    var k := ChosenEntry(s, status, choices, z);
    assert (status + [v])[k] == status[k] && EarliestBest(s, status + [v], k);
  }

  lemma ZonesExtend(status: seq<VSwitchRef>, v: VSwitchRef)
    ensures Zones(status + [v]) == Zones(status) + {v.zone}
  {
    var longer := status + [v];
    forall z | z in Zones(status) ensures z in Zones(longer) {
      var k :| 0 <= k < |status| && status[k].zone == z;
      assert longer[k].zone == z;
    }
    assert longer[|status|].zone == v.zone;
  }

  lemma NewBest(s: Ips, status: seq<VSwitchRef>, choices: map<string, Choice>, v: VSwitchRef)
    requires IsSelection(s, status, choices)
    requires v.zone in choices ==> Tracked(s, choices[v.zone].id) < Tracked(s, v.id)
    ensures ChosenIn(s, status + [v], v.zone, Choice(v.id, v.zone, Count(s, v.id)))
  {
    var longer := status + [v];
    if v.zone in choices {
      assert ChosenIn(s, status, v.zone, choices[v.zone]);
    } else {
      forall j | 0 <= j < |status| ensures status[j].zone != v.zone {
        assert status[j].zone in Zones(status);
      }
    }
    assert longer[|status|] == v && EarliestBest(s, longer, |status|);
  }
}
