/** The price tables: static prices at start, replaced or merged by later updates. Prices are exact numbers. */
module Pricing {
  import opened TtlCache

  const SYNC_INTERVAL := 300

  datatype TypePrice = TypePrice(onDemand: real, spot: map<string, real>)

  /** What the price service returns for a region. */
  type Quotes = map<string, TypePrice>

  datatype Zonal = Zonal(defaultPrice: real, prices: map<string, real>)

  datatype Tables = Tables(onDemand: map<string, real>, spot: map<string, Zonal>, spotUpdated: bool)

  /** One update attempt; `None` is a failed synchronisation or a missing answer. */
  datatype Event = OnDemandUpdate(quotes: Option<Quotes>) | SpotUpdate(quotes: Option<Quotes>)

  /** An empty answer counts as a failure. */
  predicate Succeeds(e: Event) {
    e.quotes.Some? && e.quotes.value != map[]
  }

  function Initial(staticPrices: map<string, real>): Tables {
    Tables(staticPrices, map t | t in staticPrices :: Zonal(staticPrices[t], map[]), false)
  }

  /** Spot prices of an update are merged into what is known; a type seen for the first time has default price zero. */
  function Merge(spot: map<string, Zonal>, quotes: Quotes): map<string, Zonal> {
    map t | t in spot.Keys + quotes.Keys ::
      var known := if t in spot then spot[t] else Zonal(0.0, map[]);
      if t in quotes then known.(prices := known.prices + quotes[t].spot) else known
  }

  function Apply(s: Tables, e: Event): Tables {
    if !Succeeds(e) then s
    else match e
      case OnDemandUpdate(q) => s.(onDemand := map t | t in q.value :: q.value[t].onDemand)
      case SpotUpdate(q) => s.(spot := Merge(s.spot, q.value), spotUpdated := true)
  }

  function After(staticPrices: map<string, real>, events: seq<Event>): Tables {
    if events == [] then Initial(staticPrices) else Apply(After(staticPrices, events[..|events| - 1]), events[|events| - 1])
  }

  function OnDemandPrice(s: Tables, t: string): Option<real> {
    if t in s.onDemand then Some(s.onDemand[t]) else None
  }

  function SpotPrice(s: Tables, t: string, zone: string): Option<real> {
    if t !in s.spot then None
    else if !s.spotUpdated then Some(s.spot[t].defaultPrice)
    else if zone in s.spot[t].prices then Some(s.spot[t].prices[zone])
    else None
  }

  // ----- the histories the tables stand for

  /** Position of the last successful on-demand update, or -1. */
  function LastOnDemand(events: seq<Event>): (n: int)
    ensures -1 <= n < |events|
    ensures n >= 0 ==> events[n].OnDemandUpdate? && Succeeds(events[n])
    ensures forall m | n < m < |events| :: !(events[m].OnDemandUpdate? && Succeeds(events[m]))
  {
    if events == [] then -1
    else
      var last := |events| - 1;
      if events[last].OnDemandUpdate? && Succeeds(events[last]) then last else LastOnDemand(events[..last])
  }

  predicate Lists(e: Event, t: string, zone: string) {
    e.SpotUpdate? && Succeeds(e) && t in e.quotes.value && zone in e.quotes.value[t].spot
  }

  /** Position of the last successful spot update that lists the pair, or -1. */
  function LastListing(events: seq<Event>, t: string, zone: string): (n: int)
    ensures -1 <= n < |events|
    ensures n >= 0 ==> Lists(events[n], t, zone)
    ensures forall m | n < m < |events| :: !Lists(events[m], t, zone)
  {
    if events == [] then -1
    else
      var last := |events| - 1;
      if Lists(events[last], t, zone) then last else LastListing(events[..last], t, zone)
  }

  predicate AnySpotSuccess(events: seq<Event>) {
    exists m :: 0 <= m < |events| && events[m].SpotUpdate? && Succeeds(events[m])
  }

  /** After any sequence of successful and failed updates the on-demand price is the one of the last successful
      on-demand update, or the static one before the first. */
  lemma {:induction false} OnDemandIsLastSuccess(staticPrices: map<string, real>, events: seq<Event>, t: string)
    ensures var n := LastOnDemand(events);
            OnDemandPrice(After(staticPrices, events), t) ==
              if n < 0 then (if t in staticPrices then Some(staticPrices[t]) else None)
              else if t in events[n].quotes.value then Some(events[n].quotes.value[t].onDemand) else None
  {
    if events != [] {
      OnDemandIsLastSuccess(staticPrices, events[..|events| - 1], t);
    }
  }

  /** ... and the spot price of a pair is the one of the last successful spot update that lists the pair, or, before
      the first successful spot update, the static on-demand price of the type. */
  lemma {:induction false} SpotIsLastListing(staticPrices: map<string, real>, events: seq<Event>, t: string, zone: string)
    ensures var n := LastListing(events, t, zone);
            SpotPrice(After(staticPrices, events), t, zone) ==
              if !AnySpotSuccess(events) then (if t in staticPrices then Some(staticPrices[t]) else None)
              else if n < 0 then None else Some(events[n].quotes.value[t].spot[zone])
  {
    SpotTables(staticPrices, events, t, zone);
  }

  /** What the spot table holds for a pair, whether or not it is served yet. */
  lemma {:induction false} SpotTables(staticPrices: map<string, real>, events: seq<Event>, t: string, zone: string)
    ensures var s, n := After(staticPrices, events), LastListing(events, t, zone);
            && (s.spotUpdated <==> AnySpotSuccess(events))
            && (n >= 0 <==> t in s.spot && zone in s.spot[t].prices)
            && (n >= 0 ==> s.spot[t].prices[zone] == events[n].quotes.value[t].spot[zone])
            && (t in staticPrices ==> t in s.spot && s.spot[t].defaultPrice == staticPrices[t])
            && (!s.spotUpdated && t in s.spot ==> t in staticPrices)
  {
    if events != [] {
      var last := |events| - 1;
      SpotTables(staticPrices, events[..last], t, zone);
      assert AnySpotSuccess(events) <==>
               AnySpotSuccess(events[..last]) || (events[last].SpotUpdate? && Succeeds(events[last]))
      by {
        if AnySpotSuccess(events[..last]) {
          var m :| 0 <= m < last && events[..last][m].SpotUpdate? && Succeeds(events[..last][m]);
          assert events[m].SpotUpdate? && Succeeds(events[m]);
        }
        if AnySpotSuccess(events) {
          var m :| 0 <= m < |events| && events[m].SpotUpdate? && Succeeds(events[m]);
          assert m < last ==> events[..last][m] == events[m];
        }
      }
    }
  }

  lemma MergeOne(spot: map<string, Zonal>, quotes: Quotes, todo: set<string>, t: string)
    requires todo <= quotes.Keys && t in todo
    ensures var before := Merge(spot, quotes - todo);
            var known := if t in before then before[t] else Zonal(0.0, map[]);
            Merge(spot, quotes - (todo - {t})) == before[t := known.(prices := known.prices + quotes[t].spot)]
  {
    var before, after := Merge(spot, quotes - todo), Merge(spot, quotes - (todo - {t}));
    assert after.Keys == before.Keys + {t};
    forall u | u in before && u != t
      ensures u in after && after[u] == before[u]
    {
      assert u in quotes - todo <==> u in quotes - (todo - {t});
    }
    assert t in quotes - (todo - {t}) && t !in quotes - todo;
  }

  const DEFAULT_REGION := "cn-qingdao"

  /** The static prices of a region, or of the default region when there are none. */
  function StaticPrices(prices: map<string, map<string, real>>, region: string): map<string, real> {
    if region in prices then prices[region] else if DEFAULT_REGION in prices then prices[DEFAULT_REGION] else map[]
  }

  /** The last synchronisation is at most five minutes old. */
  predicate Recent(lastSync: Option<nat>, now: nat) {
    lastSync.Some? && now <= lastSync.value + SYNC_INTERVAL
  }

  /** What an update works with: the service's answer if it is synchronised, nothing otherwise. */
  function Synced(reachable: bool, lastSync: Option<nat>, answer: Option<Quotes>, now: nat): Option<Quotes> {
    if reachable || Recent(lastSync, now) then answer else None
  }

  class Provider {
    var onDemand: map<string, real>
    var spot: map<string, Zonal>
    var spotUpdated: bool
    var lastSync: Option<nat>

    ghost function View(): Tables
      reads this
    {
      Tables(onDemand, spot, spotUpdated)
    }

    constructor (prices: map<string, map<string, real>>, region: string)
      ensures View() == Initial(StaticPrices(prices, region)) && lastSync == None
    {
      onDemand, spot, spotUpdated, lastSync := map[], map[], false, None;
      new;
      Reset(prices, region);
    }

    method Reset(prices: map<string, map<string, real>>, region: string)
      modifies this`onDemand, this`spot, this`spotUpdated
      ensures View() == Initial(StaticPrices(prices, region))
      ensures region in prices ==> onDemand == prices[region]
      ensures region !in prices && "cn-qingdao" in prices ==> onDemand == prices["cn-qingdao"]
    {
      var staticPrices := StaticPrices(prices, region);
      onDemand := staticPrices;
      var m: map<string, Zonal> := map[];
      var todo := staticPrices.Keys;
      while todo != {}
        invariant todo <= staticPrices.Keys
        invariant m == map t | t in staticPrices && t !in todo :: Zonal(staticPrices[t], map[])
        decreases todo
      {
        var t :| t in todo;
        m, todo := m[t := Zonal(staticPrices[t], map[])], todo - {t};
      }
      spot, spotUpdated := m, false;
    }

    /** Synchronises with the price service unless that happened within the last five minutes. */
    method Sync(reachable: bool, now: nat) returns (ok: bool)
      modifies this`lastSync
      ensures ok <==> reachable || Recent(old(lastSync), now)
      ensures ok <==> reachable || (old(lastSync).Some? && now <= old(lastSync).value + 300)
      ensures lastSync == if ok && !Recent(old(lastSync), now) then Some(now) else old(lastSync)
    {
      if lastSync.None? || lastSync.value + SYNC_INTERVAL < now {
        if !reachable {
          return false;
        }
        lastSync := Some(now);
      }
      ok := true;
    }

    method UpdateOnDemandPricing(reachable: bool, answer: Option<Quotes>, now: nat) returns (ok: bool, ghost e: Event)
      modifies this
      ensures e == OnDemandUpdate(Synced(reachable, old(lastSync), answer, now))
      ensures ok <==> Succeeds(e)
      ensures ok <==>
                && (reachable || (old(lastSync).Some? && now <= old(lastSync).value + 300))
                && answer.Some? && answer.value != map[]
      ensures View() == Apply(old(View()), e)
      ensures lastSync == if reachable && !Recent(old(lastSync), now) then Some(now) else old(lastSync)
    {
      var synced := Sync(reachable, now);
      if !synced {
        return false, OnDemandUpdate(None);
      }
      if answer.None? || answer.value == map[] {
        return false, OnDemandUpdate(answer);
      }
      onDemand := map t | t in answer.value :: answer.value[t].onDemand;
      return true, OnDemandUpdate(answer);
    }

    /** Types and zones are merged one by one, in whatever order the maps are traversed. */
    method UpdateSpotPricing(reachable: bool, answer: Option<Quotes>, now: nat) returns (ok: bool, ghost e: Event)
      modifies this
      ensures e == SpotUpdate(Synced(reachable, old(lastSync), answer, now))
      ensures ok <==> Succeeds(e)
      ensures ok <==>
                && (reachable || (old(lastSync).Some? && now <= old(lastSync).value + 300))
                && answer.Some? && answer.value != map[]
      ensures View() == Apply(old(View()), e)
      ensures lastSync == if reachable && !Recent(old(lastSync), now) then Some(now) else old(lastSync)
    {
      var synced := Sync(reachable, now);
      if !synced {
        return false, SpotUpdate(None);
      }
      if answer.None? || answer.value == map[] {
        return false, SpotUpdate(answer);
      }
      var quotes := answer.value;
      var todo := quotes.Keys;
      while todo != {}
        invariant todo <= quotes.Keys && onDemand == old(onDemand)
        invariant lastSync == if reachable && !Recent(old(lastSync), now) then Some(now) else old(lastSync)
        invariant spot == Merge(old(spot), quotes - todo)
        decreases todo
      {
        var t :| t in todo;
        var known := if t in spot then spot[t] else Zonal(0.0, map[]);
        var prices := MergeZones(known.prices, quotes[t].spot);
        MergeOne(old(spot), quotes, todo, t);
        spot := spot[t := known.(prices := prices)];
        todo := todo - {t};
      }
      assert quotes - todo == quotes;
      spotUpdated := true;
      return true, SpotUpdate(answer);
    }
  }

  method MergeZones(prices: map<string, real>, update: map<string, real>) returns (r: map<string, real>)
    ensures r == prices + update
  {
    r := prices;
    var todo := update.Keys;
    while todo != {}
      invariant todo <= update.Keys
      invariant r == prices + (update - todo)
      decreases todo
    {
      var z :| z in todo;
      r, todo := r[z := update[z]], todo - {z};
    }
    assert update - todo == update;
  }
}
