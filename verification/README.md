# Karpenter provider for Alibaba Cloud: a Dafny model of its stateful core

The provider keeps several caches, counters and allocators between its cloud calls, and chooses what to launch from them.
This project models that core and proves what it guarantees over whole runs: every interleaving of the steps that really
interleave, every input, every reachable state. `dafny verify dfyconfig.toml` checks all of it.

| file | what it models |
|---|---|
| `TtlCache.dfy` | go-cache: an expired item reads as absent, a sweep removes it later |
| `UnavailableOfferings.dfy` | marks on offerings that ran out of stock, and their change counter |
| `Capacity.dfy`, `Catalogue.dfy` | capacity arithmetic; what one computation of the instance-type list yields |
| `ListProtocol.dfy` | the versioned-cache protocol between mark writers and list readers, as interleaved steps |
| `InstanceTypeProvider.dfy` | stock responses folded into maps, the loops that compute the list, the provider object |
| `VSwitch.dfy`, `VSwitchLedger.dfy` | the vSwitch provider, and runs of its IP accounting |
| `InstanceCache.dfy` | the fifteen-second instance cache with its re-saves |
| `HashMigration.dfy` | migration of hash versions under failures and crashes; drift checks |
| `GarbageCollection.dfy` | collection of unclaimed instances; the grace period |
| `Pricing.dfy` | price tables as a function of the history of updates |
| `Launch.dfy`, `Images.dfy`, `StatusList.dfy` | launch filters and request; image choice; the published vSwitch list |

Modelling choices. Time is an explicit clock in seconds (real-valued in `GarbageCollection`). Hashes are injective; a slice
hashed as a set is its set of elements. A change monitor compares with the last stored value and forgets it after a day.
Counters are unbounded, prices and percentages exact, the prices a list reads are those of the price tables, and "no price
yet" replaces the largest float. API answers, failures, latencies and map iteration orders are inputs or free choices. Fields
and parameters called history are read by no step. Where the source mutates an object, the model is a class whose methods are
tied to functions of the old state; where goroutines interleave, the same state is a datatype with atomic steps, and claims
are about all sequences of enabled steps.

What the proofs found in the code, each with an input and the exact condition:

- The system disk of the node class decides the storage capacity of a type but is not in the list's cache key, so node classes
  that differ only in it are served each other's lists (`ListProtocol.AnotherDiskIsServed`); so are old prices
  (`ListProtocol.OldPriceIsServed`), for at most five minutes (`ListProtocol.HitStoredRecently`).
- A `Reset` before a list computation reads its types or zones makes it store an empty list under a key the next discovery
  makes current (`ListProtocol.RacingResetLosesEveryType`); one between the types and the stock makes it lose availability
  (`ListProtocol.ResetBetweenReadsLosesStock`); a later one is harmless (`ListProtocol.ResetAfterReadsIsHarmless`). Nothing
  in the source calls `DefaultProvider.Reset` (`instancetype.go:435`). `ListProtocol.HitAgreesExactly` and
  `ListProtocol.HitEqualsExactly` say for every run and every hit exactly when it agrees with or equals a fresh computation.
- A refresh that returns the count a launch saw lets that launch's late add-back raise the tracked count above what is free
  (`VSwitchLedger.SameCountRefreshOvercredits`); this is the only way the ledger is broken
  (`VSwitchLedger.AddBackKeepsExactUnlessSameCount`). Nothing in the source calls `UpdateInflightIPs`.
- Re-saving cached instances can keep serving an instance that no fetch reports any more, without end
  (`InstanceCache.VanishedInstanceServedForever`); an instance is served exactly if a fetch or a re-save, told by the
  operations' guards, lies within fifteen seconds and no deletion followed (`InstanceCache.ServedExactly`).
- Creation times are cut to the minute, so the thirty-second grace period does not protect launches late in a minute, unless
  instances are slow to start (`GarbageCollection.ProtectedExactly`, `GarbageCollection.LateLaunchUnprotected`).
- The cheapest-zone choice also looks at offerings known to be unavailable (`Launch.ChosenZoneAvailableExactly`,
  `Launch.UnavailableZoneCanBeChosen`).
- Selector terms are a priority order but are cached as a set, so a reordering serves the old priority
  (`Images.ServeReordered`); a hit is right exactly if the leading terms of both orders agree on every earliest image
  (`Images.HitRightExactly`, `Images.HitRightByTerms`).
- A spec edit during a hash reconcile misreports drift until the next one (`HashMigration.EditDuringReconcileMisreports`,
  exactly as `HashMigration.VerdictRightExactly` says).
- An offering shares its mark's key with another exactly if its type name or zone has a colon
  (`Catalogue.KeyUniqueExactly`); such names are hypothetical.

## Model

| member | source | states |
|---|---|---|
| ListProtocol.CurrentListHidesMarked | pkg/providers/instancetype/instancetype.go:143-208 | in every interleaving of mark write, bump, expiry, eviction, flush and list steps, the list stored under the current counter shows no offering with an unexpired mark, unless that mark's writer is between write and bump |
| ListProtocol.CommittedMarkNeverShown | pkg/providers/instancetype/instancetype.go:146-166 | a list stored by a reader that read the counter after a mark was bumped never shows the marked offering while the mark is unexpired, whatever the counter is now |
| ListProtocol.HitAgreesWithRecompute | pkg/providers/instancetype/instancetype.go:126-209 | over any run of updates, marks and Resets, with inputs outside the key unchanged and no mark unbumped, a hit has the types, prices and capacity of a fresh computation and is available only where that is, if and only if it read its types and zones before a Reset cleared them or there is nothing to list |
| ListProtocol.HitAgreesExactly | pkg/providers/instancetype/instancetype.go:126-209 | over any run of updates, marks and Resets, each read and each of a Reset's assignments a step of its own, for every hit: it has the types, prices and capacity of a fresh computation and is available only where that is, if and only if every price it was computed with is current, the request's disk and the network plugin give its sizes, and what it shows is unmarked and has spot stock; or, if it read its types or zones after a Reset had cleared them, if and only if there is nothing to list |
| ListProtocol.HitEqualsExactly | pkg/providers/instancetype/instancetype.go:126-209 | a hit equals a fresh computation if and only if moreover what the fresh one shows was found in stock and unmarked by the hit's own reads |
| ListProtocol.HitWithoutReset | pkg/providers/instancetype/instancetype.go:126-209 | in every run without a Reset nothing is read too late, and both if-and-only-ifs hold without the Reset case |
| ListProtocol.HitEqualsRecompute | pkg/providers/instancetype/instancetype.go:143-208 | if moreover no mark it saw has expired and no flush is unbumped, the hit equals the fresh computation if and only if it read types and zones before a Reset cleared them, and so it did the stock of every on-demand offering the fresh one shows, or there is nothing to list |
| ListProtocol.HitStoredRecently | pkg/providers/instancetype/instancetype.go:157-208 | in every run a hit returns what some computation for its key stored at most five minutes before |
| ListProtocol.FreshPriceIsLastUpdate | pkg/providers/instancetype/instancetype.go:399-421 | in every run from static prices a fresh computation lists an on-demand offering at the price of the last successful on-demand update, and a spot offering at that of the last successful spot update that lists the type in its zone; before the first such update, at the static price |
| ListProtocol.CountersMoveExactly | pkg/providers/instancetype/instancetype.go:242-291 | a discovery raises its counter if and only if what it found differs from what the change monitor holds or that is more than a day old, and touches nothing of the other discovery |
| ListProtocol.OldPriceIsServed | pkg/providers/instancetype/instancetype.go:146-166 | a run in which a hit shows the price from before a price update, a different one |
| ListProtocol.AnotherDiskIsServed | pkg/providers/instancetype/instancetype.go:143-152 | a run in which a request with a system disk of another size is served the storage capacity of the first |
| ListProtocol.InvStep | pkg/providers/instancetype/instancetype.go:126-306 | every step keeps the protocol invariant: looks, quotes, entries, discovery counters, read locks and what was read under them |
| ListProtocol.ReaderKept | pkg/providers/instancetype/instancetype.go:126-209 | no step invalidates what an untouched reader has looked up or been quoted |
| ListProtocol.DiscoveryStep | pkg/providers/instancetype/instancetype.go:242-250 | the change counters keep identifying the discovered types and stock |
| ListProtocol.GroundedStep | pkg/providers/instancetype/instancetype.go:168-195 | an entry whose counters are current was computed from the types, zones and stock last stored in the change monitors, except for what was read after a Reset had cleared it, which was read as nothing |
| ListProtocol.RacingResetLosesEveryType | pkg/providers/instancetype/instancetype.go:435-439 | a run in which a Reset between the key and the reads makes a later hit an empty list while a fresh computation has the type; the method has no caller in the source |
| ListProtocol.ResetBetweenReadsLosesStock | pkg/providers/instancetype/instancetype.go:184-195 | a run in which a Reset between the read of the types and the reads of the stock makes a later hit list an offering as unavailable that a fresh computation shows |
| ListProtocol.ResetAfterReadsIsHarmless | pkg/providers/instancetype/instancetype.go:184-208 | a run in which a Reset during a computation, after its reads, leaves a hit equal to a fresh computation |
| ListProtocol.UnbumpedMarkIsServed | pkg/cache/unavailableofferings.go:59-69 | a run in which a hit shows a marked offering between the mark's write and its bump |
| UnavailableOfferings.ConsistentStep | pkg/cache/unavailableofferings.go:41-79 | every mark in place stays committed or has a writer about to bump; the counter never falls |
| UnavailableOfferings.OneBumpPerChange | pkg/cache/unavailableofferings.go:41-79 | in every run the counter has moved exactly once for each write, eviction and flush, less the bumps still to come |
| UnavailableOfferings.LookKept | pkg/cache/unavailableofferings.go:41-79 | what a look-up told stays true under every later mark step: no committed mark was missed, a seen mark stays unless it expires, is rewritten or flushed |
| UnavailableOfferings.LookIsSound | pkg/cache/unavailableofferings.go:53-56 | a look-up establishes that claim |
| UnavailableOfferings.MarkedUntilDeadline | pkg/cache/unavailableofferings.go:59-74 | a mark written and bumped is committed at the new counter and seen by every look until its deadline |
| UnavailableOfferings.OfferingMarks.IsUnavailable | pkg/cache/unavailableofferings.go:53-56 | found exactly when an unexpired mark is cached under the offering's key |
| UnavailableOfferings.OfferingMarks.MarkUnavailableWithTTL | pkg/cache/unavailableofferings.go:59-69 | the write step followed by the bump step |
| UnavailableOfferings.OfferingMarks.Flush | pkg/cache/unavailableofferings.go:76-79 | the clear step followed by the bump step |
| UnavailableOfferings.OfferingMarks.DeleteExpired | vendor/github.com/patrickmn/go-cache/cache.go:931-948 | removes exactly the expired marks and bumps the counter once for each |
| UnavailableOfferings.OfferingMarks.RecordLaunchResults | pkg/providers/instance/instance.go:419-440 | exactly the offerings reported out of stock are marked, for the default time, and the counter rises if there are any |
| Catalogue.BuildAgreesExactly | pkg/providers/instancetype/instancetype.go:184-206 | two computations over the same types and zones differ in availability only, and only one way, if and only if prices and sizes agree and what the first shows is unmarked and has stock in the second |
| Catalogue.BuildEqualsExactly | pkg/providers/instancetype/instancetype.go:184-206 | they are equal if and only if moreover what the second shows is unmarked and has stock in the first |
| Catalogue.AgreementBothWays | pkg/providers/instancetype/instancetype.go:184-206 | agreement both ways is equality of lists |
| Catalogue.PricedIsListed | pkg/providers/instancetype/instancetype.go:399-421 | a priced offering in a known zone is listed, available exactly when unmarked, in stock and covered by a vSwitch |
| Catalogue.KeyUniqueExactly | pkg/cache/unavailableofferings.go:82-84 | no other offering has an offering's mark key if and only if neither its type name nor its zone has a colon |
| Catalogue.MarkKeySpelled | pkg/cache/unavailableofferings.go:82-84 | the key is the capacity type's name, the type and the zone in that order, with colons between |
| Catalogue.MarkKeyCollision | pkg/cache/unavailableofferings.go:82-84 | two offerings with colons, hypothetical names, that share a key |
| InstanceTypeProvider.ProcessResponse | pkg/providers/instancetype/instancetype.go:308-326 | the stock map holds exactly the pairs of an in-stock zone and an in-stock type in it; a missing or empty response is an error |
| InstanceTypeProvider.ProcessAvailableResources | pkg/providers/instancetype/instancetype.go:328-352 | adds exactly what the resources of one zone show, whatever the zone's own status |
| InstanceTypeProvider.StockDetermined | pkg/providers/instancetype/instancetype.go:308-352 | the response determines the stock map |
| InstanceTypeProvider.CreateOfferings | pkg/providers/instancetype/instancetype.go:399-421 | one offering, and no second, for each zone and capacity type with a price, at that price and available exactly when launchable; `InstanceTypeProvider.ListFromResponses` says from which table the price is |
| InstanceTypeProvider.UnionOfZones | pkg/providers/instancetype/instancetype.go:168-173 | the zones of all types, whatever the map order |
| InstanceTypeProvider.NewInstanceType | pkg/providers/instancetype/types.go:108-163 | zone and capacity-type requirements are exactly those of the available offerings; a reported ARM is arm64, anything else amd64 |
| InstanceTypeProvider.ComputeList | pkg/providers/instancetype/instancetype.go:184-205 | types in discovered order, without those that have no priced offering, each matching its inputs |
| InstanceTypeProvider.PricedInOrder | pkg/providers/instancetype/instancetype.go:184-205 | the listed types stand at increasing positions of the discovered list |
| InstanceTypeProvider.ListFromResponses | pkg/providers/instancetype/instancetype.go:184-201 | end to end from two stock responses: which offerings a listed type has, at the price of the type's own on-demand entry or of the pair's own spot entry, available exactly when the response, the vSwitch zones and the marks allow it, and the resulting requirements |
| InstanceTypeProvider.LoopsRefineBuild | pkg/providers/instancetype/instancetype.go:184-206 | the loops compute the catalogue the protocol claims are about |
| InstanceTypeProvider.EligibleElements | pkg/providers/instancetype/instancetype.go:230-240 | a discovery keeps exactly the types that pass the network filter |
| InstanceTypeProvider.Provider.UpdateInstanceTypes | pkg/providers/instancetype/instancetype.go:211-251 | a failed call changes nothing; a successful one is the type-discovery step |
| InstanceTypeProvider.Provider.UpdateInstanceTypeOfferings | pkg/providers/instancetype/instancetype.go:253-306 | the on-demand answer takes effect even if the spot call fails; each map holds exactly what its response shows |
| InstanceTypeProvider.Provider.Reset | pkg/providers/instancetype/instancetype.go:435-439 | types, on-demand stock and list cache are dropped; counters, monitors and spot stock stay |
| InstanceTypeProvider.Provider.List | pkg/providers/instancetype/instancetype.go:109-209 | error on incomplete state, live entry returned unchanged, otherwise computed and stored under the key |
| VSwitchLedger.LedgerBalances | pkg/providers/vswitch/vswitch.go:118-251 | in every interleaving of refreshes, launches, add-backs and time, a vSwitch with a live cached count is tracked at that count less what launches since its refresh still owe, plus late add-backs |
| VSwitchLedger.AddBackKeepsExactUnlessSameCount | pkg/providers/vswitch/vswitch.go:238-249 | an add-back keeps the ledger exact if and only if it is not a late one that finds the launch's count cached again and the vSwitch tracked |
| VSwitchLedger.LateAddBackAfterChangeIsIdle | pkg/providers/vswitch/vswitch.go:238-249 | after a refresh that changed the count, through any further steps up to the next refresh of the vSwitch, an add-back of an earlier launch changes nothing |
| VSwitchLedger.SameCountRefreshOvercredits | pkg/providers/vswitch/vswitch.go:240-248 | a run in which a same-count refresh leaves the full count tracked although a launch owes its charge |
| VSwitchLedger.MethodIsAddBack | pkg/providers/vswitch/vswitch.go:194-251 | the add-back method, called with a launch's own choices and types, is the add-back step |
| VSwitchLedger.LaunchIsSame | pkg/providers/vswitch/vswitch.go:160-189 | a launch records for each of its vSwitches, and no other, the count it saw and the charge that an add-back with its types and choices computes again |
| VSwitchLedger.AddBackReturnsCharge | pkg/providers/vswitch/vswitch.go:194-251 | whatever happened since, an add-back with a launch's choices and types raises a tracked count by exactly what the launch charged it if the vSwitch was requested, not used and passes the guard, and by nothing otherwise |
| VSwitchLedger.GreedyBalance | pkg/providers/vswitch/vswitch.go:160-189 | over any number of launches against one status list, each predicting at most P, every vSwitch launched into stays within P of every other in its zone |
| VSwitchLedger.NoOverdraftWhileRoomLeft | pkg/providers/vswitch/vswitch.go:160-189 | so none goes negative while another of its zone has P or more |
| VSwitchLedger.InvStep | pkg/providers/vswitch/vswitch.go:118-251 | every step keeps the ledger and the launches' records consistent |
| VSwitch.Provider.ZonalVSwitchesForLaunch | pkg/providers/vswitch/vswitch.go:145-191 | exactly one vSwitch per zone, the earliest with the greatest tracked-or-cached count; exactly those are charged, each for all zones it was chosen for; if every vSwitch has one zone, each drops by the least pod capacity of the types with an available offering of its zone and the launch's capacity type, and no other count changes; an empty status list is an error |
| VSwitch.Provider.SelectPerZone | pkg/providers/vswitch/vswitch.go:153-177 | the scan finds that selection |
| VSwitch.Provider.Charge | pkg/providers/vswitch/vswitch.go:179-189 | each chosen vSwitch drops by the sum of the least pod capacities of its zones, whatever the map order |
| VSwitch.LaunchDeducts | pkg/providers/vswitch/vswitch.go:179-189 | for every selection with one zone per vSwitch: each choice ends at its tracked count less the least pod capacity of what can be launched in its zone, the others stay |
| VSwitch.TrackedExactly | pkg/providers/vswitch/vswitch.go:160-177 | a launch goes by the tracked count, without one by the cached count while it lasts, otherwise by zero |
| VSwitch.ChargeOneMore | pkg/providers/vswitch/vswitch.go:179-189 | charging the zones one by one in any order adds up to that sum |
| VSwitch.ChargeOfOneZone | pkg/providers/vswitch/vswitch.go:179-189 | with one zone per vSwitch each choice is charged its own zone's prediction once |
| VSwitch.SelectionUnique | pkg/providers/vswitch/vswitch.go:160-177 | counts and status list determine the selection |
| VSwitch.Provider.UpdateInflightIPs | pkg/providers/vswitch/vswitch.go:194-251 | gives back exactly to requested, unused, still tracked vSwitches whose cached count is the launch's |
| VSwitch.Provider.DescribeVSwitches | pkg/providers/vswitch/vswitch.go:260-288 | the items of exactly the requested pages are handled in order and reset; it fails if and only if a requested page fails |
| VSwitch.RequestedExactly | pkg/providers/vswitch/vswitch.go:268-286 | the requested pages are the first ones up to the last requested one |
| VSwitch.RequestedMeaning | pkg/providers/vswitch/vswitch.go:268-286 | in numbers: page p is requested if and only if p is at most 359 and each page q before it came with fifty items and a total of at least 50q |
| VSwitch.PagesCoverList | pkg/providers/vswitch/vswitch.go:260-288 | with pages of fifty each of the first 17950 items of the list is handled once, in N/50+1 requests but at most 359, and none fails |
| VSwitch.Provider.Record | pkg/providers/vswitch/vswitch.go:118-126 | every described vSwitch gets a fresh count and loses its tracked one |
| VSwitch.Provider.List | pkg/providers/vswitch/vswitch.go:81-142 | a cached list is returned as is; otherwise the last description of each vSwitch over the terms' served items in order, the first 17950 of each, and exactly those start over at their described counts; it fails if and only if a requested page of some term fails, and then exactly what was described up to the first failing term has started over |
| VSwitch.RefreshedIsReset | pkg/providers/vswitch/vswitch.go:118-126 | describing vSwitches in sequence resets exactly those described, the last description winning |
| VSwitch.LatestMeaning | pkg/providers/vswitch/vswitch.go:118-126 | what is kept of an id is the last item that describes it, and there is one exactly if some item does |
| VSwitch.RefreshedLasts | pkg/providers/vswitch/vswitch.go:118-126 | a described vSwitch is untracked and at its last described count for five minutes, then at zero |
| VSwitch.MinPodsIsMinimum | pkg/providers/vswitch/vswitch.go:290-303 | the prediction is the least pod capacity of the launchable types, zero if there is none |
| InstanceCache.ServedRecordIsFresh | pkg/providers/instance/instance.go:128-210 | in every run an id of the last fetch is served with that fetch's record, and nothing is served thirty seconds or more after the last fetch |
| InstanceCache.DeletedNotServed | pkg/providers/instance/instance.go:212-247 | in every run a successfully deleted id is not served until a fetch reports it |
| InstanceCache.DeletedUntilReported | pkg/providers/instance/instance.go:194-247 | only a fetch that reports the id ends that |
| InstanceCache.GoneUnlessSaved | pkg/providers/instance/instance.go:674-678 | an id that no step saves, by the guards of the operations, is gone after fifteen seconds |
| InstanceCache.ServedExactly | pkg/providers/instance/instance.go:128-280 | in every run an id is served if and only if some step saved it at most fifteen seconds ago and no deletion followed; a step saves by fetching a report of the id, or by tagging or a missed look-up while the last fetch is recent and the id is live |
| InstanceCache.StepEntryAfter | pkg/providers/instance/instance.go:128-280 | those guards are exact: a step gives an id a full lifetime from the time it saves it, drops it, or leaves its entry alone |
| InstanceCache.VanishedInstanceServedForever | pkg/providers/instance/instance.go:273-277 | for every n a run in which n fetches in a row miss an instance that is still served |
| InstanceCache.InvStep | pkg/providers/instance/instance.go:128-280 | every operation keeps the cache invariant |
| InstanceCache.GetAnswersRightly | pkg/providers/instance/instance.go:128-146 | for every state, id and fetch: a look-up fails if and only if the id is not live, the last fetch is not within fifteen seconds and the fetch fails; it answers absent if and only if the id is not live and the last fetch is recent or the fetch succeeds without the id; otherwise it finds the live record, or the last reported of the id |
| InstanceCache.DeleteReportsRightly | pkg/providers/instance/instance.go:212-247 | the exact condition of each of deleted, not found, still starting and failed |
| InstanceCache.Provider.Get | pkg/providers/instance/instance.go:128-146 | hit, or list and save and look again; answers as `InstanceCache.GetAnswersRightly` says |
| InstanceCache.Provider.List | pkg/providers/instance/instance.go:194-210 | unexpired items within fifteen seconds of the last fetch, otherwise a fetch that is saved and timed |
| InstanceCache.Provider.Delete | pkg/providers/instance/instance.go:212-247 | reports as `InstanceCache.DeleteReportsRightly` says: starting and pending instances are refused, a failed look-up is a failure and not a vanished instance, only an accepted call drops the entry, a refused one looks up again and reports not found if the instance is gone |
| InstanceCache.Provider.CreateTags | pkg/providers/instance/instance.go:249-280 | after tagging, lists and saves what was listed |
| InstanceCache.Provider.SyncAllInstances | pkg/providers/instance/instance.go:674-678 | each instance gets a full lifetime, the last of an id winning |
| HashMigration.ClassVersionLast | pkg/controllers/nodeclass/hash/controller.go:45-67 | whatever fails, crashes or goes on meanwhile, also after earlier migrations that held claims back, once the class carries the current version so does every launched claim |
| HashMigration.EqualVersionsCompare | pkg/controllers/nodeclass/hash/controller.go:84-117 | equal versions mean both hashes come from one hash function, except for claims held back |
| HashMigration.DriftedExactly | pkg/cloudprovider/drift.go:60-74 | in every state of every run a claim is statically drifted if and only if both hashes are there and, for a claim not held back, they are of one function version and of different specs, for a held-back one, the versions are equal |
| HashMigration.MigrationReportsNone | pkg/cloudprovider/drift.go:60-74 | in every run from hashes of the class's own spec, without edits, whatever fails or crashes, no claim is statically drifted at any point unless it was held back |
| HashMigration.HashChangedBy | pkg/controllers/nodeclass/hash/controller.go:84-117 | in every run a claim's hash comes from its launch or from a patch whose listed copy had another version and was not Drifted |
| HashMigration.HeldBackWasDrifted | pkg/controllers/nodeclass/hash/controller.go:100-106 | in every run a claim that comes to be held back was listed as Drifted by the patch that did it |
| HashMigration.HeldBackStaysDrifted | pkg/controllers/nodeclass/hash/controller.go:100-106 | a claim held back by this or an earlier migration is statically drifted in every later state with a current class |
| HashMigration.StampedNotDrifted | pkg/cloudprovider/drift.go:60-74 | when a reconcile writes the class no claim it stamped is statically drifted |
| HashMigration.StampedStaysUndrifted | pkg/cloudprovider/drift.go:60-74 | in every later state, as long as the claim keeps its stamp, it is statically drifted if and only if the class was last written with another spec |
| HashMigration.VerdictRightExactly | pkg/cloudprovider/drift.go:60-74 | when a reconcile writes the class, the verdict on a claim with a current hash is right if and only if the class was not edited since it was read or the claim has neither spec; a claim that matches the class is reported drifted if and only if the class was edited |
| HashMigration.EditDuringReconcileMisreports | pkg/cloudprovider/cloudprovider.go:107-110 | a claim launched from an edited spec during a reconcile is reported drifted, and the next reconcile clears it |
| HashMigration.InvStep | pkg/controllers/nodeclass/hash/controller.go:45-117 | every step keeps the migration invariant |
| HashMigration.Controller.UpdateNodeClaimHash | pkg/controllers/nodeclass/hash/controller.go:84-117 | every stale claim whose patch succeeds is stamped, Drifted ones with the version only; reports exactly whether all succeeded |
| HashMigration.Controller.Reconcile | pkg/controllers/nodeclass/hash/controller.go:45-67 | the class is written only after every claim is current; freshly stamped claims not marked Drifted are not statically drifted |
| HashMigration.MigrationAddsNoDrift | pkg/cloudprovider/drift.go:37-106 | when a run's reconcile writes the class, a claim it stamped is never reported for its class; the exact condition of each other reason and of the error |
| GarbageCollection.KeptNeverCollected | pkg/controllers/nodeclaim/garbagecollection/controller.go:56-92 | if IDs are written within R of the recorded creation time and ages checked within D of the claim list, R + D at most thirty seconds, no run collects an instance whose claim is kept |
| GarbageCollection.UnclaimedCollected | pkg/controllers/nodeclaim/garbagecollection/controller.go:56-92 | a reconcile deletes an instance if and only if it was not deleted before, no claim carries its ID and its recorded creation is more than thirty seconds ago |
| GarbageCollection.KeptLaunchCollected | pkg/controllers/nodeclaim/garbagecollection/controller.go:56-92 | a run of four steps in which a launch at second 59 whose claim is kept is collected at once |
| GarbageCollection.ProtectedExactly | pkg/utils/utils.go:53-55 | in true time a launch is protected if and only if its second of the minute plus write delay plus check delay is at most thirty, or the two delays are at most the start-up time during which a deletion is refused (`instance.go:219-221`), or the write delay is zero |
| GarbageCollection.LateLaunchUnprotected | pkg/utils/utils.go:53-55 | whenever start-up is shorter than the two delays and the write delay is positive, some launch is deleted |
| GarbageCollection.Controller.Reconcile | pkg/controllers/nodeclaim/garbagecollection/controller.go:56-118 | deletion is asked for exactly the unclaimed, non-deleting instances past the grace period; success, counter and requeue interval follow the reported errors |
| Pricing.OnDemandIsLastSuccess | pkg/providers/pricing/pricing.go:125-206 | after any updates the on-demand price is that of the last successful one, static before the first |
| Pricing.SpotIsLastListing | pkg/providers/pricing/pricing.go:137-240 | after any updates the spot price of a pair is that of the last successful update listing it; the static on-demand price before the first success |
| Pricing.Provider.Reset | pkg/providers/pricing/pricing.go:152-185 | static prices of the region or the default region, spot defaults equal to them |
| Pricing.Provider.UpdateOnDemandPricing | pkg/providers/pricing/pricing.go:187-206 | with a recent or successful synchronisation a non-empty answer replaces the table, and exactly otherwise the update fails and keeps it |
| Pricing.Provider.UpdateSpotPricing | pkg/providers/pricing/pricing.go:207-240 | with a recent or successful synchronisation every listed pair of a non-empty answer is merged, whatever the map order, and exactly otherwise the update fails and keeps the tables |
| Pricing.Provider.Sync | pkg/providers/pricing/pricing.go:242-258 | asks the service only if the last success is more than five minutes old; fails exactly when that call fails |
| Launch.ChainKeepsWhatMatters | pkg/providers/instance/instance.go:284-370 | the filter chain returns a subsequence, never empties a non-empty list, and in a mixed launch keeps a type at the cheapest available on-demand price |
| Launch.ChainIdempotent | pkg/providers/instance/instance.go:284-370 | filtering again changes nothing |
| Launch.CheapestSurvives | pkg/providers/instance/instance.go:348-370 | the spot filter keeps a type at its own bound, so the bound stays the same |
| Launch.FilteredExactly | pkg/providers/instance/instance.go:284-370 | a type passes the chain if and only if it is listed, is not exotic unless all are, and, in a mixed launch, has an available offering no dearer than every available on-demand offering left |
| Launch.ExoticExactly | pkg/providers/instance/instance.go:297-316 | if some type has no GPU and no size containing metal, exactly those types stay, otherwise all |
| Launch.AffordableExactly | pkg/providers/instance/instance.go:348-370 | the spot filter keeps a type if and only if some available offering of it costs no more than every available on-demand offering |
| Launch.MixedExactly | pkg/providers/instance/instance.go:320-344 | a launch is mixed if and only if each capacity type has an available offering compatible with the requirements |
| Launch.CompatibleExactly | pkg/providers/instance/instance.go:320-344 | an offering is compatible if and only if its capacity type's name and its zone, also as zone ID, are among the listed values, or not among the excluded ones |
| Launch.FilterInstanceTypes | pkg/providers/instance/instance.go:284-292 | the loops compute the chain of `Launch.FilteredExactly` |
| Launch.FilterExoticInstanceTypes | pkg/providers/instance/instance.go:297-316 | in the given order the types of `Launch.ExoticExactly` |
| Launch.IsMixedCapacityLaunch | pkg/providers/instance/instance.go:320-344 | both capacity types allowed, and an available compatible offering of each |
| Launch.FilterUnwantedSpot | pkg/providers/instance/instance.go:348-370 | exactly the types with an available offering no dearer than the cheapest available on-demand one |
| Launch.GetCapacityType | pkg/providers/instance/instance.go:477-490 | spot exactly when allowed and some type has an available compatible spot offering |
| Launch.CheckOnDemandFallback | pkg/providers/instance/instance.go:626-638 | warns exactly on a flexible claim falling back to on-demand with fewer than five types |
| Launch.GetVSwitchId | pkg/providers/instance/instance.go:640-672 | some zone's vSwitch for on-demand or balanced, otherwise the scan's |
| Launch.BestOfferingIsCheapest | pkg/providers/instance/instance.go:655-671 | the scan ends with the earliest cheapest compatible offering whose zone has a vSwitch, with none exactly when there is none |
| Launch.CheapestVSwitchMeaning | pkg/providers/instance/instance.go:655-671 | the scan's vSwitch is that of the earliest cheapest compatible offering whose zone has one, and of no other |
| Launch.ChosenZoneAvailableExactly | pkg/providers/instance/instance.go:656-669 | the chosen offering is available if and only if some available candidate beats every unavailable one |
| Launch.UnavailableZoneCanBeChosen | pkg/providers/instance/instance.go:656-669 | an unavailable zone chosen past an available one |
| Launch.GetProvisioningGroup | pkg/providers/instance/instance.go:518-624 | one to twenty configurations in type order, each with the vSwitch of the type's earliest cheapest candidate, or of any zone for on-demand and balanced; a type that gets a vSwitch is left out only after twenty; target capacities sum to one; the image is the first type's; when it succeeds |
| Launch.BuildConfigs | pkg/providers/instance/instance.go:531-549 | the loop yields such configurations and leaves out no other type |
| Images.Provider.GetImages | pkg/providers/imagefamily/image.go:83-128 | without a cached answer the earliest image of each architecture in selector-term order; a cached answer holds the earliest images of the order it was computed for; an unresolved term is an error and caches nothing |
| Images.MapToInstanceTypes | pkg/providers/instance/instance.go:493-507 | each type name gets the first listed image of the last type of that name that has one, and none exactly when none has |
| Images.TypeImage | pkg/providers/instance/instance.go:493-507 | end to end, whatever the published order: a type name gets an image if and only if some type of that name has an architecture some term has an image of, and then the earliest image, of the first such term, for the last such type |
| Images.ImageIndependentOfEnumeration | pkg/providers/imagefamily/image.go:94-127 | whatever the enumeration order of the image map, that is the earliest image in selector-term order |
| Images.ServeReordered | pkg/providers/imagefamily/image.go:84-92 | two calls with reordered terms within a minute: the second is served the first order's image although its own order resolves to another |
| Images.HitRightExactly | pkg/providers/imagefamily/image.go:84-92 | a cached answer is right for the asked order if and only if, for every architecture, it resolves to the same earliest image as the order the answer was computed for |
| Images.HitRightByTerms | pkg/providers/imagefamily/image.go:94-127 | as long as the terms resolve as they did, a cached answer is right for the asked order if and only if, for every architecture, the first terms of the two orders that have an image of it have the same earliest one |
| Images.LeaderDecides | pkg/providers/imagefamily/image.go:94-123 | the earliest image of an architecture is the earliest of the first term that has one |
| StatusList.Publish | pkg/controllers/nodeclass/status/vswitch.go:49-60 | the discovered vSwitches sorted by free addresses, then id, and published with their zones |
| StatusList.StatusIndependentOfEnumeration | pkg/controllers/nodeclass/status/vswitch.go:49-60 | the published list is a function of what was discovered, whatever the enumeration order |
| StatusList.SortedUnique | pkg/controllers/nodeclass/status/vswitch.go:49-54 | a set of vSwitches has one sorted list |
| StatusList.SortedMeaning | pkg/controllers/nodeclass/status/vswitch.go:49-54 | a sorted list has the greater count first, and with equal counts the id that comes first as a string, by its first differing character |
| Capacity.NonNegativeExactlyFrom291 | pkg/providers/instancetype/types.go:63-77 | capacity minus reserved memory is non-negative exactly from 291 MiB up, whatever the pod count |
| Capacity.AllocatableAlmostMonotone | pkg/providers/instancetype/types.go:265-273 | two MiB more never lower it, one MiB lowers it by at most one |
| Capacity.OneMiBCanLower | pkg/providers/instancetype/types.go:265-273 | one MiB can lower it |
| Capacity.CpuOverhead | pkg/providers/instancetype/types.go:80-106 | the accumulated steps are the closed-form reservation curve |
| Capacity.CpuReservationMonotone | pkg/providers/instancetype/types.go:90-106 | over whole cores more cores reserve no less and leave strictly more |
| Capacity.PodsFollowLimits | pkg/providers/instancetype/types.go:275-296 | which limit decides the pod count, and fourteen pods at least for types that passed the Terway filter |
| Capacity.PodsExactly | pkg/providers/instancetype/types.go:275-296 | the pod count is the configured limit or the network's (addresses of all interfaces but one plus three, 256 or 110), or a smaller positive per-core limit; the Terway filter asks for eleven such addresses |
| Capacity.CapacityExactly | pkg/providers/instancetype/types.go:215-230 | millicores, disk or twenty gigabytes, GPUs of each maker, and memory less the least whole MiB that is 6.5 percent of it or more |
| Capacity.ReservedExactly | pkg/providers/instancetype/types.go:63-77 | reserved memory is 200 MiB plus the smaller of 11 per pod plus 255 and a quarter of the memory |

## Left out

- ECS, VPC, ACK and Kubernetes calls: only their answers and failures, as inputs or free choices.
- Requirements other than capacity type, zone, zone ID and architecture, numeric bounds, and minimum-value requirements (with which the filter chain is skipped).
- Truncation to the twenty cheapest types before the launch, and the system-disk filter: the request is modelled for the list they return.
- `resolveInstanceTypes`, label and annotation building, tags, user data, security groups and disks of the request: they would only add easy members.
- Telemetry, events, logging, options, CRDs, tagging, taint and finalizer controllers: no hard property.
- Float rounding, 32-bit and 64-bit wrap-around, and memory sizes that are not whole MiB.
- The random choice of a zone, beyond membership: `Launch.GetVSwitchId` may return any.
- Aliasing of cached slices and maps handed to callers: cached values are immutable here.
- VSwitchLedger.LedgerBalances: runs use status lists in which a vSwitch has one zone, which is how the status is published; the selection and the charge themselves are stated for all.
- VSwitch.Provider.UpdateInflightIPs: an interface step; nothing in the source calls it.
- StatusList.Publish: the sorting algorithm is a stand-in for the library sort, on a value instead of in place; only the sorted result is claimed.
- InstanceCache.Provider.List: an answer from the cache and its saving happen at one instant; only cloud calls take time.
