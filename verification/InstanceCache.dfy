/** The instance provider's cache: a fifteen-second cache of instances plus the time of the last full fetch. Both `Get`
    and `CreateTags` save again whatever `List` returned, also when `List` answered from the cache. */
module InstanceCache {
  import opened TtlCache

  const TTL := 15

  datatype Instance = Instance(id: string, status: string, tags: map<string, string>)

  /** `lastFetch` and `deleted` are history: what the most recent cloud fetch reported, and the ids deleted successfully
      since a fetch last reported them. */
  datatype State = State(
    now: nat, items: map<string, Item<Instance>>, lastUpdate: Option<nat>,
    lastFetch: map<string, Instance>, deleted: set<string>)

  /** A cloud fetch: what it reports and how long it takes; `None` is a failure. */
  datatype Fetch = Fetch(reported: Option<seq<Instance>>, latency: nat)

  datatype Answer = Found(instance: Instance) | Absent | Failed

  datatype DeleteCall = Gone | Refused | Accepted

  /** What `Delete` reports: success, that the instance does not exist, that it is still starting, or another error. */
  datatype Outcome = Deleted | NotFound | StateNotSupported | DeleteFailed

  function Init(now: nat): State {
    State(now, map[], None, map[], {})
  }

  function ById(instances: seq<Instance>): map<string, Instance> {
    if instances == [] then map[]
    else
      var last := instances[|instances| - 1];
      ById(instances[..|instances| - 1])[last.id := last]
  }

  /** Saving instances: each gets a full lifetime from now. */
  function Saved(items: map<string, Item<Instance>>, instances: map<string, Instance>, now: nat): map<string, Item<Instance>> {
    map k | k in items.Keys + instances.Keys :: if k in instances then Item(instances[k], now + TTL) else items[k]
  }

  function LiveInstances(s: State): map<string, Instance> {
    map k | k in s.items && !ExpiredAt(s.items[k].expiration, s.now) :: s.items[k].value
  }

  /** `List` answers from the cache. */
  predicate FromCache(s: State) {
    s.lastUpdate.Some? && s.now - s.lastUpdate.value < TTL
  }

  /** State after `List`, and the listed instances unless the fetch failed. */
  function DoList(s: State, f: Fetch): (State, Option<map<string, Instance>>) {
    if FromCache(s) then (s, Some(LiveInstances(s)))
    else
      var later := s.now + f.latency;
      if f.reported.None? then (s.(now := later), None)
      else
        var reported := ById(f.reported.value);
        (State(later, Saved(s.items, reported, later), Some(later), reported, s.deleted - reported.Keys), Some(reported))
  }

  /** `List`, then saving what it returned. */
  function ListAndSave(s: State, f: Fetch): (State, bool) {
    var (t, listed) := DoList(s, f);
    if listed.None? then (t, false) else (t.(items := Saved(t.items, listed.value, t.now)), true)
  }

  function Look(s: State, id: string): Answer {
    if Live(s.items, id, s.now) then Found(s.items[id].value) else Absent
  }

  function DoGet(s: State, id: string, f: Fetch): (State, Answer) {
    if Live(s.items, id, s.now) then (s, Found(s.items[id].value))
    else
      var (t, ok) := ListAndSave(s, f);
      if ok then (t, Look(t, id)) else (t, Failed)
  }

  /** The delete call. A refused call looks the instance up once more, which may fetch again. */
  function Call(s: State, id: string, call: DeleteCall, latency: nat, f: Fetch): (State, Outcome) {
    var t := s.(now := s.now + latency);
    match call
    case Gone => (t, NotFound)
    case Refused => var (u, again) := DoGet(t, id, f); (u, if again.Absent? then NotFound else DeleteFailed)
    case Accepted => (t.(items := t.items - {id}, deleted := t.deleted + {id}), Deleted)
  }

  predicate StillStarting(i: Instance) {
    i.status == "Starting" || i.status == "Pending"
  }

  predicate Deletable(answer: Answer) {
    answer.Found? && !StillStarting(answer.instance)
  }

  /** State after `Delete`, and what it reports. An instance that is still starting is not deleted. */
  function DoDelete(s: State, id: string, f: Fetch, call: DeleteCall, latency: nat, f': Fetch): (State, Outcome) {
    var (t, answer) := DoGet(s, id, f);
    if Deletable(answer) then Call(t, id, call, latency, f')
    else (t, match answer case Found(_) => StateNotSupported case Absent => NotFound case Failed => DeleteFailed)
  }

  datatype Step =
    | Tick(d: nat)
    | Get(id: string, f: Fetch)
    | List(f: Fetch)
    | Delete(id: string, f: Fetch, call: DeleteCall, latency: nat, f': Fetch)
    | CreateTags(tagged: bool, f: Fetch)

  function Next(s: State, step: Step): State {
    match step
    case Tick(d) => s.(now := s.now + d)
    case Get(id, f) => DoGet(s, id, f).0
    case List(f) => DoList(s, f).0
    case Delete(id, f, call, latency, f') => DoDelete(s, id, f, call, latency, f').0
    case CreateTags(tagged, f) => if tagged then ListAndSave(s, f).0 else s
  }

  function After(s: State, steps: seq<Step>): State
    decreases |steps|
  {
    if steps == [] then s else After(Next(s, steps[0]), steps[1..])
  }

  // ----- what every operation keeps

  ghost predicate ItemInv(s: State, k: string)
    requires k in s.items
  {
    && s.items[k].value.id == k && k !in s.deleted
    && (k in s.lastFetch ==> s.items[k].value == s.lastFetch[k])
    && 0 < s.items[k].expiration <= s.now + TTL
    && s.lastUpdate.Some? && s.items[k].expiration < s.lastUpdate.value + 2 * TTL
  }

  ghost predicate Inv(s: State) {
    && (s.lastUpdate.Some? ==> s.lastUpdate.value <= s.now)
    && forall k | k in s.items :: ItemInv(s, k)
  }

  lemma {:induction false} ByIdKeys(instances: seq<Instance>)
    ensures forall k | k in ById(instances) :: ById(instances)[k].id == k
  {
    if instances != [] {
      ByIdKeys(instances[..|instances| - 1]);
    }
  }

  /** The last instance of each id counts. */
  lemma {:induction false} ByIdMeaning(instances: seq<Instance>, id: string)
    ensures id in ById(instances) <==> exists k :: 0 <= k < |instances| && instances[k].id == id
    ensures id in ById(instances) ==>
              exists k :: 0 <= k < |instances| && instances[k] == ById(instances)[id] && instances[k].id == id
                          && forall j | k < j < |instances| :: instances[j].id != id
  {
    if instances != [] {
      var last := |instances| - 1;
      ByIdMeaning(instances[..last], id);
      assert forall k | 0 <= k < last :: instances[..last][k] == instances[k];
      if instances[last].id != id && id in ById(instances) {
        var k :| 0 <= k < last && instances[..last][k] == ById(instances[..last])[id] && instances[..last][k].id == id
                 && forall j | k < j < last :: instances[..last][j].id != id;
        assert instances[k] == ById(instances)[id];
      }
    }
  }

  lemma ListKeeps(s: State, f: Fetch)
    requires Inv(s)
    ensures var (t, listed) := DoList(s, f);
            && Inv(t)
            && (listed.Some? ==> t.lastUpdate.Some? && t.now < t.lastUpdate.value + TTL)
            && (listed.Some? ==> forall k | k in listed.value :: Recorded(t, k, listed.value[k]))
  {
    if !FromCache(s) && f.reported.Some? {
      ByIdKeys(f.reported.value);
      var t := DoList(s, f).0;
      forall k | k in t.items ensures ItemInv(t, k) {
        if k in s.items {
          assert ItemInv(s, k);
        }
      }
    } else {
      var t := DoList(s, f).0;
      forall k | k in t.items ensures ItemInv(t, k) {
        assert ItemInv(s, k);
      }
    }
  }

  /** A listed record is cached, under its id, as it was listed. */
  ghost predicate Recorded(s: State, k: string, i: Instance) {
    k in s.items && s.items[k].value == i
  }

  lemma SaveKeeps(s: State, f: Fetch)
    requires Inv(s)
    ensures Inv(ListAndSave(s, f).0)
  {
    ListKeeps(s, f);
    var (t, listed) := DoList(s, f);
    var u := ListAndSave(s, f).0;
    forall k | k in u.items ensures ItemInv(u, k) {
      assert k in t.items ==> ItemInv(t, k);
      if listed.Some? && k in listed.value {
        assert Recorded(t, k, listed.value[k]);
      }
    }
  }

  lemma GetKeeps(s: State, id: string, f: Fetch)
    requires Inv(s)
    ensures Inv(DoGet(s, id, f).0)
  {
    SaveKeeps(s, f);
  }

  lemma TickKeeps(s: State, d: nat)
    requires Inv(s)
    ensures Inv(s.(now := s.now + d))
  {
    var t := s.(now := s.now + d);
    forall k | k in t.items ensures ItemInv(t, k) {
      assert ItemInv(s, k);
    }
  }

  lemma RemoveKeeps(s: State, id: string)
    requires Inv(s)
    ensures Inv(s.(items := s.items - {id}, deleted := s.deleted + {id}))
  {
    var t := s.(items := s.items - {id}, deleted := s.deleted + {id});
    forall k | k in t.items ensures ItemInv(t, k) {
      assert ItemInv(s, k);
    }
  }

  lemma AnsweredKeeps(t: State, id: string, call: DeleteCall, f: Fetch, u: State)
    requires Inv(t)
    requires u == match call
                  case Gone => t
                  case Refused => DoGet(t, id, f).0
                  case Accepted => t.(items := t.items - {id}, deleted := t.deleted + {id})
    ensures Inv(u)
  {
    match call
    case Gone =>
    case Refused => GetKeeps(t, id, f);
    case Accepted => RemoveKeeps(t, id);
  }

  lemma CallKeeps(s: State, id: string, call: DeleteCall, latency: nat, f: Fetch)
    requires Inv(s)
    ensures Inv(Call(s, id, call, latency, f).0)
  {
    TickKeeps(s, latency);
    AnsweredKeeps(s.(now := s.now + latency), id, call, f, Call(s, id, call, latency, f).0);
  }

  lemma DeleteKeeps(s: State, id: string, f: Fetch, call: DeleteCall, latency: nat, f': Fetch)
    requires Inv(s)
    ensures Inv(DoDelete(s, id, f, call, latency, f').0)
  {
    GetKeeps(s, id, f);
    CallKeeps(DoGet(s, id, f).0, id, call, latency, f');
  }

  lemma InvStep(s: State, step: Step)
    requires Inv(s)
    ensures Inv(Next(s, step))
  {
    match step
    case Tick(d) => TickKeeps(s, d);
    case Get(id, f) => GetKeeps(s, id, f);
    case List(f) => ListKeeps(s, f);
    case Delete(id, f, call, latency, f') => DeleteKeeps(s, id, f, call, latency, f');
    case CreateTags(tagged, f) => SaveKeeps(s, f);
  }

  lemma {:induction false} InvRuns(s: State, steps: seq<Step>)
    requires Inv(s)
    ensures Inv(After(s, steps))
    decreases |steps|
  {
    if steps != [] {
      InvStep(s, steps[0]);
      InvRuns(Next(s, steps[0]), steps[1..]);
    }
  }

  // ----- the claims

  /** In every run, an id of the most recent fetch is served with that fetch's record, and everything is served less than
      thirty seconds after that fetch. */
  lemma ServedRecordIsFresh(now: nat, steps: seq<Step>, id: string)
    requires Live(After(Init(now), steps).items, id, After(Init(now), steps).now)
    ensures var s := After(Init(now), steps);
            && (id in s.lastFetch ==> s.items[id].value == s.lastFetch[id])
            && s.items[id].value.id == id
            && s.lastUpdate.Some? && s.now < s.lastUpdate.value + 30
  {
    InvRuns(Init(now), steps);
    assert ItemInv(After(Init(now), steps), id);
  }

  /** In every run, an id deleted successfully is not served, by `Get` or by `List`, until a fetch reports it again. */
  lemma DeletedNotServed(now: nat, steps: seq<Step>, id: string, f: Fetch)
    requires id in After(Init(now), steps).deleted
    ensures var s := After(Init(now), steps);
            && (DoGet(s, id, f).1.Found? ==> !FromCache(s) && f.reported.Some? && id in ById(f.reported.value))
            && (DoList(s, f).1.Some? && id in DoList(s, f).1.value ==> !FromCache(s) && id in ById(f.reported.value))
  {
    InvRuns(Init(now), steps);
    var s := After(Init(now), steps);
    assert id in s.items ==> ItemInv(s, id);
  }

  ghost predicate Reports(f: Fetch, id: string) {
    f.reported.Some? && id in ById(f.reported.value)
  }

  lemma GetKeepsDeleted(s: State, looked: string, f: Fetch, id: string)
    requires id in s.deleted
    ensures id in DoList(s, f).0.deleted || Reports(f, id)
    ensures id in ListAndSave(s, f).0.deleted || Reports(f, id)
    ensures id in DoGet(s, looked, f).0.deleted || Reports(f, id)
  {
  }

  lemma DeleteKeepsDeleted(s: State, deleted: string, f: Fetch, call: DeleteCall, latency: nat, f': Fetch, id: string)
    requires id in s.deleted && !Reports(f, id)
    ensures id in DoDelete(s, deleted, f, call, latency, f').0.deleted || Reports(f', id)
  {
    var t := DoGet(s, deleted, f).0;
    GetKeepsDeleted(s, deleted, f, id);
    GetKeepsDeleted(t.(now := t.now + latency), deleted, f', id);
  }

  /** Only a fetch that reports a deleted id takes it off the record. */
  lemma DeletedUntilReported(s: State, step: Step, id: string)
    requires id in s.deleted && id !in Next(s, step).deleted
    ensures !step.Tick? && (Reports(step.f, id) || (step.Delete? && Reports(step.f', id)))
  {
    match step
    case Tick(_) =>
    case Get(looked, f) => GetKeepsDeleted(s, looked, f, id);
    case List(f) => GetKeepsDeleted(s, "", f, id);
    case CreateTags(_, f) => GetKeepsDeleted(s, "", f, id);
    case Delete(deleted, f, call, latency, f') =>
      if !Reports(f, id) {
        DeleteKeepsDeleted(s, deleted, f, call, latency, f', id);
      }
  }

  // ----- which steps save an instance, and how long it is served

  /** When a list that is saved again saves the id: from the cache if the id is live, otherwise if the fetch reports it. */
  ghost function ListSaveTime(s: State, f: Fetch, id: string): Option<nat> {
    if FromCache(s) then (if Live(s.items, id, s.now) then Some(s.now) else None)
    else if Reports(f, id) then Some(s.now + f.latency) else None
  }

  /** A look-up saves nothing if it finds its own instance. */
  ghost function GetSaveTime(s: State, looked: string, f: Fetch, id: string): Option<nat> {
    if Live(s.items, looked, s.now) then None else ListSaveTime(s, f, id)
  }

  /** A refused deletion looks up again. */
  ghost function CallSaveTime(s: State, deleted: string, call: DeleteCall, latency: nat, f: Fetch, id: string): Option<nat> {
    if call.Refused? then GetSaveTime(s.(now := s.now + latency), deleted, f, id) else None
  }

  ghost function DeleteSaveTime(
    s: State, deleted: string, f: Fetch, call: DeleteCall, latency: nat, f': Fetch, id: string): Option<nat>
  {
    var (t, answer) := DoGet(s, deleted, f);
    var again := if Deletable(answer) then CallSaveTime(t, deleted, call, latency, f', id) else None;
    if again.Some? then again else GetSaveTime(s, deleted, f, id)
  }

  /** When the step saves the id, read off the guards of its operation. */
  ghost function SaveTime(s: State, step: Step, id: string): Option<nat> {
    match step
    case Tick(_) => None
    case Get(looked, f) => GetSaveTime(s, looked, f, id)
    case List(f) => if FromCache(s) then None else ListSaveTime(s, f, id)
    case CreateTags(tagged, f) => if tagged then ListSaveTime(s, f, id) else None
    case Delete(deleted, f, call, latency, f') => DeleteSaveTime(s, deleted, f, call, latency, f', id)
  }

  /** The step deletes the id and drops its entry. */
  ghost predicate Drops(s: State, step: Step, id: string) {
    step.Delete? && step.id == id && step.call.Accepted? && Deletable(DoGet(s, id, step.f).1)
  }

  /** The entry of the id after an operation that saves it at `saved`, or not at all. */
  ghost predicate EntryAfter(
    before: map<string, Item<Instance>>, saved: Option<nat>, after: map<string, Item<Instance>>, id: string)
  {
    if saved.Some? then id in after && after[id].expiration == saved.value + TTL
    else (id in after <==> id in before) && (id in after ==> after[id] == before[id])
  }

  lemma GetEntryAfter(s: State, looked: string, f: Fetch, id: string)
    ensures EntryAfter(s.items, ListSaveTime(s, f, id), ListAndSave(s, f).0.items, id)
    ensures EntryAfter(s.items, GetSaveTime(s, looked, f, id), DoGet(s, looked, f).0.items, id)
  {
  }

  lemma CallEntryAfter(s: State, deleted: string, call: DeleteCall, latency: nat, f: Fetch, id: string)
    requires !(call.Accepted? && deleted == id)
    ensures EntryAfter(s.items, CallSaveTime(s, deleted, call, latency, f, id), Call(s, deleted, call, latency, f).0.items, id)
  {
    GetEntryAfter(s.(now := s.now + latency), deleted, f, id);
  }

  lemma DeleteEntryAfter(s: State, deleted: string, f: Fetch, call: DeleteCall, latency: nat, f': Fetch, id: string)
    requires !Drops(s, Delete(deleted, f, call, latency, f'), id)
    ensures EntryAfter(s.items, DeleteSaveTime(s, deleted, f, call, latency, f', id),
                       DoDelete(s, deleted, f, call, latency, f').0.items, id)
  {
    var (t, answer) := DoGet(s, deleted, f);
    GetEntryAfter(s, deleted, f, id);
    if Deletable(answer) {
      CallEntryAfter(t, deleted, call, latency, f', id);
    }
  }

  /** A step gives an id a full lifetime from the time it saves it, drops it, or leaves its entry alone. */
  lemma StepEntryAfter(s: State, step: Step, id: string)
    ensures if Drops(s, step, id) then id !in Next(s, step).items
            else EntryAfter(s.items, SaveTime(s, step, id), Next(s, step).items, id)
  {
    match step
    case Tick(_) =>
    case Get(looked, f) => GetEntryAfter(s, looked, f, id);
    case List(f) =>
    case CreateTags(_, f) => GetEntryAfter(s, "", f, id);
    case Delete(deleted, f, call, latency, f') =>
      if !Drops(s, step, id) {
        DeleteEntryAfter(s, deleted, f, call, latency, f', id);
      }
  }

  lemma GetClock(s: State, looked: string, f: Fetch, id: string)
    ensures s.now <= ListAndSave(s, f).0.now && s.now <= DoGet(s, looked, f).0.now
    ensures var saved := ListSaveTime(s, f, id); saved.Some? ==> s.now <= saved.value <= ListAndSave(s, f).0.now
    ensures var saved := GetSaveTime(s, looked, f, id); saved.Some? ==> s.now <= saved.value <= DoGet(s, looked, f).0.now
  {
  }

  lemma CallClock(s: State, deleted: string, call: DeleteCall, latency: nat, f: Fetch, id: string)
    ensures s.now <= Call(s, deleted, call, latency, f).0.now
    ensures var saved := CallSaveTime(s, deleted, call, latency, f, id);
            saved.Some? ==> s.now <= saved.value <= Call(s, deleted, call, latency, f).0.now
  {
    GetClock(s.(now := s.now + latency), deleted, f, id);
  }

  /** The clock does not run backwards, and a save happens while the step runs. */
  lemma StepClock(s: State, step: Step, id: string)
    ensures s.now <= Next(s, step).now
    ensures var saved := SaveTime(s, step, id); saved.Some? ==> s.now <= saved.value <= Next(s, step).now
  {
    match step
    case Tick(_) =>
    case Get(looked, f) => GetClock(s, looked, f, id);
    case List(f) =>
    case CreateTags(_, f) => GetClock(s, "", f, id);
    case Delete(deleted, f, call, latency, f') =>
      GetClock(s, deleted, f, id);
      CallClock(DoGet(s, deleted, f).0, deleted, call, latency, f', id);
  }

  /** The state before the k-th step. */
  ghost function Before(init: State, steps: seq<Step>, k: nat): State
    requires k <= |steps|
  {
    After(init, steps[..k])
  }

  /** The k-th step saves the id at `saved`, and neither it nor a later step drops it. */
  ghost predicate SavedAndKept(init: State, steps: seq<Step>, id: string, k: nat, saved: nat)
    requires k < |steps|
  {
    && SaveTime(Before(init, steps, k), steps[k], id) == Some(saved)
    && forall j | k <= j < |steps| :: !Drops(Before(init, steps, j), steps[j], id)
  }

  lemma LastStep(init: State, steps: seq<Step>)
    requires steps != []
    ensures var last := |steps| - 1;
            && After(init, steps) == Next(Before(init, steps, last), steps[last])
            && forall k | 0 <= k <= last :: Before(init, steps[..last], k) == Before(init, steps, k)
  {
    var last := |steps| - 1;
    assert steps == steps[..last] + [steps[last]];
    AfterAppend(init, steps[..last], [steps[last]]);
    assert [steps[last]][1..] == [];
    assert forall k | 0 <= k <= last :: steps[..last][..k] == steps[..k];
  }

  /** What is cached was saved by some step and not dropped since. */
  lemma {:induction false} CachedWasSaved(init: State, steps: seq<Step>, id: string) returns (k: nat, saved: nat)
    requires id !in init.items && id in After(init, steps).items
    ensures k < |steps| && SavedAndKept(init, steps, id, k, saved) && After(init, steps).items[id].expiration == saved + TTL
    decreases |steps|
  {
    if steps == [] {
      assert false;
    }
    var last := |steps| - 1;
    LastStep(init, steps);
    var u := Before(init, steps, last);
    StepEntryAfter(u, steps[last], id);
    if SaveTime(u, steps[last], id).Some? {
      k, saved := last, SaveTime(u, steps[last], id).value;
    } else {
      k, saved := CachedWasSaved(init, steps[..last], id);
    }
  }

  /** What was saved and not dropped since is cached, with a full lifetime from the save or from a later one. */
  lemma {:induction false} SavedIsCached(init: State, steps: seq<Step>, id: string, k: nat, saved: nat)
    requires k < |steps| && SavedAndKept(init, steps, id, k, saved)
    ensures var s := After(init, steps); id in s.items && saved + TTL <= s.items[id].expiration && saved <= s.now
    decreases |steps|
  {
    var last := |steps| - 1;
    LastStep(init, steps);
    var u := Before(init, steps, last);
    StepEntryAfter(u, steps[last], id);
    StepClock(u, steps[last], id);
    if k < last {
      assert SavedAndKept(init, steps[..last], id, k, saved);
      SavedIsCached(init, steps[..last], id, k, saved);
    }
  }

  /** In every run an id is served exactly if some step saved it at most fifteen seconds ago and no deletion followed. The
      saving steps are the fetches that report the id and, while the last fetch is less than fifteen seconds old, the tags
      and missed look-ups that save again what is cached. */
  lemma ServedExactly(now: nat, steps: seq<Step>, id: string)
    ensures var s := After(Init(now), steps);
            Live(s.items, id, s.now) <==>
              exists k: nat, saved: nat :: k < |steps| && SavedAndKept(Init(now), steps, id, k, saved) && s.now <= saved + TTL
  {
    var s := After(Init(now), steps);
    if Live(s.items, id, s.now) {
      var k, saved := CachedWasSaved(Init(now), steps, id);
    }
    forall k: nat, saved: nat | k < |steps| && SavedAndKept(Init(now), steps, id, k, saved) && s.now <= saved + TTL
      ensures Live(s.items, id, s.now)
    {
      SavedIsCached(Init(now), steps, id, k, saved);
    }
  }

  /** So an id that no step has saved for more than fifteen seconds is gone. */
  lemma GoneUnlessSaved(now: nat, steps: seq<Step>, n: nat, id: string)
    requires n <= |steps|
    requires forall j | n <= j < |steps| :: SaveTime(Before(Init(now), steps, j), steps[j], id).None?
    requires After(Init(now), steps).now > Before(Init(now), steps, n).now + TTL
    ensures !Live(After(Init(now), steps).items, id, After(Init(now), steps).now)
  {
    var s := After(Init(now), steps);
    if Live(s.items, id, s.now) {
      var k, saved := CachedWasSaved(Init(now), steps, id);
      ClockRuns(Init(now), steps, k + 1, n);
      LastStep(Init(now), steps[..k + 1]);
      assert steps[..k + 1][..k] == steps[..k];
      StepClock(Before(Init(now), steps, k), steps[k], id);
    }
  }

  lemma {:induction false} ClockRuns(init: State, steps: seq<Step>, j: nat, k: nat)
    requires j <= k <= |steps|
    ensures Before(init, steps, j).now <= Before(init, steps, k).now
    decreases k
  {
    if j < k {
      ClockRuns(init, steps, j, k - 1);
      LastStep(init, steps[..k]);
      assert steps[..k][..k - 1] == steps[..k - 1];
      StepClock(Before(init, steps, k - 1), steps[k - 1], "");
    }
  }

  // ----- what a look-up and a deletion report

  /** Some reported instance has the id. */
  ghost predicate Listed(f: Fetch, id: string) {
    f.reported.Some? && exists k :: 0 <= k < |f.reported.value| && f.reported.value[k].id == id
  }

  /** The cache has no live entry of the id and the last fetch is too old to answer from. */
  ghost predicate Asks(s: State, id: string) {
    !Live(s.items, id, s.now) && !(s.lastUpdate.Some? && s.now < s.lastUpdate.value + 15)
  }

  /** A look-up fails exactly if it has to ask and the fetch fails. It reports that there is no such instance exactly if the
      id is not live and either the last fetch is recent or the fetch succeeds and reports no instance of the id. What it
      finds is the live record, or else the last reported one. */
  ghost predicate AnswersRightly(s: State, id: string, f: Fetch, answer: Answer) {
    && (answer.Failed? <==> Asks(s, id) && f.reported.None?)
    && (answer.Absent? <==>
          !Live(s.items, id, s.now) && (Asks(s, id) ==> f.reported.Some? && !Listed(f, id)))
    && (answer.Found? && Live(s.items, id, s.now) ==> answer.instance == s.items[id].value)
    && (answer.Found? && !Live(s.items, id, s.now) ==> LastReported(f, id, answer.instance))
  }

  ghost predicate LastReported(f: Fetch, id: string, i: Instance) {
    f.reported.Some? && exists k :: 0 <= k < |f.reported.value| && f.reported.value[k] == i && i.id == id
                                    && forall j | k < j < |f.reported.value| :: f.reported.value[j].id != id
  }

  lemma GetAnswersRightly(s: State, id: string, f: Fetch)
    ensures AnswersRightly(s, id, f, DoGet(s, id, f).1)
  {
    if f.reported.Some? {
      ByIdMeaning(f.reported.value, id);
    }
  }

  /** A deletion succeeds exactly if the look-up finds an instance that is neither starting nor pending and the call is
      accepted. It reports a starting or pending instance as such. It reports that there is none exactly if the look-up
      does, or the call, or after a refused call the second look-up; every other error is a failure. */
  ghost predicate ReportsRightly(
    s: State, id: string, f: Fetch, call: DeleteCall, latency: nat, f': Fetch, outcome: Outcome)
  {
    var (t, answer) := DoGet(s, id, f);
    var starting := answer.Found? && answer.instance.status in {"Starting", "Pending"};
    var again := DoGet(t.(now := t.now + latency), id, f').1;
    && (outcome.Deleted? <==> answer.Found? && !starting && call.Accepted?)
    && (outcome.StateNotSupported? <==> starting)
    && (outcome.NotFound? <==>
          || answer.Absent?
          || (answer.Found? && !starting && (call.Gone? || (call.Refused? && again.Absent?))))
    && (outcome.DeleteFailed? <==> answer.Failed? || (answer.Found? && !starting && call.Refused? && !again.Absent?))
  }

  lemma DeleteReportsRightly(s: State, id: string, f: Fetch, call: DeleteCall, latency: nat, f': Fetch)
    ensures ReportsRightly(s, id, f, call, latency, f', DoDelete(s, id, f, call, latency, f').1)
  {
  }

  // ----- re-saves can keep a vanished instance alive

  lemma {:induction false} AfterAppend(s: State, a: seq<Step>, b: seq<Step>)
    ensures After(s, a + b) == After(After(s, a), b)
    decreases |a|
  {
    if a == [] {
      assert a + b == b;
    } else {
      AfterAppend(Next(s, a[0]), a[1..], b);
      assert (a + b)[1..] == a[1..] + b;
    }
  }

  /** One period: wait, save what is cached by tagging some instance, wait, and fetch without the instance. */
  const PERIOD := [Tick(13), CreateTags(true, NOTHING), Tick(2), List(NOTHING)]

  const NOTHING := Fetch(Some([]), 0)

  /** The instance is cached with thirteen seconds or more to go, right after a fetch. */
  ghost predicate Survives(s: State, i: Instance) {
    i.id in s.items && s.items[i.id].value == i && s.items[i.id].expiration >= s.now + 13 && s.lastUpdate == Some(s.now)
  }

  lemma PeriodSurvives(s: State, i: Instance)
    requires Survives(s, i)
    ensures Survives(After(s, PERIOD), i) && After(s, PERIOD).lastFetch == map[] && After(s, PERIOD).now == s.now + 15
  {
    var a := Next(s, Tick(13));
    var b := Next(a, CreateTags(true, NOTHING));
    var c := Next(b, Tick(2));
    assert i.id in LiveInstances(a);
    assert b.items[i.id] == Item(i, a.now + TTL);
    assert ById([]) == map[];
    assert After(c, [List(NOTHING)]) == Next(c, List(NOTHING)) by {
      assert [List(NOTHING)][1..] == [];
    }
    assert After(b, [Tick(2), List(NOTHING)]) == After(c, [List(NOTHING)]);
    assert After(a, [CreateTags(true, NOTHING), Tick(2), List(NOTHING)]) == After(b, [Tick(2), List(NOTHING)]);
    assert PERIOD[1..] == [CreateTags(true, NOTHING), Tick(2), List(NOTHING)];
  }

  function Repeat(n: nat): seq<Step> {
    if n == 0 then [] else Repeat(n - 1) + PERIOD
  }

  lemma {:induction false} RepeatSurvives(s: State, i: Instance, n: nat)
    requires Survives(s, i)
    ensures Survives(After(s, Repeat(n)), i) && (n > 0 ==> After(s, Repeat(n)).lastFetch == map[])
    ensures After(s, Repeat(n)).now == s.now + 15 * n
  {
    if n > 0 {
      RepeatSurvives(s, i, n - 1);
      AfterAppend(s, Repeat(n - 1), PERIOD);
      PeriodSurvives(After(s, Repeat(n - 1)), i);
    }
  }

  /** For every n there is a run in which an instance that n consecutive fetches, fifteen seconds apart, did not report is
      still served. */
  lemma VanishedInstanceServedForever(now: nat, i: Instance, n: nat) returns (steps: seq<Step>)
    requires n > 0
    ensures steps == [List(Fetch(Some([i]), 0))] + Repeat(n)
    ensures var s := After(Init(now), steps);
            s.lastFetch == map[] && s.now == now + 15 * n && Look(s, i.id) == Found(i)
  {
    steps := [List(Fetch(Some([i]), 0))] + Repeat(n);
    var s := Next(Init(now), List(Fetch(Some([i]), 0)));
    assert ById([i]) == map[i.id := i] by {
      assert [i][..0] == [];
    }
    AfterAppend(Init(now), [List(Fetch(Some([i]), 0))], Repeat(n));
    assert [List(Fetch(Some([i]), 0))][1..] == [];
    RepeatSurvives(s, i, n);
  }

  // ----- the provider

  class Provider {
    var now: nat
    var items: map<string, Item<Instance>>
    var lastUpdate: Option<nat>
    ghost var lastFetch: map<string, Instance>
    ghost var deleted: set<string>

    ghost function View(): State
      reads this
    {
      State(now, items, lastUpdate, lastFetch, deleted)
    }

    constructor (now: nat)
      ensures View() == Init(now) && Inv(View())
    {
      this.now, items, lastUpdate, lastFetch, deleted := now, map[], None, map[], {};
    }

    method SyncAllInstances(instances: seq<Instance>)
      modifies this`items
      ensures View() == old(View()).(items := Saved(old(items), ById(instances), now))
    {
      for i := 0 to |instances|
        invariant View() == old(View()).(items := Saved(old(items), ById(instances[..i]), now))
      {
        items := items[instances[i].id := Item(instances[i], now + TTL)];
        assert instances[..i + 1][..i] == instances[..i];
        SavedOne(old(items), ById(instances[..i]), instances[i], now);
      }
      assert instances[..|instances|] == instances;
    }

    /** A recent fetch is answered with the unexpired items, in some order; otherwise the cloud is asked and what it
        reports is saved. */
    method List(f: Fetch) returns (r: Option<seq<Instance>>)
      requires Inv(View())
      modifies this
      ensures View() == DoList(old(View()), f).0 && Inv(View())
      ensures r.Some? <==> DoList(old(View()), f).1.Some?
      ensures r.Some? ==> ById(r.value) == DoList(old(View()), f).1.value
      ensures if old(lastUpdate).Some? && old(now) < old(lastUpdate).value + 15
              then r.Some? && forall id :: Live(old(items), id, old(now)) <==> id in ById(r.value)
              else r == f.reported
    {
      ListKeeps(View(), f);
      if lastUpdate.Some? && now - lastUpdate.value < TTL {
        var listed := Values();
        return Some(listed);
      }
      now := now + f.latency;
      if f.reported.None? {
        return None;
      }
      SyncAllInstances(f.reported.value);
      lastUpdate := Some(now);
      lastFetch, deleted := ById(f.reported.value), deleted - ById(f.reported.value).Keys;
      r := Some(f.reported.value);
    }

    method Values() returns (r: seq<Instance>)
      requires Inv(View())
      ensures ById(r) == LiveInstances(View())
    {
      var live := map k | k in items && !ExpiredAt(items[k].expiration, now) :: items[k].value;
      assert live == LiveInstances(View());
      forall k | k in live ensures live[k].id == k {
        assert ItemInv(View(), k);
      }
      r := [];
      var todo := live.Keys;
      while todo != {}
        invariant todo <= live.Keys && ById(r) == live - todo
        decreases todo
      {
        var k :| k in todo;
        assert (r + [live[k]])[..|r|] == r;
        r, todo := r + [live[k]], todo - {k};
      }
      assert live - todo == live;
    }

    method Get(id: string, f: Fetch) returns (answer: Answer)
      requires Inv(View())
      modifies this
      ensures (View(), answer) == DoGet(old(View()), id, f) && Inv(View())
      ensures AnswersRightly(old(View()), id, f, answer)
    {
      GetKeeps(View(), id, f);
      GetAnswersRightly(View(), id, f);
      if id in items && !ExpiredAt(items[id].expiration, now) {
        return Found(items[id].value);
      }
      var instances := List(f);
      if instances.None? {
        return Failed;
      }
      SyncAllInstances(instances.value);
      if id in items && !ExpiredAt(items[id].expiration, now) {
        answer := Found(items[id].value);
      } else {
        answer := Absent;
      }
    }

    method Delete(id: string, f: Fetch, call: DeleteCall, latency: nat, f': Fetch) returns (outcome: Outcome)
      requires Inv(View())
      modifies this
      ensures (View(), outcome) == DoDelete(old(View()), id, f, call, latency, f') && Inv(View())
      ensures ReportsRightly(old(View()), id, f, call, latency, f', outcome)
    {
      DeleteReportsRightly(View(), id, f, call, latency, f');
      var answer := Get(id, f);
      if answer.Failed? {
        return DeleteFailed;
      }
      if answer.Absent? {
        return NotFound;
      }
      if answer.instance.status == "Starting" || answer.instance.status == "Pending" {
        return StateNotSupported;
      }
      outcome := CallDelete(id, call, latency, f');
    }

    method CallDelete(id: string, call: DeleteCall, latency: nat, f: Fetch) returns (outcome: Outcome)
      requires Inv(View())
      modifies this
      ensures (View(), outcome) == Call(old(View()), id, call, latency, f) && Inv(View())
    {
      CallKeeps(View(), id, call, latency, f);
      TickKeeps(View(), latency);
      now := now + latency;
      match call
      case Gone => return NotFound;
      case Refused =>
        var again := Get(id, f);
        outcome := if again.Absent? then NotFound else DeleteFailed;
      case Accepted =>
        items, deleted := items - {id}, deleted + {id};
        outcome := Deleted;
    }

    method CreateTags(tagged: bool, f: Fetch) returns (ok: bool)
      requires Inv(View())
      modifies this
      ensures View() == Next(old(View()), Step.CreateTags(tagged, f)) && Inv(View())
      ensures ok <==> tagged && ListAndSave(old(View()), f).1
      ensures ok <==> tagged && (f.reported.Some? || (old(lastUpdate).Some? && old(now) < old(lastUpdate).value + 15))
    {
      SaveKeeps(View(), f);
      if !tagged {
        return false;
      }
      var instances := List(f);
      if instances.None? {
        return false;
      }
      SyncAllInstances(instances.value);
      ok := true;
    }
  }

  lemma SavedOne(items: map<string, Item<Instance>>, instances: map<string, Instance>, i: Instance, now: nat)
    ensures Saved(items, instances[i.id := i], now) == Saved(items, instances, now)[i.id := Item(i, now + TTL)]
  {
    var l, r := Saved(items, instances[i.id := i], now), Saved(items, instances, now)[i.id := Item(i, now + TTL)];
    assert l.Keys == r.Keys;
    assert forall k | k in l :: l[k] == r[k];
  }
}
