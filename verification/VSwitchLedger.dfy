/** Whole runs of the vSwitch accounting: refreshes, launches, add-backs and the passing of time, in any
    interleaving. Every operation of the provider holds its mutex, so each is one step. */
module VSwitchLedger {
  import opened TtlCache
  import opened Catalogue
  import opened VSwitch

  /** One vSwitch of one launch: the cached count it was chosen at, what was charged, the number of refreshes of
      the vSwitch before it, and whether the charge has not been given back. */
  datatype Pick = Pick(original: int, charged: int, refreshes: nat, open: bool)

  type Launch = map<string, Pick>

  /** `refreshes`, `launches` and `excess` are history. `excess` totals, per vSwitch, the add-backs since its last
      refresh that belong to launches from before that refresh. */
  datatype State = State(ips: Ips, refreshes: map<string, nat>, launches: seq<Launch>, excess: map<string, int>)

  datatype Step =
    | Tick(d: nat)
    | Refresh(v: VSwitchInfo)
    | DoLaunch(status: seq<VSwitchRef>, choices: map<string, Choice>, predicted: map<string, int>, charge: map<string, int>)
    | AddBack(n: nat, ids: set<string>)

  function Init(now: nat): State {
    State(Ips(now, map[], map[]), map[], [], map[])
  }

  function Refreshes(s: State, id: string): nat {
    if id in s.refreshes then s.refreshes[id] else 0
  }

  /** The add-back's guard for one vSwitch of a launch. */
  predicate Credits(s: State, launch: Launch, id: string) {
    id in launch && Live(s.ips.cached, id, s.ips.now) && launch[id].original == s.ips.cached[id].value && id in s.ips.inflight
  }

  predicate Late(s: State, p: Pick, id: string) {
    p.refreshes != Refreshes(s, id)
  }

  /** A launch follows the provider's selection and charges; an add-back names vSwitches of one launch, with the
      launch's own predictions, each at most once. */
  ghost predicate Enabled(s: State, step: Step) {
    match step
    case DoLaunch(status, choices, predicted, charge) =>
      OneZone(status) && IsSelection(s.ips, status, choices) && IsCharge(choices, predicted, charge)
    case AddBack(n, ids) => n < |s.launches| && forall id | id in ids :: id in s.launches[n] && s.launches[n][id].open
    case _ => true
  }

  ghost function NewLaunch(s: State, charge: map<string, int>): Launch {
    map id | id in charge :: Pick(Count(s.ips, id), charge[id], Refreshes(s, id), true)
  }

  function Closed(s: State, launch: Launch, ids: set<string>): Launch {
    map id | id in launch :: if id in ids && Credits(s, launch, id) then launch[id].(open := false) else launch[id]
  }

  function Credited(s: State, launch: Launch, ids: set<string>): map<string, int> {
    map id | id in s.ips.inflight ::
      s.ips.inflight[id] + (if id in ids && Credits(s, launch, id) then launch[id].charged else 0)
  }

  function ExcessAfter(s: State, launch: Launch, ids: set<string>): map<string, int> {
    map id | id in s.excess.Keys + ids ::
      At(s.excess, id) + (if id in ids && Credits(s, launch, id) && Late(s, launch[id], id) then launch[id].charged else 0)
  }

  ghost function AfterLaunch(s: State, charge: map<string, int>): State {
    s.(ips := s.ips.(inflight := Charged(s.ips, charge)), launches := s.launches + [NewLaunch(s, charge)])
  }

  ghost function Next(s: State, step: Step): State
    requires Enabled(s, step)
  {
    match step
    case Tick(d) => s.(ips := s.ips.(now := s.ips.now + d))
    case Refresh(v) =>
      State(Reset(s.ips, map[v.id := v]), s.refreshes[v.id := Refreshes(s, v.id) + 1], s.launches, s.excess - {v.id})
    case DoLaunch(_, _, _, charge) => AfterLaunch(s, charge)
    case AddBack(n, ids) =>
      var launch := s.launches[n];
      s.(ips := s.ips.(inflight := Credited(s, launch, ids)),
         launches := s.launches[n := Closed(s, launch, ids)], excess := ExcessAfter(s, launch, ids))
  }

  ghost predicate Runs(s: State, steps: seq<Step>, t: State)
    decreases |steps|
  {
    if steps == [] then s == t else Enabled(s, steps[0]) && Runs(Next(s, steps[0]), steps[1..], t)
  }

  // ----- the ledger

  /** What a launch still owes the vSwitch since its last refresh. */
  function Owed(launch: Launch, id: string, refreshes: nat): int {
    if id in launch && launch[id].open && launch[id].refreshes == refreshes then launch[id].charged else 0
  }

  function TotalOwed(launches: seq<Launch>, id: string, refreshes: nat): int {
    if launches == [] then 0
    else TotalOwed(launches[..|launches| - 1], id, refreshes) + Owed(launches[|launches| - 1], id, refreshes)
  }

  /** While its cached count is live, a vSwitch is tracked at that count less what launches since the last refresh
      still owe, plus what late add-backs gave it. */
  ghost predicate Balanced(s: State, id: string) {
    Live(s.ips.cached, id, s.ips.now) ==>
      Tracked(s.ips, id) == s.ips.cached[id].value - TotalOwed(s.launches, id, Refreshes(s, id)) + At(s.excess, id)
  }

  /** A launch since the last refresh saw the count that is still cached, and is tracked. */
  ghost predicate PickInv(s: State, id: string, p: Pick) {
    && p.refreshes <= Refreshes(s, id)
    && (p.refreshes == Refreshes(s, id) && Live(s.ips.cached, id, s.ips.now) ==>
          p.original == s.ips.cached[id].value && id in s.ips.inflight)
  }

  ghost predicate LaunchInv(s: State, launch: Launch) {
    forall id | id in launch :: PickInv(s, id, launch[id])
  }

  ghost predicate Inv(s: State) {
    && (forall n | 0 <= n < |s.launches| :: LaunchInv(s, s.launches[n]))
    && (forall id :: Balanced(s, id))
    && (forall id | id !in s.refreshes :: id !in s.ips.cached)
  }

  lemma {:induction false} TotalOwedUpdate(launches: seq<Launch>, n: nat, l: Launch, id: string, refreshes: nat)
    requires n < |launches|
    ensures TotalOwed(launches[n := l], id, refreshes)
            == TotalOwed(launches, id, refreshes) - Owed(launches[n], id, refreshes) + Owed(l, id, refreshes)
  {
    var last := |launches| - 1;
    if n == last {
      assert launches[n := l][..last] == launches[..last];
    } else {
      TotalOwedUpdate(launches[..last], n, l, id, refreshes);
      assert launches[n := l][..last] == launches[..last][n := l];
    }
  }

  /** Nothing is owed for a refresh that has not happened yet. */
  lemma {:induction false} NothingOwed(launches: seq<Launch>, id: string, refreshes: nat)
    requires forall n | 0 <= n < |launches| :: id in launches[n] ==> launches[n][id].refreshes < refreshes
    ensures TotalOwed(launches, id, refreshes) == 0
  {
    if launches != [] {
      NothingOwed(launches[..|launches| - 1], id, refreshes);
    }
  }

  lemma BalancedRefresh(s: State, v: VSwitchInfo, id: string)
    requires Inv(s)
    ensures Balanced(Next(s, Refresh(v)), id)
  {
    var t := Next(s, Refresh(v));
    assert Balanced(s, id);
    ResetOne(s.ips, v);
    if v.id == id {
      forall n | 0 <= n < |s.launches| && id in s.launches[n]
        ensures s.launches[n][id].refreshes < Refreshes(t, id)
      {
        assert LaunchInv(s, s.launches[n]);
      }
      NothingOwed(s.launches, id, Refreshes(t, id));
    }
  }

  lemma BalancedAddBack(s: State, n: nat, ids: set<string>, id: string)
    requires Inv(s) && Enabled(s, AddBack(n, ids))
    ensures Balanced(Next(s, AddBack(n, ids)), id)
  {
    var t := Next(s, AddBack(n, ids));
    assert Balanced(s, id) && LaunchInv(s, s.launches[n]);
    TotalOwedUpdate(s.launches, n, t.launches[n], id, Refreshes(s, id));
  }

  lemma BalancedLaunch(s: State, charge: map<string, int>, id: string)
    requires Balanced(s, id)
    ensures Balanced(AfterLaunch(s, charge), id)
  {
    var t := AfterLaunch(s, charge);
    assert t.launches[..|s.launches|] == s.launches;
    assert Owed(t.launches[|s.launches|], id, Refreshes(s, id)) == At(charge, id);
  }

  lemma BalancedStep(s: State, step: Step, id: string)
    requires Inv(s) && Enabled(s, step)
    ensures Balanced(Next(s, step), id)
  {
    match step
    case Tick(_) => assert Balanced(s, id);
    case Refresh(v) => BalancedRefresh(s, v, id);
    case DoLaunch(_, _, _, charge) => assert Balanced(s, id); BalancedLaunch(s, charge, id);
    case AddBack(n, ids) => BalancedAddBack(s, n, ids, id);
  }

  lemma LaunchKept(s: State, step: Step, launch: Launch)
    requires Inv(s) && Enabled(s, step) && LaunchInv(s, launch)
    ensures LaunchInv(Next(s, step), launch)
  {
    var t := Next(s, step);
    if step.Refresh? {
      ResetOne(s.ips, step.v);
    }
    forall id | id in launch ensures PickInv(t, id, launch[id]) {
      assert PickInv(s, id, launch[id]);
    }
  }

  lemma LaunchStep(s: State, step: Step, n: nat)
    requires Inv(s) && Enabled(s, step) && n < |Next(s, step).launches|
    ensures LaunchInv(Next(s, step), Next(s, step).launches[n])
  {
    var t := Next(s, step);
    if n < |s.launches| {
      LaunchKept(s, step, s.launches[n]);
      forall id | id in t.launches[n] ensures PickInv(t, id, t.launches[n][id]) {
        assert PickInv(t, id, s.launches[n][id]);
      }
    }
  }

  lemma InvStep(s: State, step: Step)
    requires Inv(s) && Enabled(s, step)
    ensures Inv(Next(s, step))
  {
    var t := Next(s, step);
    forall n | 0 <= n < |t.launches| ensures LaunchInv(t, t.launches[n]) {
      LaunchStep(s, step, n);
    }
    forall id ensures Balanced(t, id) {
      BalancedStep(s, step, id);
    }
    if step.Refresh? {
      ResetOne(s.ips, step.v);
    }
  }

  lemma {:induction false} InvRuns(s: State, steps: seq<Step>, t: State)
    requires Inv(s) && Runs(s, steps, t)
    ensures Inv(t)
    decreases |steps|
  {
    if steps != [] {
      InvStep(s, steps[0]);
      InvRuns(Next(s, steps[0]), steps[1..], t);
    }
  }

  /** In every interleaving of refreshes, launches, add-backs and time the ledger balances for every vSwitch. */
  lemma LedgerBalances(now: nat, steps: seq<Step>, s: State, id: string)
    requires Runs(Init(now), steps, s) && Live(s.ips.cached, id, s.ips.now)
    ensures Tracked(s.ips, id) == s.ips.cached[id].value - TotalOwed(s.launches, id, Refreshes(s, id)) + At(s.excess, id)
  {
    InvRuns(Init(now), steps, s);
    assert Balanced(s, id);
  }

  /** The textbook law, without the excess, for a vSwitch. */
  ghost predicate Exact(s: State, id: string) {
    id in s.ips.cached && Tracked(s.ips, id) == s.ips.cached[id].value - TotalOwed(s.launches, id, Refreshes(s, id))
  }

  /** An add-back keeps the textbook law for a vSwitch exactly unless it is late, charged something, and finds the
      refreshed count equal to the one the launch saw while a newer launch is tracked. */
  lemma AddBackKeepsExactUnlessSameCount(now: nat, steps: seq<Step>, s: State, n: nat, ids: set<string>, id: string)
    requires Runs(Init(now), steps, s) && Enabled(s, AddBack(n, ids)) && id in ids
    requires Live(s.ips.cached, id, s.ips.now) && Exact(s, id)
    ensures Exact(Next(s, AddBack(n, ids)), id) <==>
              var p := s.launches[n][id];
              !(Late(s, p, id) && p.charged != 0 && p.original == s.ips.cached[id].value && id in s.ips.inflight)
  {
    LedgerBalances(now, steps, s, id);
    InvRuns(Init(now), steps, s);
    BalancedStep(s, AddBack(n, ids), id);
  }

  /** The n-th launch chose the vSwitch at this cached count. */
  ghost predicate LaunchedAt(s: State, n: nat, id: string, original: int) {
    n < |s.launches| && id in s.launches[n] && s.launches[n][id].original == original
  }

  ghost predicate NoRefreshOf(steps: seq<Step>, id: string) {
    forall k | 0 <= k < |steps| && steps[k].Refresh? :: steps[k].v.id != id
  }

  /** Without a refresh of a vSwitch its cached count stays, and so do the counts launches saw. */
  lemma {:induction false} CountKept(s: State, steps: seq<Step>, t: State, n: nat, id: string, original: int)
    requires Runs(s, steps, t) && NoRefreshOf(steps, id) && LaunchedAt(s, n, id, original) && id in s.ips.cached
    ensures LaunchedAt(t, n, id, original) && id in t.ips.cached && t.ips.cached[id] == s.ips.cached[id]
    decreases |steps|
  {
    if steps != [] {
      if steps[0].Refresh? {
        ResetOne(s.ips, steps[0].v);
      }
      CountKept(Next(s, steps[0]), steps[1..], t, n, id, original);
    }
  }

  /** After a refresh that changed the count, and until the next refresh of the vSwitch, whatever else happens, an add-back of
      a launch from before changes nothing. */
  lemma LateAddBackAfterChangeIsIdle(s: State, v: VSwitchInfo, steps: seq<Step>, t: State, n: nat, original: int)
    requires LaunchedAt(s, n, v.id, original) && v.available != original
    requires Runs(Next(s, Refresh(v)), steps, t) && NoRefreshOf(steps, v.id) && Enabled(t, AddBack(n, {v.id}))
    ensures Next(t, AddBack(n, {v.id})).ips == t.ips && Next(t, AddBack(n, {v.id})).launches == t.launches
  {
    ResetOne(s.ips, v);
    CountKept(Next(s, Refresh(v)), steps, t, n, v.id, original);
    var launch := t.launches[n];
    assert Credited(t, launch, {v.id}) == t.ips.inflight;
    assert Closed(t, launch, {v.id}) == launch;
  }

  /** The provider's add-back method, called with a launch's own choices and instance types, is the add-back step for
      the vSwitches that were requested and not used. */
  lemma MethodIsAddBack(
    s: State, launch: Launch, requested: set<string>, used: set<string>,
    vSwitches: seq<Choice>, types: seq<InstanceType>, capacityType: CapacityType)
    requires forall id :: id in launch <==> Find(vSwitches, id).Some?
    requires forall id | id in launch :: SameLaunch(launch[id], Find(vSwitches, id).value, types, capacityType)
    ensures GivenBack(s.ips, requested, used, vSwitches, types, capacityType)
            == Credited(s, launch, requested - used - {""})
  {
    forall id | id in s.ips.inflight
      ensures GivesBack(s.ips, requested, used, vSwitches, id) <==> id in requested - used - {""} && Credits(s, launch, id)
    {
      if id in launch {
        assert SameLaunch(launch[id], Find(vSwitches, id).value, types, capacityType);
      }
    }
  }

  /** A list of the choices of a launch, in any order. */
  ghost predicate ListsChoices(vSwitches: seq<Choice>, choices: map<string, Choice>) {
    && (forall z | z in choices :: choices[z] in vSwitches)
    && (forall c | c in vSwitches :: c.zone in choices && choices[c.zone] == c)
  }

  lemma {:induction false} FindMeaning(vSwitches: seq<Choice>, id: string)
    ensures Find(vSwitches, id).Some? ==> Find(vSwitches, id).value in vSwitches && Find(vSwitches, id).value.id == id
    ensures Find(vSwitches, id).None? ==> forall c | c in vSwitches :: c.id != id
  {
    if vSwitches != [] {
      FindMeaning(vSwitches[1..], id);
      assert vSwitches == [vSwitches[0]] + vSwitches[1..];
    }
  }

  /** A launch records exactly what it charged each of its vSwitches: the prediction an add-back computes again. */
  lemma LaunchIsSame(
    s: State, status: seq<VSwitchRef>, choices: map<string, Choice>, types: seq<InstanceType>, capacityType: CapacityType,
    predicted: map<string, int>, charge: map<string, int>, vSwitches: seq<Choice>, id: string)
    requires Enabled(s, DoLaunch(status, choices, predicted, charge)) && Predicts(predicted, types, capacityType, choices.Keys)
    requires ListsChoices(vSwitches, choices)
    ensures var launch := NewLaunch(s, charge);
            && (id in launch <==> Find(vSwitches, id).Some?)
            && (id in launch ==> SameLaunch(launch[id], Find(vSwitches, id).value, types, capacityType))
  {
    FindMeaning(vSwitches, id);
    if id in charge {
      var z :| z in choices && choices[z].id == id;
      assert choices[z] in vSwitches;
    }
    if Find(vSwitches, id).Some? {
      var c := Find(vSwitches, id).value;
      assert choices[c.zone].id == id;
      ChargeOfOneZone(s.ips, status, choices, predicted, charge, c.zone);
      ChoiceRecorded(s.ips, status, choices, c.zone);
    }
  }

  /** So, whatever happened since, an add-back called with a launch's choices and types gives back exactly what that launch
      charged, to those of its vSwitches that were requested, not used, and pass the guard. */
  lemma AddBackReturnsCharge(
    s: State, status: seq<VSwitchRef>, choices: map<string, Choice>, types: seq<InstanceType>, capacityType: CapacityType,
    predicted: map<string, int>, charge: map<string, int>, vSwitches: seq<Choice>,
    later: State, requested: set<string>, used: set<string>, id: string)
    requires Enabled(s, DoLaunch(status, choices, predicted, charge)) && Predicts(predicted, types, capacityType, choices.Keys)
    requires ListsChoices(vSwitches, choices) && id in later.ips.inflight
    ensures GivenBack(later.ips, requested, used, vSwitches, types, capacityType)[id] - later.ips.inflight[id]
            == if id in requested && id != "" && id !in used && Credits(later, NewLaunch(s, charge), id) then charge[id] else 0
  {
    var launch := NewLaunch(s, charge);
    forall i ensures i in launch <==> Find(vSwitches, i).Some?
             ensures i in launch ==> SameLaunch(launch[i], Find(vSwitches, i).value, types, capacityType)
    {
      LaunchIsSame(s, status, choices, types, capacityType, predicted, charge, vSwitches, i);
    }
    MethodIsAddBack(later, launch, requested, used, vSwitches, types, capacityType);
  }

  ghost predicate SameLaunch(p: Pick, c: Choice, types: seq<InstanceType>, capacityType: CapacityType) {
    p.original == c.original && p.charged == MinPods(types, OfferingId(c.zone, capacityType))
  }

  // ----- the boundary case: a refresh that returns the same count

  lemma {:induction false} RunsExtend(s: State, steps: seq<Step>, t: State, step: Step)
    requires Runs(s, steps, t) && Enabled(t, step)
    ensures Runs(s, steps + [step], Next(t, step))
    decreases |steps|
  {
    if steps == [] {
      assert [step][1..] == [];
    } else {
      RunsExtend(Next(s, steps[0]), steps[1..], t, step);
      assert (steps + [step])[1..] == steps[1..] + [step];
    }
  }

  /** A launch on the only vSwitch of a status list. */
  lemma SingleLaunch(s: State, v: VSwitchRef, use: int) returns (step: Step)
    requires Live(s.ips.cached, v.id, s.ips.now)
    ensures Enabled(s, step) && step.DoLaunch? && step.charge == map[v.id := use]
  {
    var choices := map[v.zone := Choice(v.id, v.zone, Count(s.ips, v.id))];
    step := DoLaunch([v], choices, map[v.zone := use], map[v.id := use]);
    assert [v][0] == v && EarliestBest(s.ips, [v], 0);
    assert Zones([v]) == {v.zone};
    assert choices[v.zone].id == v.id;
    assert ZonesOf(choices, v.id) == {v.zone};
    TotalWithout({v.zone}, map[v.zone := use], v.zone);
    assert {v.zone} - {v.zone} == {};
  }

  lemma Then(init: State, steps: seq<Step>, s: State, step: Step) returns (steps': seq<Step>, t: State)
    requires Runs(init, steps, s) && Enabled(s, step)
    ensures Runs(init, steps', t) && t == Next(s, step)
  {
    RunsExtend(init, steps, s, step);
    steps', t := steps + [step], Next(s, step);
  }

  /** A refresh followed by a launch. */
  lemma RefreshAndLaunch(init: State, steps: seq<Step>, s: State, v: VSwitchInfo, use: int)
    returns (steps': seq<Step>, t: State)
    requires Runs(init, steps, s)
    ensures Runs(init, steps', t)
    ensures t.ips.now == s.ips.now && Live(t.ips.cached, v.id, t.ips.now) && t.ips.cached[v.id].value == v.available
    ensures v.id in t.ips.inflight && Refreshes(t, v.id) == Refreshes(s, v.id) + 1 && At(t.excess, v.id) == 0
    ensures t.launches == s.launches + [map[v.id := Pick(v.available, use, Refreshes(s, v.id) + 1, true)]]
  {
    steps', t := Then(init, steps, s, Refresh(v));
    RefreshFacts(s, v, use);
    steps', t := LaunchOnce(init, steps', t, VSwitchRef(v.id, v.zone), use);
  }

  lemma RefreshFacts(s: State, v: VSwitchInfo, use: int)
    ensures var t := Next(s, Refresh(v));
            && t.ips.now == s.ips.now && Live(t.ips.cached, v.id, t.ips.now) && t.ips.cached[v.id].value == v.available
            && Refreshes(t, v.id) == Refreshes(s, v.id) + 1 && At(t.excess, v.id) == 0 && t.launches == s.launches
            && NewLaunch(t, map[v.id := use]) == map[v.id := Pick(v.available, use, Refreshes(s, v.id) + 1, true)]
  {
    ResetOne(s.ips, v);
  }

  lemma LaunchOnce(init: State, steps: seq<Step>, s: State, v: VSwitchRef, use: int) returns (steps': seq<Step>, t: State)
    requires Runs(init, steps, s) && Live(s.ips.cached, v.id, s.ips.now)
    ensures Runs(init, steps', t) && t == AfterLaunch(s, map[v.id := use])
  {
    var step := SingleLaunch(s, v, use);
    steps', t := Then(init, steps, s, step);
  }

  /** A launch, a refresh that happens to return the same count, a second launch and then the first launch's late
      add-back leave the vSwitch tracked at its full count although the second launch owes its charge. */
  lemma SameCountRefreshOvercredits(now: nat, v: VSwitchInfo, use: int) returns (steps: seq<Step>, s: State)
    requires use != 0
    ensures Runs(Init(now), steps, s) && Live(s.ips.cached, v.id, s.ips.now)
    ensures Tracked(s.ips, v.id) == v.available && TotalOwed(s.launches, v.id, Refreshes(s, v.id)) == use
    ensures !Exact(s, v.id)
  {
    steps, s := RefreshAndLaunch(Init(now), [], Init(now), v, use);
    steps, s := RefreshAndLaunch(Init(now), steps, s, v, use);
    var launches := s.launches;
    steps, s := Then(Init(now), steps, s, AddBack(0, {v.id}));
    assert s.launches[1] == launches[1];
    OneOwed(s.launches, v.id, 2, use);
    assert At(s.excess, v.id) == use;
    LedgerBalances(now, steps, s, v.id);
  }

  lemma OneOwed(launches: seq<Launch>, id: string, refreshes: nat, use: int)
    requires |launches| == 2 && Owed(launches[0], id, refreshes) == 0 && Owed(launches[1], id, refreshes) == use
    ensures TotalOwed(launches, id, refreshes) == use
  {
    assert launches[..1] == [launches[0]];
    assert TotalOwed([launches[0]], id, refreshes) == 0;
  }

  // ----- greedy balance

  /** Launches against one status list, with time passing and no refresh. */
  ghost predicate LaunchesOnly(s: State, status: seq<VSwitchRef>, bound: int, steps: seq<Step>, t: State)
    decreases |steps|
  {
    if steps == [] then s == t
    else
      && Enabled(s, steps[0])
      && (steps[0].Tick? || (steps[0].DoLaunch? && steps[0].status == status && BoundedBy(steps[0].charge, bound)))
      && LaunchesOnly(Next(s, steps[0]), status, bound, steps[1..], t)
  }

  ghost predicate BoundedBy(charge: map<string, int>, bound: int) {
    forall id | id in charge :: 0 <= charge[id] <= bound
  }

  /** The vSwitches launched into by the steps. */
  ghost function Used(steps: seq<Step>): set<string> {
    if steps == [] then {} else (if steps[0].DoLaunch? then steps[0].charge.Keys else {}) + Used(steps[1..])
  }

  /** Every used vSwitch is tracked, and within the bound of every other in its zone. */
  ghost predicate Within(s: State, status: seq<VSwitchRef>, used: set<string>, bound: int) {
    && (forall id | id in used :: id in s.ips.inflight)
    && (forall j, k | 0 <= j < |status| && 0 <= k < |status| && status[j].zone == status[k].zone && status[k].id in used ::
          Tracked(s.ips, status[j].id) - bound <= Tracked(s.ips, status[k].id))
  }

  ghost predicate CountsNonNegative(s: State) {
    forall id | id in s.ips.cached :: 0 <= s.ips.cached[id].value
  }

  /** No tracked count grows, and none drops by more than the bound. */
  lemma ChargeEffect(s: State, charge: map<string, int>, bound: int, id: string)
    requires BoundedBy(charge, bound)
    ensures var after := Tracked(AfterLaunch(s, charge).ips, id);
            && after <= Tracked(s.ips, id)
            && (if id in charge then Tracked(s.ips, id) - bound <= after else after == Tracked(s.ips, id))
  {
  }

  /** A vSwitch just launched into was the best of its zone. */
  lemma ChargedWasBest(s: State, step: Step, j: nat, k: nat)
    requires Enabled(s, step) && step.DoLaunch? && j < |step.status| && k < |step.status|
    requires step.status[j].zone == step.status[k].zone && step.status[k].id in step.charge
    ensures Tracked(s.ips, step.status[j].id) <= Tracked(s.ips, step.status[k].id)
  {
    var z :| z in step.choices && step.choices[z].id == step.status[k].id;
    var i := ChosenEntry(s.ips, step.status, step.choices, z);
    assert step.status[i].id == step.status[k].id;
  }

  lemma WithinStep(s: State, step: Step, status: seq<VSwitchRef>, used: set<string>, bound: int)
    requires Within(s, status, used, bound) && CountsNonNegative(s) && Enabled(s, step) && 0 <= bound
    requires step.Tick? || (step.DoLaunch? && step.status == status && BoundedBy(step.charge, bound))
    ensures Within(Next(s, step), status, used + Used([step]), bound) && CountsNonNegative(Next(s, step))
  {
    var t, used' := Next(s, step), used + Used([step]);
    assert Used([step]) == if step.DoLaunch? then step.charge.Keys else {};
    forall j, k | 0 <= j < |status| && 0 <= k < |status| && status[j].zone == status[k].zone && status[k].id in used'
      ensures Tracked(t.ips, status[j].id) - bound <= Tracked(t.ips, status[k].id)
    {
      if step.DoLaunch? {
        ChargeEffect(s, step.charge, bound, status[j].id);
        ChargeEffect(s, step.charge, bound, status[k].id);
        if status[k].id in step.charge {
          ChargedWasBest(s, step, j, k);
        }
      }
    }
  }

  lemma {:induction false} WithinRuns(
    s: State, status: seq<VSwitchRef>, used: set<string>, bound: int, steps: seq<Step>, t: State)
    requires Within(s, status, used, bound) && CountsNonNegative(s) && 0 <= bound
    requires LaunchesOnly(s, status, bound, steps, t)
    ensures Within(t, status, used + Used(steps), bound)
    decreases |steps|
  {
    if steps == [] {
      assert used + Used(steps) == used;
    } else {
      WithinStep(s, steps[0], status, used, bound);
      WithinRuns(Next(s, steps[0]), status, used + Used([steps[0]]), bound, steps[1..], t);
      assert used + Used([steps[0]]) + Used(steps[1..]) == used + Used(steps);
    }
  }

  /** Greedy balance: over any number of launches against one status list without a refresh, each predicting between
      zero and `bound`, every vSwitch launched into stays within `bound` of every other in its zone. */
  lemma GreedyBalance(s: State, status: seq<VSwitchRef>, bound: int, steps: seq<Step>, t: State, j: nat, k: nat)
    requires CountsNonNegative(s) && 0 <= bound && LaunchesOnly(s, status, bound, steps, t)
    requires j < |status| && k < |status| && status[j].zone == status[k].zone && status[k].id in Used(steps)
    ensures Tracked(t.ips, status[j].id) - bound <= Tracked(t.ips, status[k].id)
  {
    WithinRuns(s, status, {}, bound, steps, t);
    assert {} + Used(steps) == Used(steps);
  }

  /** So none is overdrawn while another of its zone still has `bound` addresses. */
  lemma NoOverdraftWhileRoomLeft(s: State, status: seq<VSwitchRef>, bound: int, steps: seq<Step>, t: State, j: nat, k: nat)
    requires CountsNonNegative(s) && 0 <= bound && LaunchesOnly(s, status, bound, steps, t)
    requires j < |status| && k < |status| && status[j].zone == status[k].zone && status[k].id in Used(steps)
    requires Tracked(t.ips, status[j].id) >= bound
    ensures Tracked(t.ips, status[k].id) >= 0
  {
    GreedyBalance(s, status, bound, steps, t, j, k);
  }
}
