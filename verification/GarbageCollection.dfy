/** Collection of instances that no node claim accounts for. A reconcile lists the instances, then the claims, and
    then checks the age of every instance whose provider ID no claim carries. Time is in seconds. */
module GarbageCollection {
  import opened TtlCache
  import InstanceCache

  const GRACE := 30.0

  /** Creation times are recorded to the minute. */
  function Minute(t: real): real {
    (t / 60.0).Floor as real * 60.0
  }

  lemma MinuteBounds(t: real)
    ensures Minute(t) <= t < Minute(t) + 60.0
  {
    var q := t / 60.0;
    assert q.Floor as real <= q < q.Floor as real + 1.0;
    assert q * 60.0 == t;
  }

  // ----- whole runs

  datatype Progress =
    | Idle
    | InstancesListed(instances: set<string>)
    | ClaimsListed(instances: set<string>, resolved: set<string>, at: real)

  /** `recorded` maps every instance to its recorded creation time. `kept` are the instances whose claim is never
      removed, `collected` those a reconcile has deleted; both are history. */
  datatype State = State(
    now: real, recorded: map<string, real>, written: set<string>, kept: set<string>, gc: Progress, collected: set<string>)

  datatype Step =
    | Tick(d: real)
    | Launch(id: string, keep: bool)
    | WriteProviderId(id: string)
    | RemoveClaim(id: string)
    | ListInstances
    | ListClaims
    | Collect(id: string)
    | Done

  /** Timing hypotheses: a kept claim carries its instance's provider ID by `r` after the recorded creation time, and
      ages are checked within `d` of the claim list. */
  ghost predicate InTime(s: State, r: real, d: real) {
    && (forall id | id in s.kept && id in s.recorded && id !in s.written :: s.now <= s.recorded[id] + r)
    && (s.gc.ClaimsListed? ==> s.now <= s.gc.at + d)
  }

  predicate Enabled(s: State, step: Step) {
    match step
    case Tick(t) => t >= 0.0
    case Launch(id, _) => id !in s.recorded
    case WriteProviderId(id) => id in s.recorded
    case RemoveClaim(id) => id !in s.kept
    case ListInstances => s.gc.Idle?
    case ListClaims => s.gc.InstancesListed?
    case Collect(id) =>
      && s.gc.ClaimsListed? && id in s.gc.instances && id in s.recorded
      && Wanted(Retrieved(id, s.recorded[id], false), s.gc.resolved, s.now - s.recorded[id])
    case Done => s.gc.ClaimsListed?
  }

  function Next(s: State, step: Step): State
    requires Enabled(s, step)
  {
    match step
    case Tick(t) => s.(now := s.now + t)
    case Launch(id, keep) => s.(recorded := s.recorded[id := Minute(s.now)], kept := if keep then s.kept + {id} else s.kept)
    case WriteProviderId(id) => s.(written := s.written + {id})
    case RemoveClaim(id) => s.(written := s.written - {id})
    case ListInstances => s.(gc := InstancesListed(s.recorded.Keys - s.collected))
    case ListClaims => s.(gc := ClaimsListed(s.gc.instances, s.written, s.now))
    case Collect(id) => s.(collected := s.collected + {id})
    case Done => s.(gc := Idle)
  }

  /** A run every state of which meets the timing hypotheses. */
  ghost predicate TimelyRun(s: State, r: real, d: real, steps: seq<Step>, t: State)
    decreases |steps|
  {
    && InTime(s, r, d)
    && if steps == [] then s == t else Enabled(s, steps[0]) && TimelyRun(Next(s, steps[0]), r, d, steps[1..], t)
  }

  function Init(now: real): State {
    State(now, map[], {}, {}, Idle, {})
  }

  /** A kept instance that the claim list missed was young when the claims were listed. */
  ghost predicate Inv(s: State, r: real) {
    && s.kept <= s.recorded.Keys && s.collected <= s.recorded.Keys && s.kept !! s.collected
    && (s.gc.InstancesListed? ==> s.gc.instances <= s.recorded.Keys)
    && (s.gc.ClaimsListed? ==>
          && s.gc.instances <= s.recorded.Keys
          && forall id | id in s.gc.instances && id in s.kept && id !in s.gc.resolved :: s.gc.at <= s.recorded[id] + r)
  }

  lemma InvStep(s: State, r: real, d: real, step: Step)
    requires Inv(s, r) && InTime(s, r, d) && Enabled(s, step) && r + d <= GRACE
    ensures Inv(Next(s, step), r)
  {
  }

  /** If provider IDs are written within `r` of the recorded creation time and ages are checked within `d` of the claim
      list, and `r + d` is at most the grace period, no run collects an instance whose claim is kept. */
  lemma {:induction false} KeptNeverCollected(now: real, r: real, d: real, steps: seq<Step>, t: State)
    requires r + d <= GRACE && TimelyRun(Init(now), r, d, steps, t)
    ensures t.kept !! t.collected
  {
    InvRuns(Init(now), r, d, steps, t);
  }

  /** And what no claim accounts for is collected: a reconcile that lists instances and claims now can delete an instance
      exactly if it was not deleted before, no claim carries its ID, and its recorded creation is more than thirty seconds
      ago. */
  lemma UnclaimedCollected(s: State, id: string)
    requires s.gc.Idle? && id in s.recorded
    ensures var listed := Next(Next(s, ListInstances), ListClaims);
            && (Enabled(listed, Collect(id)) <==> id !in s.collected && id !in s.written && s.now - s.recorded[id] > 30.0)
            && (Enabled(listed, Collect(id)) ==> Next(listed, Collect(id)).collected == s.collected + {id})
  {
  }

  /** The first run of a kept launch that is collected: launched at second 59, listed at once and checked before its ID is
      written. */
  lemma KeptLaunchCollected(id: string) returns (t: State)
    ensures var s := Init(59.0);
            && Enabled(s, Launch(id, true))
            && var listed := Next(Next(Next(s, Launch(id, true)), ListInstances), ListClaims);
               && Enabled(listed, Collect(id)) && t == Next(listed, Collect(id))
               && t.now == 59.0 && id in t.kept && id in t.collected
  {
    assert Minute(59.0) == 0.0;
    t := Next(Next(Next(Next(Init(59.0), Launch(id, true)), ListInstances), ListClaims), Collect(id));
  }

  lemma {:induction false} InvRuns(s: State, r: real, d: real, steps: seq<Step>, t: State)
    requires Inv(s, r) && r + d <= GRACE && TimelyRun(s, r, d, steps, t)
    ensures Inv(t, r)
    decreases |steps|
  {
    if steps != [] {
      InvStep(s, r, d, steps[0]);
      InvRuns(Next(s, steps[0]), r, d, steps[1..], t);
    }
  }

  // ----- one launch and one reconcile, in true time

  /** True times of a launch, of its provider ID reaching the claim, and of one reconcile's two lists and age check. */
  datatype Schedule = Schedule(launch: real, written: real, instanceList: real, claimList: real, check: real)

  /** The ID is written within `w` of the launch, and the check follows the claim list within `d`. */
  ghost predicate Possible(s: Schedule, w: real, d: real) {
    && s.launch <= s.written <= s.launch + w
    && s.launch <= s.instanceList <= s.claimList <= s.check <= s.claimList + d
  }

  /** The instance is deleted although its claim is about to carry its ID. A deletion is refused while the instance is
      served as Pending or Starting, which ends `b` after the launch. */
  predicate Collects(s: Schedule, b: real) {
    s.claimList < s.written && s.check - Minute(s.launch) > GRACE && s.launch + b <= s.check
  }

  /** Because creation times are cut to the minute, whether the grace period protects a launch depends on its second
      within the minute. A launch is protected exactly if that second, the write delay and the check delay add up to at
      most the grace period, or the two delays to at most the start-up time, or the ID is written with no delay. */
  lemma ProtectedExactly(launch: real, w: real, d: real, b: real)
    requires 0.0 <= w && 0.0 <= d && 0.0 <= b
    ensures (forall s: Schedule | s.launch == launch && Possible(s, w, d) :: !Collects(s, b))
            <==> w == 0.0 || launch - Minute(launch) + w + d <= GRACE || w + d <= b
  {
    MinuteBounds(launch);
    var second := launch - Minute(launch);
    if w != 0.0 && second + w + d > GRACE && w + d > b {
      var slack := if second - GRACE <= 0.0 - b then second + w + d - GRACE else w + d - b;
      var early := if slack / 2.0 <= w then slack / 2.0 else w;
      var listed := launch + w - early;
      var s := Schedule(launch, launch + w, launch, listed, listed + d);
      assert Possible(s, w, d) && Collects(s, b);
    }
  }

  /** So unless instances take at least the two delays to start, some launches are unprotected: those late in a minute. */
  lemma LateLaunchUnprotected(w: real, d: real, b: real) returns (s: Schedule)
    requires 0.0 < w && 0.0 <= d && 0.0 <= b < w + d
    ensures Possible(s, w, d) && Collects(s, b)
  {
    ProtectedExactly(59.0, w, d, b);
    assert Minute(59.0) == 0.0;
    s :| s.launch == 59.0 && Possible(s, w, d) && Collects(s, b);
  }

  // ----- the reconcile

  datatype Retrieved = Retrieved(providerId: string, created: real, deleting: bool)

  /** An error of deleting an instance or its node is reported, unless the instance is gone or still starting, or the
      node is gone. */
  predicate Reports(o: InstanceCache.Outcome, nodeKnown: bool, node: InstanceCache.Outcome) {
    o.DeleteFailed? || (o.Deleted? && nodeKnown && !node.Deleted? && !node.NotFound?)
  }

  /** The reconcile asks for this instance to be deleted. */
  predicate Wanted(r: Retrieved, claims: set<string>, age: real) {
    !r.deleting && r.providerId !in claims && age > GRACE
  }

  class Controller {
    var successfulCount: nat

    constructor ()
      ensures successfulCount == 0
    {
      successfulCount := 0;
    }

    /** Exactly the wanted instances are deleted. The reconcile succeeds when no deletion reported an error, and then
        comes back after ten seconds for the first twenty successes and every minute after that. */
    method Reconcile(
      retrieved: Option<seq<Retrieved>>, claims: Option<seq<string>>, nodes: Option<set<string>>,
      checkedAt: nat -> real, deletion: nat -> InstanceCache.Outcome, nodeDeletion: nat -> InstanceCache.Outcome)
      returns (requeue: Option<nat>, asked: set<nat>)
      modifies this
      ensures asked == if retrieved.None? || claims.None? || nodes.None? then {}
                       else set i: nat | i < |retrieved.value|
                              && var r := retrieved.value[i];
                                 && !r.deleting && (r.providerId == "" || r.providerId !in claims.value)
                                 && checkedAt(i) - r.created > 30.0
      ensures requeue.Some? <==>
                && retrieved.Some? && claims.Some? && nodes.Some?
                && forall i | i in asked ::
                     match deletion(i)
                     case DeleteFailed => false
                     case Deleted =>
                       retrieved.value[i].providerId in nodes.value ==> nodeDeletion(i).Deleted? || nodeDeletion(i).NotFound?
                     case _ => true
      ensures successfulCount == old(successfulCount) + if requeue.Some? then 1 else 0
      ensures requeue.Some? ==> requeue.value == if successfulCount <= 20 then 10 else 60
    {
      asked := {};
      if retrieved.None? || claims.None? || nodes.None? {
        return None, asked;
      }
      var resolved := IdSet(claims.value);
      var instances, failed := retrieved.value, false;
      for i := 0 to |instances|
        invariant asked == set k: nat | k < i && Wanted(instances[k], resolved, checkedAt(k) - instances[k].created)
        invariant failed <==>
                    exists k :: k in asked && Reports(deletion(k), instances[k].providerId in nodes.value, nodeDeletion(k))
        invariant successfulCount == old(successfulCount)
      {
        if Wanted(instances[i], resolved, checkedAt(i) - instances[i].created) {
          failed := failed || Reports(deletion(i), instances[i].providerId in nodes.value, nodeDeletion(i));
          asked := asked + {i};
        }
      }
      if failed {
        return None, asked;
      }
      successfulCount := successfulCount + 1;
      requeue := Some(if successfulCount <= 20 then 10 else 60);
    }
  }

  /** The non-empty provider IDs of the claims. */
  function IdSet(claims: seq<string>): set<string> {
    set id | id in claims && id != ""
  }
}
