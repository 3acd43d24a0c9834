/** Marks on offerings that recently ran out of capacity, and their change counter.

    `Marks` is the shared state at the grain at which goroutines interleave: a mark is written and then the
    counter is bumped, an expired mark is evicted and then the counter is bumped, a flush clears all marks
    and then bumps the counter. */
module UnavailableOfferings {
  import opened TtlCache
  import opened Catalogue

  const UNAVAILABLE_TTL := 180

  /** `committed` is history: the marks in place with no bump outstanding, each with the counter at its bump. */
  datatype Marks = Marks(
    items: map<string, int>,      // mark key -> expiration
    seqNum: nat,
    writing: multiset<string>,    // marks written whose bump is still to come
    evicting: nat,                // evictions whose bump is still to come
    flushing: nat,                // flushes whose bump is still to come
    committed: map<string, nat>)

  datatype MarkStep = Write(key: string, ttl: int) | WriteBump(key: string) | Evict(key: string) | EvictBump | Clear | ClearBump

  const NO_MARKS := Marks(map[], 0, multiset{}, 0, 0, map[])

  predicate IsLive(m: Marks, key: string, now: nat) {
    key in m.items && !ExpiredAt(m.items[key], now)
  }

  predicate Enabled(m: Marks, now: nat, step: MarkStep) {
    match step
    case WriteBump(k) => k in m.writing
    case Evict(k) => k in m.items && ExpiredAt(m.items[k], now)
    case EvictBump => m.evicting > 0
    case ClearBump => m.flushing > 0
    case _ => true
  }

  function Next(m: Marks, now: nat, step: MarkStep): Marks
    requires Enabled(m, now, step)
  {
    match step
    case Write(k, ttl) =>
      m.(items := m.items[k := Deadline(now, ttl, UNAVAILABLE_TTL)],
         writing := m.writing + multiset{k}, committed := m.committed - {k})
    case WriteBump(k) =>
      var writing := m.writing - multiset{k};
      m.(seqNum := m.seqNum + 1, writing := writing,
         committed := if k in m.items && k !in writing then m.committed[k := m.seqNum + 1] else m.committed)
    case Evict(k) => m.(items := m.items - {k}, evicting := m.evicting + 1, committed := m.committed - {k})
    case EvictBump => m.(seqNum := m.seqNum + 1, evicting := m.evicting - 1)
    case Clear => m.(items := map[], flushing := m.flushing + 1, committed := map[])
    case ClearBump => m.(seqNum := m.seqNum + 1, flushing := m.flushing - 1)
  }

  /** Every mark in place is committed or has a writer about to bump the counter. */
  ghost predicate Consistent(m: Marks) {
    && (forall k | k in m.committed :: k in m.items && k !in m.writing && m.committed[k] <= m.seqNum)
    && (forall k | k in m.items :: k in m.committed || k in m.writing)
  }

  lemma ConsistentStep(m: Marks, now: nat, step: MarkStep)
    requires Enabled(m, now, step) && Consistent(m)
    ensures Consistent(Next(m, now, step))
    ensures m.seqNum <= Next(m, now, step).seqNum
  {
  }

  /** Steps with their times. */
  ghost predicate Runs(m: Marks, steps: seq<(nat, MarkStep)>, t: Marks)
    decreases |steps|
  {
    if steps == [] then m == t
    else Enabled(m, steps[0].0, steps[0].1) && Runs(Next(m, steps[0].0, steps[0].1), steps[1..], t)
  }

  /** The bumps still to come. */
  function Pending(m: Marks): nat {
    |m.writing| + m.evicting + m.flushing
  }

  /** The changes of the marks in a run: writes, evictions and flushes. */
  function Changes(steps: seq<(nat, MarkStep)>): nat {
    if steps == [] then 0
    else (if steps[0].1.Write? || steps[0].1.Evict? || steps[0].1.Clear? then 1 else 0) + Changes(steps[1..])
  }

  /** In every run the counter moves exactly once for each change, sooner or later: it has moved as often as there were
      changes, less the bumps still to come. */
  lemma {:induction false} OneBumpPerChange(m: Marks, steps: seq<(nat, MarkStep)>, t: Marks)
    requires Runs(m, steps, t)
    ensures t.seqNum + Pending(t) == m.seqNum + Pending(m) + Changes(steps)
    decreases |steps|
  {
    if steps != [] {
      OneBumpPerChange(Next(m, steps[0].0, steps[0].1), steps[1..], t);
    }
  }

  /** What looking one mark up returned; the expiration seen is history. */
  datatype Look = Free | Marked(expiration: int)

  function LookAt(m: Marks, key: string, now: nat): Look {
    if IsLive(m, key, now) then Marked(m.items[key]) else Free
  }

  /** What a look made by a reader that had read the counter as `seqNum` still tells about the marks.
      A free look did not miss a mark committed before the counter was read. A mark that was seen is still in
      place, unless the counter moved on, it expired, it is being rewritten or it is being flushed. */
  ghost predicate LookHolds(m: Marks, now: nat, seqNum: nat, key: string, look: Look) {
    match look
    case Free => key in m.committed && key in m.items && m.committed[key] <= seqNum ==> ExpiredAt(m.items[key], now)
    case Marked(x) =>
      seqNum == m.seqNum ==>
        ExpiredAt(x, now) || key in m.writing || m.flushing > 0 || (key in m.items && m.items[key] == x)
  }

  lemma LookIsSound(m: Marks, now: nat, seqNum: nat, key: string)
    requires Consistent(m)
    ensures LookHolds(m, now, seqNum, key, LookAt(m, key, now))
  {
  }

  lemma LookKept(m: Marks, now: nat, step: MarkStep, seqNum: nat, key: string, look: Look)
    requires Enabled(m, now, step) && Consistent(m) && seqNum <= m.seqNum
    requires LookHolds(m, now, seqNum, key, look)
    ensures LookHolds(Next(m, now, step), now, seqNum, key, look)
  {
  }

  lemma LookKeptByClock(m: Marks, now: nat, later: nat, seqNum: nat, key: string, look: Look)
    requires now <= later && LookHolds(m, now, seqNum, key, look)
    ensures LookHolds(m, later, seqNum, key, look)
  {
  }

  /** One entry of a launch response; a missing entry is `None`. */
  datatype LaunchResult = LaunchResult(errorCode: string, instanceType: string, zone: string)

  predicate OutOfStock(code: string) {
    code == "NoInstanceStock" || code == "OperationDenied.NoStock"
  }

  /** The response reports that the offering behind the key ran out of stock. */
  predicate ReportsOutOfStock(result: Option<LaunchResult>, capacityType: CapacityType, key: string) {
    && result.Some? && result.value.errorCode in {"NoInstanceStock", "OperationDenied.NoStock"}
    && result.value.instanceType != "" && result.value.zone != ""
    && key == MarkKey(result.value.instanceType, OfferingId(result.value.zone, capacityType))
  }

  ghost predicate Reported(results: seq<Option<LaunchResult>>, capacityType: CapacityType, key: string) {
    exists j :: 0 <= j < |results| && ReportsOutOfStock(results[j], capacityType, key)
  }

  /** The keys reported out of stock are marked for three minutes, the others are as before. */
  ghost predicate Recorded(
    before: map<string, int>, after: map<string, int>, results: seq<Option<LaunchResult>>, capacityType: CapacityType, now: nat)
  {
    forall key ::
      if Reported(results, capacityType, key) then key in after && after[key] == now + 180
      else (key in after <==> key in before) && (key in after ==> after[key] == before[key])
  }

  lemma ReportedOneMore(results: seq<Option<LaunchResult>>, capacityType: CapacityType, key: string, i: nat)
    requires i < |results|
    ensures Reported(results[..i + 1], capacityType, key) <==>
              Reported(results[..i], capacityType, key) || ReportsOutOfStock(results[i], capacityType, key)
  {
    var before, after := results[..i], results[..i + 1];
    assert after == before + [results[i]];
    if j :| 0 <= j < i && ReportsOutOfStock(before[j], capacityType, key) {
      assert after[j] == before[j];
    }
    if ReportsOutOfStock(results[i], capacityType, key) {
      assert after[i] == results[i];
    }
  }

  lemma RecordedOneMore(
    before: map<string, int>, after: map<string, int>, results: seq<Option<LaunchResult>>, capacityType: CapacityType, now: nat,
    i: nat)
    requires i < |results| && Recorded(before, after, results[..i], capacityType, now)
    ensures forall key | ReportsOutOfStock(results[i], capacityType, key) ::
              Recorded(before, after[key := now + 180], results[..i + 1], capacityType, now)
    ensures (forall key :: !ReportsOutOfStock(results[i], capacityType, key)) ==>
              Recorded(before, after, results[..i + 1], capacityType, now)
  {
    forall key {
      ReportedOneMore(results, capacityType, key, i);
    }
  }

  /** The keys of a map whose item has expired. */
  function ExpiredKeys(items: map<string, int>, now: nat): set<string> {
    set k | k in items && ExpiredAt(items[k], now)
  }

  /** The marks as one goroutine uses them; each method is an uninterrupted sequence of the steps above. */
  class OfferingMarks {
    var items: map<string, int>
    var seqNum: nat
    ghost var committed: map<string, nat>

    ghost function View(): Marks
      reads this
    {
      Marks(items, seqNum, multiset{}, 0, 0, committed)
    }

    constructor ()
      ensures View() == NO_MARKS
    {
      items, seqNum, committed := map[], 0, map[];
    }

    method IsUnavailable(instanceType: string, id: OfferingId, now: nat) returns (found: bool)
      ensures found == LookAt(View(), MarkKey(instanceType, id), now).Marked?
      ensures found <==> var key := MarkKey(instanceType, id); key in items && (items[key] <= 0 || now <= items[key])
    {
      var key := MarkKey(instanceType, id);
      found := key in items && !ExpiredAt(items[key], now);
    }

    method MarkUnavailableWithTTL(instanceType: string, id: OfferingId, ttl: int, now: nat)
      modifies this
      ensures var key := MarkKey(instanceType, id);
              View() == Next(Next(old(View()), now, Write(key, ttl)), now, WriteBump(key))
      ensures var deadline := if ttl == 0 then now + 180 else if ttl > 0 then now + ttl else 0;
              items == old(items)[MarkKey(instanceType, id) := deadline] && seqNum == old(seqNum) + 1
    {
      var key := MarkKey(instanceType, id);
      items := items[key := Deadline(now, ttl, UNAVAILABLE_TTL)];
      committed := (committed - {key})[key := seqNum + 1];
      seqNum := seqNum + 1;
      assert multiset{} + multiset{key} - multiset{key} == multiset{};
    }

    method Flush(now: nat)
      modifies this
      ensures View() == Next(Next(old(View()), now, Clear), now, ClearBump)
      ensures items == map[] && seqNum == old(seqNum) + 1
    {
      items, committed := map[], map[];
      seqNum := seqNum + 1;
    }

    /** The sweep removes every expired item under the cache's lock and then runs the callback once for each. */
    method DeleteExpired(now: nat)
      modifies this
      ensures items == old(items) - ExpiredKeys(old(items), now)
      ensures forall k | k in old(items) :: k in items <==> old(items)[k] <= 0 || now <= old(items)[k]
      ensures seqNum == old(seqNum) + |ExpiredKeys(old(items), now)|
      ensures committed == old(committed) - ExpiredKeys(old(items), now)
    {
      var expired := ExpiredKeys(items, now);
      items, committed := items - expired, committed - expired;
      var evicted := expired;
      while evicted != {}
        invariant evicted <= expired
        invariant seqNum == old(seqNum) + |expired| - |evicted|
        invariant items == old(items) - expired && committed == old(committed) - expired
        decreases evicted
      {
        var k :| k in evicted;
        evicted := evicted - {k};
        seqNum := seqNum + 1;
      }
    }

    /** After a launch every offering reported out of stock is marked for the default time, and no other. */
    method RecordLaunchResults(results: seq<Option<LaunchResult>>, capacityType: CapacityType, now: nat)
      modifies this
      ensures Recorded(old(items), items, results, capacityType, now)
      ensures old(seqNum) <= seqNum
      ensures (exists key :: Reported(results, capacityType, key)) ==> old(seqNum) < seqNum
    {
      for i := 0 to |results|
        invariant Recorded(old(items), items, results[..i], capacityType, now)
        invariant old(seqNum) <= seqNum
        invariant (exists key :: Reported(results[..i], capacityType, key)) ==> old(seqNum) < seqNum
      {
        RecordedOneMore(old(items), items, results, capacityType, now, i);
        forall key {
          ReportedOneMore(results, capacityType, key, i);
        }
        if results[i].Some? && OutOfStock(results[i].value.errorCode)
           && results[i].value.instanceType != "" && results[i].value.zone != ""
        {
          var id := OfferingId(results[i].value.zone, capacityType);
          assert ReportsOutOfStock(results[i], capacityType, MarkKey(results[i].value.instanceType, id));
          MarkUnavailableWithTTL(results[i].value.instanceType, id, 0, now);
        }
      }
      assert results[..|results|] == results;
    }
  }

  /** A mark written and bumped without interruption is committed, and any look made before it expires sees it. */
  lemma MarkedUntilDeadline(m: Marks, now: nat, key: string, ttl: int, later: nat)
    requires Consistent(m) && key !in m.writing
    requires later <= Deadline(now, ttl, UNAVAILABLE_TTL) || Deadline(now, ttl, UNAVAILABLE_TTL) == 0
    ensures var m' := Next(Next(m, now, Write(key, ttl)), now, WriteBump(key));
            && key in m'.committed && m'.committed[key] == m'.seqNum
            && LookAt(m', key, later) == Marked(Deadline(now, ttl, UNAVAILABLE_TTL))
  {
    var w := Next(m, now, Write(key, ttl));
    assert key !in w.writing - multiset{key};
  }
}
