/** The versioned-cache protocol between the writers of unavailability marks and the readers that list
    instance types.

    A writer stores a mark and then bumps the change counter. A reader checks that something is discovered, reads the
    counter into its cache key, then reads the zones, the network plugin and the types, and for each of them stock,
    prices and marks one by one, and stores its result under that key. Read locks keep discoveries away from a reader.
    Nothing locks it against a mark, a price update or a Reset, which clears types, stock and lists one after the other,
    so all of these are separate, freely interleaved steps over a shared state with a clock.
    Fields marked "history" are never read by a step; they only let the claims be stated. */
module ListProtocol {
  import opened TtlCache
  import opened Capacity
  import opened Catalogue
  import Pricing
  import UO = UnavailableOfferings

  const LIST_TTL := 300
  const MONITOR_TTL := 86400

  /** What the list depends on although its cache key does not contain it. */
  datatype Env = Env(spot: Stock, prices: Pricing.Tables, cni: Cni)

  datatype Request = Request(vSwitchZones: set<string>, kc: KubeletConfiguration, disk: Option<int>)

  /** Hashes are injective, so the key holds the hashed values themselves. */
  datatype Key = Key(typesSeq: nat, stockSeq: nat, markSeq: nat, vSwitchZones: set<string>, kc: KubeletConfiguration)

  /** The on-demand stock of the pairs of type and zone asked for so far. `late`, the pairs asked for after a Reset had
      cleared the stock, is history. */
  datatype StockReads = StockReads(asked: set<(string, string)>, stock: Stock, late: set<(string, string)>)

  /** A list computation in progress: its key and what it has read. `envVersion` and `lost`, that the types or the zones were
      read after a Reset had cleared them, are history. */
  datatype Reader = Reader(
    key: Key, disk: Option<int>, envVersion: nat,
    zones: Option<set<string>>, cni: Option<Cni>, infos: Option<set<InstanceInfo>>, lost: bool, stock: StockReads,
    quotes: map<(string, OfferingId), Option<real>>, looks: map<string, UO.Look>)

  /** A stored list; everything but `listing` is history. */
  datatype Entry = Entry(listing: Listing, reader: Reader, spot: Stock)

  /** Discovered types and stock with their change counters and change monitors. */
  datatype Discovery = Discovery(
    infos: seq<InstanceInfo>, typesSeq: nat, typesSeen: Option<Item<set<InstanceInfo>>>,
    onDemand: Stock, stockSeq: nat, stockSeen: Option<Item<Stock>>)

  /** The Resets under way: those that have cleared the types only, and those that have cleared the stock too. */
  datatype Resets = Resets(typesCleared: nat, stockCleared: nat)

  /** `checked` are the requests between the state check and the key. `envVersion`, which counts the changes of `env`, is
      history. */
  datatype State = State(
    now: nat, marks: UO.Marks, found: Discovery, env: Env, envVersion: nat, resets: Resets,
    checked: map<nat, Request>, readers: map<nat, Reader>, cached: map<Key, Item<Entry>>)

  /** One read of a list computation. Spot stock cannot change under the read locks, so it is not read on its own. */
  datatype Read =
    | Zones
    | NetworkPlugin
    | Types
    | OnDemandStock(instanceType: string, zone: string)
    | Quote(instanceType: string, id: OfferingId)
    | LookUp(key: string)

  datatype Step =
    | Tick(d: nat)
    | OnMarks(mark: UO.MarkStep)
    | UpdateTypes(infos: seq<InstanceInfo>)
    | UpdateStock(onDemand: Stock, spot: Option<Stock>)
    | UpdatePrices(update: Pricing.Event)
    | ChangeCni(cni: Cni)
    | ClearTypes     // the three assignments of a Reset
    | ClearStock
    | ClearLists
    | Check(reader: nat, request: Request)
    | Begin(reader: nat)
    | Reading(reader: nat, read: Read)
    | Finish(reader: nat)
    | Leave(reader: nat)

  const NOTHING_FOUND := Discovery([], 0, None, map[], 0, None)

  const NOTHING_ASKED := StockReads({}, map[], {})

  function Init(now: nat, env: Env): State {
    State(now, UO.NO_MARKS, NOTHING_FOUND, env, 0, Resets(0, 0), map[], map[], map[])
  }

  /** `HasChanged`: the value differs from the last one stored, or that one has expired. Slices are hashed as sets. */
  predicate HasChanged<T(==)>(seen: Option<Item<T>>, value: T, now: nat) {
    !(seen.Some? && !ExpiredAt(seen.value.expiration, now) && seen.value.value == value)
  }

  function WithTypes(d: Discovery, infos: seq<InstanceInfo>, now: nat): Discovery {
    if HasChanged(d.typesSeen, ToSet(infos), now)
    then d.(infos := infos, typesSeq := d.typesSeq + 1, typesSeen := Some(Item(ToSet(infos), now + MONITOR_TTL)))
    else d.(infos := infos)
  }

  function WithStock(d: Discovery, onDemand: Stock, now: nat): Discovery {
    if HasChanged(d.stockSeen, onDemand, now)
    then d.(onDemand := onDemand, stockSeq := d.stockSeq + 1, stockSeen := Some(Item(onDemand, now + MONITOR_TTL)))
    else d.(onDemand := onDemand)
  }

  predicate Valid(d: Discovery, spot: Stock, request: Request) {
    d.infos != [] && d.onDemand != map[] && spot != map[] && request.vSwitchZones != {}
  }

  function KeyOf(d: Discovery, markSeq: nat, request: Request): Key {
    Key(d.typesSeq, d.stockSeq, markSeq, request.vSwitchZones, request.kc)
  }

  function Price(env: Env, instanceType: string, id: OfferingId): Option<real> {
    match id.capacityType
    case OnDemand => Pricing.OnDemandPrice(env.prices, instanceType)
    case Spot => Pricing.SpotPrice(env.prices, instanceType, id.zone)
  }

  /** The reads are made in this order, for each type and zone the stock before the prices; all other orders are left open. */
  predicate MayRead(r: Reader, read: Read) {
    match read
    case Zones => r.zones.None?
    case NetworkPlugin => r.zones.Some? && r.cni.None?
    case Types => r.cni.Some? && r.infos.None?
    case OnDemandStock(t, z) => r.infos.Some? && (t, z) !in r.stock.asked
    case Quote(t, id) => (t, id.zone) in r.stock.asked
    case LookUp(_) => r.infos.Some?
  }

  function AskStock(q: StockReads, onDemand: Stock, instanceType: string, zone: string): StockReads {
    StockReads(q.asked + {(instanceType, zone)},
               if HasStock(onDemand, instanceType, zone) then Insert(q.stock, instanceType, zone) else q.stock,
               if onDemand == map[] then q.late + {(instanceType, zone)} else q.late)
  }

  function AfterRead(s: State, r: Reader, read: Read): Reader {
    match read
    case Zones => r.(zones := Some(AllZones(s.found.onDemand)), lost := r.lost || s.found.onDemand == map[])
    case NetworkPlugin => r.(cni := Some(s.env.cni))
    case Types => r.(infos := Some(ToSet(s.found.infos)), lost := r.lost || s.found.infos == [])
    case OnDemandStock(t, z) => r.(stock := AskStock(r.stock, s.found.onDemand, t, z))
    case Quote(t, id) => r.(quotes := r.quotes[(t, id) := Price(s.env, t, id)])
    case LookUp(k) => r.(looks := r.looks[k := UO.LookAt(s.marks, k, s.now)])
  }

  /** The types, the network plugin and the zones have been read. */
  predicate Ready(r: Reader) {
    r.zones.Some? && r.cni.Some? && r.infos.Some?
  }

  /** The reader has everything the catalogue needs: for every type and zone the stock, a quote for every offering and a look
      at every quoted one. */
  predicate Complete(r: Reader) {
    && Ready(r)
    && forall i, id | i in r.infos.value && id in OfferingIds(r.zones.value) ::
         && (i.id, id.zone) in r.stock.asked
         && (i.id, id) in r.quotes
         && (r.quotes[(i.id, id)].Some? ==> MarkKey(i.id, id) in r.looks)
  }

  function QuotedPrices(r: Reader): Prices {
    map q | q in r.quotes && r.quotes[q].Some? :: r.quotes[q].value
  }

  function MarkedKeys(r: Reader): set<string> {
    set k | k in r.looks && r.looks[k].Marked?
  }

  function ReadsOf(r: Reader, spot: Stock): Reads
    requires Ready(r)
  {
    Reads(r.stock.stock, spot, r.disk, r.cni.value, QuotedPrices(r), MarkedKeys(r))
  }

  function Compute(r: Reader, spot: Stock): Listing
    requires Ready(r)
  {
    Build(r.infos.value, r.zones.value, r.key.vSwitchZones, r.key.kc, ReadsOf(r, spot))
  }

  /** No list computation holds the read locks. */
  predicate Unlocked(s: State) {
    s.checked == map[] && s.readers == map[]
  }

  /** The two updates take the write locks and wait for every reader. Marks, price updates and Resets do not. */
  predicate Enabled(s: State, step: Step) {
    match step
    case OnMarks(m) => UO.Enabled(s.marks, s.now, m)
    case UpdateTypes(_) => Unlocked(s)
    case UpdateStock(_, _) => Unlocked(s)
    case ClearStock => s.resets.typesCleared > 0
    case ClearLists => s.resets.stockCleared > 0
    case Check(id, request) => id !in s.checked && id !in s.readers && Valid(s.found, s.env.spot, request)
    case Begin(id) =>
      && id in s.checked && id !in s.readers
      && !Live(s.cached, KeyOf(s.found, s.marks.seqNum, s.checked[id]), s.now)
    case Reading(id, read) => id in s.readers && MayRead(s.readers[id], read)
    case Finish(id) => id in s.readers && Complete(s.readers[id])
    case Leave(id) => id in s.checked || id in s.readers
    case _ => true
  }

  function WithEnv(s: State, env: Env): State {
    s.(env := env, envVersion := if env == s.env then s.envVersion else s.envVersion + 1)
  }

  function NewReader(s: State, request: Request): Reader {
    var key := KeyOf(s.found, s.marks.seqNum, request);
    Reader(key, request.disk, s.envVersion, None, None, None, false, NOTHING_ASKED, map[], map[])
  }

  function FinishedEntry(s: State, r: Reader): Entry
    requires Ready(r)
  {
    Entry(Compute(r, s.env.spot), r, s.env.spot)
  }

  function Next(s: State, step: Step): State
    requires Enabled(s, step)
  {
    match step
    case Tick(d) => s.(now := s.now + d)
    case OnMarks(m) => s.(marks := UO.Next(s.marks, s.now, m))
    case UpdateTypes(infos) => s.(found := WithTypes(s.found, infos, s.now))
    case UpdateStock(onDemand, spot) =>
      var t := s.(found := WithStock(s.found, onDemand, s.now));
      if spot.Some? then WithEnv(t, s.env.(spot := spot.value)) else t
    case UpdatePrices(update) => WithEnv(s, s.env.(prices := Pricing.Apply(s.env.prices, update)))
    case ChangeCni(cni) => WithEnv(s, s.env.(cni := cni))
    case ClearTypes =>
      s.(found := s.found.(infos := []), resets := s.resets.(typesCleared := s.resets.typesCleared + 1))
    case ClearStock =>
      s.(found := s.found.(onDemand := map[]), resets := Resets(s.resets.typesCleared - 1, s.resets.stockCleared + 1))
    case ClearLists => s.(cached := map[], resets := s.resets.(stockCleared := s.resets.stockCleared - 1))
    case Check(id, request) => s.(checked := s.checked[id := request])
    case Begin(id) => s.(checked := s.checked - {id}, readers := s.readers[id := NewReader(s, s.checked[id])])
    case Reading(id, read) => s.(readers := s.readers[id := AfterRead(s, s.readers[id], read)])
    case Finish(id) =>
      var r := s.readers[id];
      s.(readers := s.readers - {id}, cached := s.cached[r.key := Item(FinishedEntry(s, r), s.now + LIST_TTL)])
    case Leave(id) => s.(checked := s.checked - {id}, readers := s.readers - {id})
  }

  ghost predicate Runs(s: State, steps: seq<Step>, t: State)
    decreases |steps|
  {
    if steps == [] then s == t
    else Enabled(s, steps[0]) && Runs(Next(s, steps[0]), steps[1..], t)
  }

  /** A discovery moves its counter exactly if what it found differs from what was last found to differ, or that is more than
      a day ago; and then it is what was last found to differ. */
  lemma CountersMoveExactly(d: Discovery, infos: seq<InstanceInfo>, onDemand: Stock, now: nat)
    ensures var t, seen := WithTypes(d, infos, now), d.typesSeen;
            && t.infos == infos && t.onDemand == d.onDemand && t.stockSeq == d.stockSeq && t.stockSeen == d.stockSeen
            && if seen.Some? && seen.value.value == ToSet(infos) && (seen.value.expiration <= 0 || now <= seen.value.expiration)
               then t.typesSeq == d.typesSeq && t.typesSeen == seen
               else t.typesSeq == d.typesSeq + 1 && t.typesSeen == Some(Item(ToSet(infos), now + 86400))
    ensures var t, seen := WithStock(d, onDemand, now), d.stockSeen;
            && t.onDemand == onDemand && t.infos == d.infos && t.typesSeq == d.typesSeq && t.typesSeen == d.typesSeen
            && if seen.Some? && seen.value.value == onDemand && (seen.value.expiration <= 0 || now <= seen.value.expiration)
               then t.stockSeq == d.stockSeq && t.stockSeen == seen
               else t.stockSeq == d.stockSeq + 1 && t.stockSeen == Some(Item(onDemand, now + 86400))
  {
  }

  // ----- what every step keeps

  ghost predicate LooksInv(marks: UO.Marks, now: nat, r: Reader) {
    && r.key.markSeq <= marks.seqNum
    && forall k | k in r.looks :: UO.LookHolds(marks, now, r.key.markSeq, k, r.looks[k])
  }

  ghost predicate QuotesInv(env: Env, envVersion: nat, r: Reader) {
    && r.envVersion <= envVersion
    && (r.envVersion == envVersion ==>
          && (r.cni.Some? ==> r.cni.value == env.cni)
          && forall q | q in r.quotes :: r.quotes[q] == Price(env, q.0, q.1))
  }

  ghost predicate ReaderInv(s: State, r: Reader) {
    LooksInv(s.marks, s.now, r) && QuotesInv(s.env, s.envVersion, r)
  }

  ghost predicate EntryInv(s: State, key: Key, e: Entry) {
    && e.reader.key == key
    && ReaderInv(s, e.reader)
    && Complete(e.reader)
    && e.listing == Compute(e.reader, e.spot)
    && (e.reader.envVersion == s.envVersion ==> e.spot == s.env.spot)
  }

  /** The change counters identify the discovered values. */
  ghost predicate DiscoveryInv(d: Discovery) {
    && (d.infos != [] ==> d.typesSeen.Some? && d.typesSeen.value.value == ToSet(d.infos))
    && (d.onDemand != map[] ==> d.stockSeen.Some? && d.stockSeen.value.value == d.onDemand)
  }

  /** What was read of the types and the zones is what the monitors saw, or nothing if it was read too late. */
  ghost predicate TypesGrounded(seen: Option<Item<set<InstanceInfo>>>, r: Reader) {
    r.infos.Some? ==> (seen.Some? && r.infos.value == seen.value.value) || (r.lost && r.infos.value == {})
  }

  ghost predicate ZonesGrounded(seen: Option<Item<Stock>>, r: Reader) {
    r.zones.Some? ==> (seen.Some? && r.zones.value == AllZones(seen.value.value)) || (r.lost && r.zones.value == {})
  }

  /** Stock was found only where there is some, and missed only where it was asked for too late. */
  ghost predicate StockGrounded(seen: Option<Item<Stock>>, q: StockReads) {
    && (forall t, z | HasStock(q.stock, t, z) :: seen.Some? && HasStock(seen.value.value, t, z))
    && (forall t, z | (t, z) in q.asked && (t, z) !in q.late ::
          seen.Some? && (HasStock(seen.value.value, t, z) ==> HasStock(q.stock, t, z)))
  }

  /** A reader whose counters are current has read the values last stored in the monitors, as far as it was not too late. */
  ghost predicate Grounded(d: Discovery, r: Reader) {
    && r.key.typesSeq <= d.typesSeq && r.key.stockSeq <= d.stockSeq
    && (r.key.typesSeq == d.typesSeq ==> TypesGrounded(d.typesSeen, r))
    && (r.key.stockSeq == d.stockSeq ==> ZonesGrounded(d.stockSeen, r) && StockGrounded(d.stockSeen, r.stock))
  }

  /** Too late a read found nothing. */
  ghost predicate LostInv(r: Reader) {
    && (r.lost ==> r.zones == Some({}) || r.infos == Some({}))
    && r.stock.late <= r.stock.asked
    && (forall t, z | HasStock(r.stock.stock, t, z) :: (t, z) in r.stock.asked && (t, z) !in r.stock.late)
  }

  /** Under its read locks a reader's counters stay current. */
  ghost predicate Locked(d: Discovery, r: Reader) {
    r.key.typesSeq == d.typesSeq && r.key.stockSeq == d.stockSeq && Grounded(d, r) && LostInv(r)
  }

  ghost predicate LockInv(s: State) {
    && (forall id | id in s.readers :: Locked(s.found, s.readers[id]))
    && (forall key | key in s.cached :: Grounded(s.found, s.cached[key].value.reader) && LostInv(s.cached[key].value.reader))
  }

  ghost predicate Inv(s: State) {
    && UO.Consistent(s.marks)
    && (forall id | id in s.readers :: ReaderInv(s, s.readers[id]))
    && (forall key | key in s.cached :: EntryInv(s, key, s.cached[key].value))
    && DiscoveryInv(s.found)
    && LockInv(s)
  }

  /** No step invalidates what an untouched reader holds. */
  lemma ReaderKept(s: State, step: Step, r: Reader)
    requires Enabled(s, step) && UO.Consistent(s.marks) && ReaderInv(s, r)
    ensures ReaderInv(Next(s, step), r)
  {
    var t := Next(s, step);
    forall k | k in r.looks ensures UO.LookHolds(t.marks, t.now, r.key.markSeq, k, r.looks[k]) {
      match step
      case OnMarks(m) => UO.LookKept(s.marks, s.now, m, r.key.markSeq, k, r.looks[k]);
      case Tick(d) => UO.LookKeptByClock(s.marks, s.now, t.now, r.key.markSeq, k, r.looks[k]);
      case _ =>
    }
    if step.OnMarks? {
      UO.ConsistentStep(s.marks, s.now, step.mark);
    }
  }

  lemma ReadSound(s: State, r: Reader, read: Read)
    requires UO.Consistent(s.marks) && ReaderInv(s, r)
    ensures ReaderInv(s, AfterRead(s, r, read))
  {
    if read.LookUp? {
      UO.LookIsSound(s.marks, s.now, r.key.markSeq, read.key);
    }
  }

  /** Reads keep the reader that makes them sound. */
  lemma ReaderStep(s: State, step: Step, id: nat)
    requires Enabled(s, step) && UO.Consistent(s.marks)
    requires id in s.readers ==> ReaderInv(s, s.readers[id])
    requires id in Next(s, step).readers
    ensures ReaderInv(Next(s, step), Next(s, step).readers[id])
  {
    if id in s.readers {
      if step.Reading? && step.reader == id {
        ReadSound(s, s.readers[id], step.read);
      } else {
        ReaderKept(s, step, s.readers[id]);
      }
    }
  }

  lemma EntryKept(s: State, step: Step, key: Key, e: Entry)
    requires Enabled(s, step) && UO.Consistent(s.marks) && EntryInv(s, key, e)
    ensures EntryInv(Next(s, step), key, e)
  {
    ReaderKept(s, step, e.reader);
  }

  /** The step ends a computation for the key and stores the item. */
  ghost predicate Finishes(s: State, step: Step, key: Key, item: Item<Entry>) {
    && step.Finish? && Enabled(s, step)
    && key == s.readers[step.reader].key && item == Item(FinishedEntry(s, s.readers[step.reader]), s.now + LIST_TTL)
  }

  /** Nothing else puts an item into the cache. */
  lemma CachedByStep(s: State, step: Step, key: Key)
    requires Enabled(s, step) && key in Next(s, step).cached
    ensures Finishes(s, step, key, Next(s, step).cached[key]) || (key in s.cached && Next(s, step).cached[key] == s.cached[key])
  {
  }

  lemma EntryStep(s: State, step: Step, key: Key)
    requires Enabled(s, step) && Inv(s) && key in Next(s, step).cached
    ensures EntryInv(Next(s, step), key, Next(s, step).cached[key].value)
  {
    CachedByStep(s, step, key);
    if Finishes(s, step, key, Next(s, step).cached[key]) {
      ReaderKept(s, step, s.readers[step.reader]);
    } else {
      EntryKept(s, step, key, s.cached[key].value);
    }
  }

  /** No step ungrounds a reader that does not read. */
  lemma GroundedKept(s: State, step: Step, r: Reader)
    requires Enabled(s, step) && Grounded(s.found, r)
    ensures Grounded(Next(s, step).found, r)
  {
  }

  /** Reading under the locks keeps a reader grounded. */
  lemma ReadGrounded(s: State, r: Reader, read: Read)
    requires DiscoveryInv(s.found) && Locked(s.found, r) && MayRead(r, read)
    ensures Locked(s.found, AfterRead(s, r, read))
  {
    if read.OnDemandStock? {
      InsertedStock(r.stock.stock, read.instanceType, read.zone);
    }
  }

  lemma LockedStep(s: State, step: Step, id: nat)
    requires Enabled(s, step) && DiscoveryInv(s.found) && LockInv(s) && id in Next(s, step).readers
    ensures Locked(Next(s, step).found, Next(s, step).readers[id])
  {
    if id in s.readers {
      assert Locked(s.found, s.readers[id]);
      if step.Reading? && step.reader == id {
        ReadGrounded(s, s.readers[id], step.read);
      } else {
        GroundedKept(s, step, s.readers[id]);
      }
    }
  }

  lemma GroundedStep(s: State, step: Step, key: Key)
    requires Enabled(s, step) && LockInv(s) && key in Next(s, step).cached
    ensures var r := Next(s, step).cached[key].value.reader; Grounded(Next(s, step).found, r) && LostInv(r)
  {
    CachedByStep(s, step, key);
    if Finishes(s, step, key, Next(s, step).cached[key]) {
      assert Locked(s.found, s.readers[step.reader]);
    } else {
      GroundedKept(s, step, s.cached[key].value.reader);
    }
  }

  lemma ReadersStep(s: State, step: Step)
    requires Enabled(s, step) && Inv(s)
    ensures var t := Next(s, step); forall id | id in t.readers :: ReaderInv(t, t.readers[id])
  {
    var t := Next(s, step);
    forall id | id in t.readers ensures ReaderInv(t, t.readers[id]) {
      ReaderStep(s, step, id);
    }
  }

  lemma EntriesStep(s: State, step: Step)
    requires Enabled(s, step) && Inv(s)
    ensures var t := Next(s, step); forall key | key in t.cached :: EntryInv(t, key, t.cached[key].value)
  {
    var t := Next(s, step);
    forall key | key in t.cached ensures EntryInv(t, key, t.cached[key].value) {
      EntryStep(s, step, key);
    }
  }

  lemma LocksStep(s: State, step: Step)
    requires Enabled(s, step) && Inv(s)
    ensures LockInv(Next(s, step))
  {
    var t := Next(s, step);
    forall id | id in t.readers ensures Locked(t.found, t.readers[id]) {
      LockedStep(s, step, id);
    }
    forall key | key in t.cached ensures Grounded(t.found, t.cached[key].value.reader) && LostInv(t.cached[key].value.reader) {
      GroundedStep(s, step, key);
    }
  }

  lemma DiscoveryStep(s: State, step: Step)
    requires Enabled(s, step) && DiscoveryInv(s.found)
    ensures DiscoveryInv(Next(s, step).found)
  {
  }

  lemma MarksStep(s: State, step: Step)
    requires Enabled(s, step) && UO.Consistent(s.marks)
    ensures UO.Consistent(Next(s, step).marks)
  {
    if step.OnMarks? {
      UO.ConsistentStep(s.marks, s.now, step.mark);
    }
  }

  lemma InvStep(s: State, step: Step)
    requires Enabled(s, step) && Inv(s)
    ensures Inv(Next(s, step))
  {
    MarksStep(s, step);
    ReadersStep(s, step);
    EntriesStep(s, step);
    DiscoveryStep(s, step);
    LocksStep(s, step);
  }

  lemma {:induction false} InvRuns(s: State, steps: seq<Step>, t: State)
    requires Inv(s) && Runs(s, steps, t)
    ensures Inv(t)
    decreases |steps|
  {
    if steps != [] {
      InvStep(s, steps[0]);
      InvRuns(Next(s, steps[0]), steps[1..], t);
    }
  }

  // ----- the claims

  /** A list shows an offering as available only if its look found no live mark. */
  lemma ShownWasFree(e: Entry, i: InstanceInfo, id: OfferingId)
    requires Complete(e.reader) && e.listing == Compute(e.reader, e.spot)
    requires Shows(e.listing, i, id)
    ensures MarkKey(i.id, id) in e.reader.looks && e.reader.looks[MarkKey(i.id, id)].Free?
  {
    assert (i.id, id) in QuotedPrices(e.reader);
    assert (i.id, id) in e.reader.quotes;
  }

  /** In every interleaving: a list stored by a reader that read the counter after an offering's mark was
      committed does not show that offering as available while the mark is unexpired. */
  lemma CommittedMarkNeverShown(now: nat, env: Env, steps: seq<Step>, s: State, key: Key, i: InstanceInfo, id: OfferingId)
    requires Runs(Init(now, env), steps, s)
    requires key in s.cached
    requires MarkKey(i.id, id) in s.marks.committed && MarkKey(i.id, id) in s.marks.items
    requires s.marks.committed[MarkKey(i.id, id)] <= key.markSeq
    requires Shows(s.cached[key].value.listing, i, id)
    ensures ExpiredAt(s.marks.items[MarkKey(i.id, id)], s.now)
  {
    InvRuns(Init(now, env), steps, s);
    var e := s.cached[key].value;
    assert EntryInv(s, key, e);
    ShownWasFree(e, i, id);
    assert UO.LookHolds(s.marks, s.now, key.markSeq, MarkKey(i.id, id), UO.Free);
  }

  /** In every interleaving: the list stored under the current counter shows no offering as available that
      carries an unexpired mark, unless that mark's writer is between its write and its bump. */
  lemma CurrentListHidesMarked(now: nat, env: Env, steps: seq<Step>, s: State, key: Key, i: InstanceInfo, id: OfferingId)
    requires Runs(Init(now, env), steps, s)
    requires key in s.cached && key.markSeq == s.marks.seqNum
    requires MarkKey(i.id, id) !in s.marks.writing
    requires MarkKey(i.id, id) in s.marks.items && !ExpiredAt(s.marks.items[MarkKey(i.id, id)], s.now)
    ensures !Shows(s.cached[key].value.listing, i, id)
  {
    InvRuns(Init(now, env), steps, s);
    if Shows(s.cached[key].value.listing, i, id) {
      CommittedMarkNeverShown(now, env, steps, s, key, i, id);
    }
  }

  /** What a fresh computation reads now. */
  ghost function FreshReads(s: State, request: Request): Reads {
    Reads(s.found.onDemand, s.env.spot, request.disk, s.env.cni, CurrentPrices(s), LiveMarks(s))
  }

  /** A fresh computation of the list. */
  ghost function Recompute(s: State, request: Request): Listing {
    Build(ToSet(s.found.infos), AllZones(s.found.onDemand), request.vSwitchZones, request.kc, FreshReads(s, request))
  }

  ghost function CurrentPrices(s: State): Prices {
    map i, id | i in s.found.infos && id in OfferingIds(AllZones(s.found.onDemand)) && Price(s.env, i.id, id).Some? ::
      (i.id, id) := Price(s.env, i.id, id).value
  }

  ghost function LiveMarks(s: State): set<string> {
    set k | k in s.marks.items && !ExpiredAt(s.marks.items[k], s.now)
  }

  /** The request is answered from the cache. */
  ghost predicate Hit(s: State, request: Request) {
    Valid(s.found, s.env.spot, request) && Live(s.cached, KeyOf(s.found, s.marks.seqNum, request), s.now)
  }

  ghost function HitEntry(s: State, request: Request): Entry
    requires Hit(s, request)
  {
    s.cached[KeyOf(s.found, s.marks.seqNum, request)].value
  }

  /** Nothing outside the key has changed since the entry's computation began. */
  ghost predicate OutsideKeyUnchanged(s: State, request: Request, e: Entry) {
    e.reader.envVersion == s.envVersion && e.reader.disk == request.disk
  }

  /** Some mark the entry was computed with has expired since. */
  ghost predicate SeenMarkExpired(s: State, e: Entry) {
    exists k :: k in e.reader.looks && e.reader.looks[k].Marked? && ExpiredAt(e.reader.looks[k].expiration, s.now)
  }

  /** Every price the entry was computed with is the current one. */
  ghost predicate QuotesCurrent(s: State, r: Reader)
    requires Complete(r)
  {
    forall i, id | i in r.infos.value && id in OfferingIds(r.zones.value) :: r.quotes[(i.id, id)] == Price(s.env, i.id, id)
  }

  /** What a hit can be wrong about: a price that moved, the disk of another request or another network plugin that changes a
      size, spot stock that ran out (on-demand stock is pinned by the key), and a mark not yet bumped. */
  ghost predicate StillRight(s: State, request: Request, e: Entry)
    requires Complete(e.reader)
  {
    && QuotesCurrent(s, e.reader)
    && SameSizes(e.listing, request.kc, ReadsOf(e.reader, e.spot), FreshReads(s, request))
    && Stocked(e.listing, s.found.onDemand, s.env.spot)
    && Unmarked(e.listing, LiveMarks(s))
  }

  /** And what it can fail to show: an offering that was marked, out of spot stock, or asked for too late. */
  ghost predicate ShowsAll(s: State, request: Request, e: Entry) {
    Stocked(Recompute(s, request), e.reader.stock.stock, e.spot) && Unmarked(Recompute(s, request), MarkedKeys(e.reader))
  }

  lemma HitComplete(now: nat, env: Env, steps: seq<Step>, s: State, request: Request)
    requires Runs(Init(now, env), steps, s) && Hit(s, request)
    ensures Complete(HitEntry(s, request).reader)
  {
    InvRuns(Init(now, env), steps, s);
    assert EntryInv(s, KeyOf(s.found, s.marks.seqNum, request), HitEntry(s, request));
  }

  /** Over any run of updates, marks and resets: a cache hit has the types, prices and capacity of a fresh
      computation, and shows as available only what that shows as available, exactly if it is still right and read its types
      and zones before a Reset cleared them, or did not and there is nothing to list. */
  lemma HitAgreesExactly(now: nat, env: Env, steps: seq<Step>, s: State, request: Request)
    requires Runs(Init(now, env), steps, s) && Hit(s, request)
    ensures var e := HitEntry(s, request);
            && Complete(e.reader)
            && (SameButAvailability(e.listing, Recompute(s, request)) <==>
                  if e.reader.lost then Recompute(s, request) == map[] else StillRight(s, request, e))
  {
    InvRuns(Init(now, env), steps, s);
    HitComplete(now, env, steps, s, request);
    if HitEntry(s, request).reader.lost {
      LostIsEmpty(s, request);
    } else {
      HitAgrees(s, request);
    }
  }

  /** And it equals the fresh computation exactly if moreover it shows all that one shows. */
  lemma HitEqualsExactly(now: nat, env: Env, steps: seq<Step>, s: State, request: Request)
    requires Runs(Init(now, env), steps, s) && Hit(s, request)
    ensures var e := HitEntry(s, request);
            && Complete(e.reader)
            && (e.listing == Recompute(s, request) <==>
                  if e.reader.lost then Recompute(s, request) == map[]
                  else StillRight(s, request, e) && ShowsAll(s, request, e))
  {
    InvRuns(Init(now, env), steps, s);
    HitComplete(now, env, steps, s, request);
    if HitEntry(s, request).reader.lost {
      LostIsEmpty(s, request);
    } else {
      HitEquals(s, request);
    }
  }

  /** In particular while no mark is between its write and its bump, if nothing outside the key has changed since the
      computation began: then exactly unless a Reset lost it its types or zones and there is something to list. */
  lemma HitAgreesWithRecompute(now: nat, env: Env, steps: seq<Step>, s: State, request: Request)
    requires Runs(Init(now, env), steps, s) && s.marks.writing == multiset{}
    requires Hit(s, request) && OutsideKeyUnchanged(s, request, HitEntry(s, request))
    ensures SameButAvailability(HitEntry(s, request).listing, Recompute(s, request))
            <==> !HitEntry(s, request).reader.lost || Recompute(s, request) == map[]
  {
    HitAgreesExactly(now, env, steps, s, request);
    if !HitEntry(s, request).reader.lost {
      UnchangedIsRight(now, env, steps, s, request);
    }
  }

  /** No stock that the listing shows was asked for too late. */
  ghost predicate NoneLate(l: Listing, q: StockReads) {
    forall i: InstanceInfo, z | (i.id, z) in q.late :: !Shows(l, i, OfferingId(z, OnDemand))
  }

  /** If moreover no flush is between its clearing and its bump and no mark the entry saw has expired, the hit equals the
      fresh computation exactly if types and zones were read before a Reset cleared them, and so was the stock of everything
      to be shown, or there is nothing to list. */
  lemma HitEqualsRecompute(now: nat, env: Env, steps: seq<Step>, s: State, request: Request)
    requires Runs(Init(now, env), steps, s)
    requires Hit(s, request) && OutsideKeyUnchanged(s, request, HitEntry(s, request))
    requires s.marks.writing == multiset{} && s.marks.flushing == 0
    requires !SeenMarkExpired(s, HitEntry(s, request))
    ensures HitEntry(s, request).listing == Recompute(s, request) <==>
              var r := HitEntry(s, request).reader;
              if r.lost then Recompute(s, request) == map[] else NoneLate(Recompute(s, request), r.stock)
  {
    HitEqualsExactly(now, env, steps, s, request);
    if !HitEntry(s, request).reader.lost {
      UnchangedIsRight(now, env, steps, s, request);
      InvRuns(Init(now, env), steps, s);
      SeenIsLive(s, request);
      LateIsNotShown(s, request);
    }
  }

  /** A computation that read its types or zones too late found nothing to list. */
  lemma LostIsEmpty(s: State, request: Request)
    requires Inv(s) && Hit(s, request) && HitEntry(s, request).reader.lost
    ensures HitEntry(s, request).listing == map[]
    ensures SameButAvailability(map[], Recompute(s, request)) <==> Recompute(s, request) == map[]
  {
    var e := HitEntry(s, request);
    assert EntryInv(s, KeyOf(s.found, s.marks.seqNum, request), e) && LostInv(e.reader);
    NothingToList(e.reader.infos.value, e.reader.zones.value, request.vSwitchZones, request.kc, ReadsOf(e.reader, e.spot));
    assert Recompute(s, request).Keys == {} <==> Recompute(s, request) == map[];
  }

  /** The counters in the key pin what was read of the discovery. */
  lemma HitInputs(s: State, request: Request)
    requires Inv(s) && Hit(s, request) && !HitEntry(s, request).reader.lost
    ensures var e := HitEntry(s, request);
            && EntryInv(s, KeyOf(s.found, s.marks.seqNum, request), e)
            && e.reader.infos.value == ToSet(s.found.infos) && e.reader.zones.value == AllZones(s.found.onDemand)
            && StockGrounded(Some(Item(s.found.onDemand, 0)), e.reader.stock) && LostInv(e.reader)
  {
    var e := HitEntry(s, request);
    assert EntryInv(s, KeyOf(s.found, s.marks.seqNum, request), e);
    assert Grounded(s.found, e.reader);
  }

  lemma HitAgrees(s: State, request: Request)
    requires Inv(s) && Hit(s, request) && !HitEntry(s, request).reader.lost && Complete(HitEntry(s, request).reader)
    ensures var e := HitEntry(s, request);
            SameButAvailability(e.listing, Recompute(s, request)) <==> StillRight(s, request, e)
  {
    var e := HitEntry(s, request);
    HitInputs(s, request);
    HitPrices(s, request);
    BuildAgreesExactly(e.reader.infos.value, e.reader.zones.value, request.vSwitchZones, request.kc,
                       ReadsOf(e.reader, e.spot), FreshReads(s, request));
  }

  lemma HitEquals(s: State, request: Request)
    requires Inv(s) && Hit(s, request) && !HitEntry(s, request).reader.lost && Complete(HitEntry(s, request).reader)
    ensures var e := HitEntry(s, request);
            e.listing == Recompute(s, request) <==> StillRight(s, request, e) && ShowsAll(s, request, e)
  {
    var e := HitEntry(s, request);
    HitInputs(s, request);
    HitPrices(s, request);
    BuildEqualsExactly(e.reader.infos.value, e.reader.zones.value, request.vSwitchZones, request.kc,
                       ReadsOf(e.reader, e.spot), FreshReads(s, request));
  }

  /** Two price tables agree on an offering exactly if its quote is current. */
  lemma HitPrices(s: State, request: Request)
    requires Inv(s) && Hit(s, request) && !HitEntry(s, request).reader.lost && Complete(HitEntry(s, request).reader)
    ensures var e := HitEntry(s, request);
            var stored, current := ReadsOf(e.reader, e.spot), FreshReads(s, request);
            QuotesCurrent(s, e.reader) <==> SamePrices(e.reader.infos.value, e.reader.zones.value, stored, current)
  {
    var r := HitEntry(s, request).reader;
    HitInputs(s, request);
    forall i, id | i in r.infos.value && id in OfferingIds(r.zones.value)
      ensures r.quotes[(i.id, id)] == Price(s.env, i.id, id) <==> SamePrice(QuotedPrices(r), CurrentPrices(s), i.id, id)
    {
      PriceIsCurrent(s, r, i, id);
    }
  }

  lemma PriceIsCurrent(s: State, r: Reader, i: InstanceInfo, id: OfferingId)
    requires i in s.found.infos && id in OfferingIds(AllZones(s.found.onDemand)) && (i.id, id) in r.quotes
    ensures SamePrice(QuotedPrices(r), CurrentPrices(s), i.id, id) <==> r.quotes[(i.id, id)] == Price(s.env, i.id, id)
  {
    assert (i.id, id) in CurrentPrices(s) <==> Price(s.env, i.id, id).Some?;
  }

  /** The history version pins what is outside the key, and a committed mark is not shown. */
  lemma UnchangedIsRight(now: nat, env: Env, steps: seq<Step>, s: State, request: Request)
    requires Runs(Init(now, env), steps, s) && s.marks.writing == multiset{}
    requires Hit(s, request) && OutsideKeyUnchanged(s, request, HitEntry(s, request)) && !HitEntry(s, request).reader.lost
    ensures var e := HitEntry(s, request); e.spot == s.env.spot && Complete(e.reader) && StillRight(s, request, e)
  {
    InvRuns(Init(now, env), steps, s);
    var key, e := KeyOf(s.found, s.marks.seqNum, request), HitEntry(s, request);
    HitInputs(s, request);
    ShownIsLaunchable(e.reader.infos.value, e.reader.zones.value, request.vSwitchZones, request.kc, ReadsOf(e.reader, e.spot));
    forall i, id | Shows(e.listing, i, id) ensures MarkKey(i.id, id) !in LiveMarks(s) {
      if MarkKey(i.id, id) in LiveMarks(s) {
        CurrentListHidesMarked(now, env, steps, s, key, i, id);
      }
    }
  }

  /** A mark the entry saw is still in place. */
  lemma SeenIsLive(s: State, request: Request)
    requires Inv(s) && Hit(s, request)
    requires s.marks.writing == multiset{} && s.marks.flushing == 0 && !SeenMarkExpired(s, HitEntry(s, request))
    ensures MarkedKeys(HitEntry(s, request).reader) <= LiveMarks(s)
  {
    var key, e := KeyOf(s.found, s.marks.seqNum, request), HitEntry(s, request);
    assert EntryInv(s, key, e);
    forall k | k in MarkedKeys(e.reader) ensures k in LiveMarks(s) {
      assert UO.LookHolds(s.marks, s.now, key.markSeq, k, e.reader.looks[k]);
    }
  }

  /** So all that a hit can fail to show is what was asked for too late. */
  lemma LateIsNotShown(s: State, request: Request)
    requires Inv(s) && Hit(s, request) && !HitEntry(s, request).reader.lost && HitEntry(s, request).spot == s.env.spot
    requires MarkedKeys(HitEntry(s, request).reader) <= LiveMarks(s)
    ensures ShowsAll(s, request, HitEntry(s, request)) <==> NoneLate(Recompute(s, request), HitEntry(s, request).reader.stock)
  {
    var r, l, current := HitEntry(s, request).reader, Recompute(s, request), FreshReads(s, request);
    HitInputs(s, request);
    ShownIsLaunchable(r.infos.value, r.zones.value, request.vSwitchZones, request.kc, current);
    ShownWasAsked(r, request, current);
    FoundIfInTime(l, r.stock, s.found.onDemand, s.env.spot);
  }

  /** Everything a computation over the reader's types and zones can show was asked for. */
  ghost predicate AllAsked(l: Listing, q: StockReads) {
    forall i, id | Shows(l, i, id) :: (i.id, id.zone) in q.asked
  }

  lemma ShownWasAsked(r: Reader, request: Request, current: Reads)
    requires Complete(r)
    ensures AllAsked(Build(r.infos.value, r.zones.value, request.vSwitchZones, request.kc, current), r.stock)
  {
  }

  /** Stock is found exactly if it was asked for in time. */
  lemma FoundIfInTime(l: Listing, q: StockReads, onDemand: Stock, spot: Stock)
    requires Stocked(l, onDemand, spot) && AllAsked(l, q) && StockGrounded(Some(Item(onDemand, 0)), q)
    requires forall t, z | HasStock(q.stock, t, z) :: (t, z) !in q.late
    ensures Stocked(l, q.stock, spot) <==> NoneLate(l, q)
  {
    forall i, id | Shows(l, i, id) && id.capacityType.OnDemand?
      ensures HasStock(q.stock, i.id, id.zone) <==> (i.id, id.zone) !in q.late
    {
      assert HasStock(onDemand, i.id, id.zone) && (i.id, id.zone) in q.asked;
    }
    if NoneLate(l, q) {
      forall i, id | Shows(l, i, id) ensures HasStock(if id.capacityType.Spot? then spot else q.stock, i.id, id.zone) {
        assert id == OfferingId(id.zone, id.capacityType);
      }
    }
  }

  // ----- without a Reset nothing is lost

  ghost predicate NoReset(steps: seq<Step>) {
    forall k | 0 <= k < |steps| :: !steps[k].ClearTypes? && !steps[k].ClearStock?
  }

  ghost predicate Intact(r: Reader) {
    !r.lost && r.stock.late == {}
  }

  ghost predicate AllIntact(s: State) {
    && (!Unlocked(s) ==> s.found.infos != [] && s.found.onDemand != map[])
    && (forall id | id in s.readers :: Intact(s.readers[id]))
    && (forall key | key in s.cached :: Intact(s.cached[key].value.reader))
  }

  lemma IntactStep(s: State, step: Step)
    requires Enabled(s, step) && AllIntact(s) && !step.ClearTypes? && !step.ClearStock?
    ensures AllIntact(Next(s, step))
  {
    var t := Next(s, step);
    forall id | id in t.readers ensures Intact(t.readers[id]) {
      assert id in s.readers ==> Intact(s.readers[id]);
    }
  }

  lemma {:induction false} IntactRuns(s: State, steps: seq<Step>, t: State)
    requires AllIntact(s) && Runs(s, steps, t) && NoReset(steps)
    ensures AllIntact(t)
    decreases |steps|
  {
    if steps != [] {
      IntactStep(s, steps[0]);
      IntactRuns(Next(s, steps[0]), steps[1..], t);
    }
  }

  /** So in every run without a Reset a hit agrees with a fresh computation exactly if it is still right, and equals it
      exactly if moreover it shows all that one shows. */
  lemma HitWithoutReset(now: nat, env: Env, steps: seq<Step>, s: State, request: Request)
    requires Runs(Init(now, env), steps, s) && NoReset(steps) && Hit(s, request)
    ensures var e := HitEntry(s, request);
            && Complete(e.reader) && e.reader.stock.late == {}
            && (SameButAvailability(e.listing, Recompute(s, request)) <==> StillRight(s, request, e))
            && (e.listing == Recompute(s, request) <==> StillRight(s, request, e) && ShowsAll(s, request, e))
  {
    IntactRuns(Init(now, env), steps, s);
    HitAgreesExactly(now, env, steps, s, request);
    HitEqualsExactly(now, env, steps, s, request);
  }

  // ----- prices are those of the last updates

  /** The price updates of a run, in order. */
  ghost function PriceUpdates(steps: seq<Step>): seq<Pricing.Event> {
    if steps == [] then []
    else
      var last := steps[|steps| - 1];
      PriceUpdates(steps[..|steps| - 1]) + if last.UpdatePrices? then [last.update] else []
  }

  lemma {:induction false} PricesAreHistory(
    staticPrices: map<string, real>, before: seq<Pricing.Event>, steps: seq<Step>, s: State, t: State)
    requires s.env.prices == Pricing.After(staticPrices, before) && Runs(s, steps, t)
    ensures t.env.prices == Pricing.After(staticPrices, before + PriceUpdates(steps))
    decreases |steps|
  {
    if steps == [] {
      assert before + [] == before;
    } else {
      var updates := PriceUpdates([steps[0]]);
      PriceStep(staticPrices, before, s, steps[0]);
      PricesAreHistory(staticPrices, before + updates, steps[1..], Next(s, steps[0]), t);
      UpdatesSplit([steps[0]], steps[1..]);
      assert [steps[0]] + steps[1..] == steps;
      assert before + updates + PriceUpdates(steps[1..]) == before + PriceUpdates(steps);
    }
  }

  lemma PriceStep(staticPrices: map<string, real>, before: seq<Pricing.Event>, s: State, step: Step)
    requires s.env.prices == Pricing.After(staticPrices, before) && Enabled(s, step)
    ensures Next(s, step).env.prices == Pricing.After(staticPrices, before + PriceUpdates([step]))
  {
    assert [step][..0] == [];
    assert PriceUpdates([step]) == if step.UpdatePrices? then [step.update] else [];
    if step.UpdatePrices? {
      assert (before + [step.update])[..|before|] == before;
    } else {
      assert before + [] == before;
    }
  }

  lemma {:induction false} UpdatesSplit(a: seq<Step>, b: seq<Step>)
    ensures PriceUpdates(a + b) == PriceUpdates(a) + PriceUpdates(b)
  {
    if b == [] {
      assert a + b == a;
    } else {
      UpdatesSplit(a, b[..|b| - 1]);
      assert (a + b)[..|a + b| - 1] == a + b[..|b| - 1];
    }
  }

  /** In every run that started with static prices, a fresh computation lists an offering at the price of the last successful
      update: for on-demand of any such update, for spot of one that lists the type in the zone; before the first, at the
      static price. */
  lemma FreshPriceIsLastUpdate(
    now: nat, env: Env, staticPrices: map<string, real>, steps: seq<Step>, s: State,
    request: Request, i: InstanceInfo, id: OfferingId)
    requires env.prices == Pricing.Initial(staticPrices) && Runs(Init(now, env), steps, s)
    requires i in Recompute(s, request) && id in Recompute(s, request)[i].offerings
    ensures var events, price := PriceUpdates(steps), Recompute(s, request)[i].offerings[id].price;
            match id.capacityType
            case OnDemand =>
              var n := Pricing.LastOnDemand(events);
              if n < 0 then i.id in staticPrices && price == staticPrices[i.id]
              else i.id in events[n].quotes.value && price == events[n].quotes.value[i.id].onDemand
            case Spot =>
              var n := Pricing.LastListing(events, i.id, id.zone);
              if !Pricing.AnySpotSuccess(events) then i.id in staticPrices && price == staticPrices[i.id]
              else n >= 0 && price == events[n].quotes.value[i.id].spot[id.zone]
  {
    var events := PriceUpdates(steps);
    PricesAreHistory(staticPrices, [], steps, Init(now, env), s);
    assert [] + events == events;
    assert Some(Recompute(s, request)[i].offerings[id].price) == Price(s.env, i.id, id);
    match id.capacityType
    case OnDemand => Pricing.OnDemandIsLastSuccess(staticPrices, events, i.id);
    case Spot => Pricing.SpotIsLastListing(staticPrices, events, i.id, id.zone);
  }

  // ----- how old a hit can be

  /** A cached item that was not there before was stored by some computation of the run. */
  lemma {:induction false} StoredBy(s: State, steps: seq<Step>, t: State, key: Key) returns (n: nat, u: State)
    requires Runs(s, steps, t) && key in t.cached && !(key in s.cached && s.cached[key] == t.cached[key])
    ensures n < |steps| && Runs(s, steps[..n], u) && Finishes(u, steps[n], key, t.cached[key])
    decreases |steps|
  {
    if steps == [] {
      assert false;
    }
    var next := Next(s, steps[0]);
    if key in next.cached && next.cached[key] == t.cached[key] {
      n, u := 0, s;
      CachedByStep(s, steps[0], key);
    } else {
      n, u := StoredBy(next, steps[1..], t, key);
      n := n + 1;
      assert steps[..n][1..] == steps[1..][..n - 1];
    }
  }

  /** In every run a hit returns what a computation for its key stored at most five minutes before. */
  lemma HitStoredRecently(now: nat, env: Env, steps: seq<Step>, s: State, request: Request) returns (n: nat, u: State)
    requires Runs(Init(now, env), steps, s) && Hit(s, request)
    ensures n < |steps| && Runs(Init(now, env), steps[..n], u)
    ensures var key := KeyOf(s.found, s.marks.seqNum, request); Finishes(u, steps[n], key, s.cached[key])
    ensures u.now <= s.now <= u.now + 300
  {
    var key := KeyOf(s.found, s.marks.seqNum, request);
    n, u := StoredBy(Init(now, env), steps, s, key);
    ClockRuns(Init(now, env), steps, s, n, u);
  }

  /** The clock does not run backwards. */
  lemma {:induction false} ClockRuns(s: State, steps: seq<Step>, t: State, n: nat, u: State)
    requires Runs(s, steps, t) && n <= |steps| && Runs(s, steps[..n], u)
    ensures s.now <= u.now <= t.now
    decreases |steps|
  {
    if n > 0 {
      assert steps[..n][1..] == steps[1..][..n - 1];
      ClockRuns(Next(s, steps[0]), steps[1..], t, n - 1, u);
    } else if steps != [] {
      ClockRuns(Next(s, steps[0]), steps[1..], t, 0, Next(s, steps[0]));
    }
  }

  // ----- why each hypothesis is there

  lemma {:induction false} RunsExtend(s: State, steps: seq<Step>, t: State, step: Step)
    requires Runs(s, steps, t) && Enabled(t, step)
    ensures Runs(s, steps + [step], Next(t, step))
    decreases |steps|
  {
    if steps == [] {
      assert [step][1..] == [];
    } else {
      RunsExtend(Next(s, steps[0]), steps[1..], t, step);
      assert (steps + [step])[1..] == steps[1..] + [step];
    }
  }

  lemma Then(init: State, steps: seq<Step>, s: State, step: Step) returns (steps': seq<Step>, t: State)
    requires Runs(init, steps, s) && Enabled(s, step)
    ensures steps' == steps + [step] && Runs(init, steps', t) && t == Next(s, step)
  {
    RunsExtend(init, steps, s, step);
    steps', t := steps + [step], Next(s, step);
  }

  ghost function OnDemandPrice(env: Env, i: InstanceInfo): Option<real> {
    Pricing.OnDemandPrice(env.prices, i.id)
  }

  /** The type has an on-demand price and no spot price in the zone. */
  ghost predicate OnlyOnDemand(env: Env, i: InstanceInfo, zone: string) {
    OnDemandPrice(env, i).Some? && Pricing.SpotPrice(env.prices, i.id, zone).None?
  }

  /** A discovered type with stock in one zone, ready to be listed. */
  ghost function Discovered(now: nat, env: Env, i: InstanceInfo, zone: string): State {
    Init(now, env).(found := FoundOne(now, i, zone))
  }

  ghost function FoundOne(now: nat, i: InstanceInfo, zone: string): Discovery {
    var stock := map[i.id := {zone}];
    Discovery([i], 1, Some(Item({i}, now + MONITOR_TTL)), stock, 1, Some(Item(stock, now + MONITOR_TTL)))
  }

  /** What a Reset leaves of a discovery. */
  ghost function Cleared(d: Discovery): Discovery {
    d.(infos := [], onDemand := map[])
  }

  lemma OneZoneStock(i: InstanceInfo, zone: string)
    ensures var stock := map[i.id := {zone}]; stock != map[] && HasStock(stock, i.id, zone) && AllZones(stock) == {zone}
    ensures ToSet([i]) == {i}
    ensures OfferingIds({zone}) == {OfferingId(zone, OnDemand), OfferingId(zone, Spot)}
  {
    var stock := map[i.id := {zone}];
    assert i.id in stock && zone in stock[i.id];
  }

  /** The key of the only request. */
  ghost function FirstKey(request: Request): Key {
    Key(1, 1, 0, request.vSwitchZones, request.kc)
  }

  /** Run up to a computation that has just taken its key. */
  lemma Begun(now: nat, env: Env, i: InstanceInfo, zone: string, request: Request)
    returns (steps: seq<Step>, s: State, r: Reader)
    requires env.spot != map[] && request.vSwitchZones != {}
    ensures r == Reader(FirstKey(request), request.disk, 0, None, None, None, false, NOTHING_ASKED, map[], map[])
    ensures Runs(Init(now, env), steps, s) && s == Discovered(now, env, i, zone).(readers := map[0 := r])
  {
    var init := Init(now, env);
    OneZoneStock(i, zone);
    steps, s := Then(init, [], init, UpdateTypes([i]));
    steps, s := Then(init, steps, s, UpdateStock(map[i.id := {zone}], None));
    assert s == Discovered(now, env, i, zone);
    steps, s := Then(init, steps, s, Check(0, request));
    r := NewReader(s, request);
    steps, s := Then(init, steps, s, Begin(0));
    assert s.checked == map[];
  }

  /** One more read of the only reader. */
  lemma ReadOne(init: State, steps: seq<Step>, s: State, r: Reader, read: Read)
    returns (steps': seq<Step>, t: State, r': Reader)
    requires Runs(init, steps, s) && s.readers == map[0 := r] && MayRead(r, read)
    ensures r' == AfterRead(s, r, read) && Runs(init, steps', t) && t == s.(readers := map[0 := r'])
  {
    steps', t := Then(init, steps, s, Reading(0, read));
    r' := AfterRead(s, r, read);
  }

  /** The zones, the network plugin and the types are read. */
  lemma ReadFound(init: State, steps: seq<Step>, s: State, r: Reader) returns (steps': seq<Step>, t: State, r': Reader)
    requires Runs(init, steps, s) && s.readers == map[0 := r] && r.zones.None? && r.cni.None? && r.infos.None?
    ensures r' == r.(zones := Some(AllZones(s.found.onDemand)), cni := Some(s.env.cni), infos := Some(ToSet(s.found.infos)),
                     lost := r.lost || s.found.onDemand == map[] || s.found.infos == [])
    ensures Runs(init, steps', t) && t == s.(readers := map[0 := r'])
  {
    steps', t, r' := ReadOne(init, steps, s, r, Zones);
    steps', t, r' := ReadOne(init, steps', t, r', NetworkPlugin);
    steps', t, r' := ReadOne(init, steps', t, r', Types);
  }

  /** What the reads of the only type and zone make of the reader; `q` is what its stock read found. */
  ghost function WithOffering(r: Reader, env: Env, i: InstanceInfo, zone: string, q: StockReads): Reader
    requires OnDemandPrice(env, i).Some?
  {
    var onDemand, spot := OfferingId(zone, OnDemand), OfferingId(zone, Spot);
    r.(stock := q, looks := map[MarkKey(i.id, onDemand) := UO.Free],
       quotes := map[(i.id, onDemand) := Some(OnDemandPrice(env, i).value), (i.id, spot) := None])
  }

  /** The stock, the two prices and the mark of the only type and zone are read. */
  lemma ReadOffering(init: State, steps: seq<Step>, s: State, r: Reader, i: InstanceInfo, zone: string)
    returns (steps': seq<Step>, t: State, r': Reader)
    requires Runs(init, steps, s) && s.readers == map[0 := r] && s.marks == UO.NO_MARKS && r.infos.Some?
    requires r.stock == NOTHING_ASKED && r.quotes == map[] && r.looks == map[]
    requires OnlyOnDemand(s.env, i, zone)
    ensures r' == WithOffering(r, s.env, i, zone, AskStock(NOTHING_ASKED, s.found.onDemand, i.id, zone))
    ensures Runs(init, steps', t) && t == s.(readers := map[0 := r'])
  {
    steps', t, r' := ReadOne(init, steps, s, r, OnDemandStock(i.id, zone));
    steps', t, r' := ReadOne(init, steps', t, r', Quote(i.id, OfferingId(zone, OnDemand)));
    steps', t, r' := ReadOne(init, steps', t, r', Quote(i.id, OfferingId(zone, Spot)));
    steps', t, r' := ReadOne(init, steps', t, r', LookUp(MarkKey(i.id, OfferingId(zone, OnDemand))));
  }

  lemma Finished(init: State, steps: seq<Step>, s: State, r: Reader) returns (steps': seq<Step>, t: State)
    requires Runs(init, steps, s) && s.readers == map[0 := r] && s.cached == map[] && Complete(r)
    ensures steps <= steps' && Runs(init, steps', t)
    ensures t == s.(readers := map[], cached := map[r.key := Item(FinishedEntry(s, r), s.now + LIST_TTL)])
  {
    steps', t := Then(init, steps, s, Finish(0));
    assert t.readers == map[];
  }

  /** A whole Reset. */
  lemma ResetRuns(init: State, steps: seq<Step>, s: State) returns (steps': seq<Step>, t: State)
    requires Runs(init, steps, s)
    ensures steps' == steps + [ClearTypes, ClearStock, ClearLists]
    ensures Runs(init, steps', t) && t == s.(found := Cleared(s.found), cached := map[])
  {
    steps', t := Then(init, steps, s, ClearTypes);
    steps', t := Then(init, steps', t, ClearStock);
    steps', t := Then(init, steps', t, ClearLists);
  }

  /** The same types and stock are discovered again, which moves no counter. */
  lemma Rediscovered(
    init: State, steps: seq<Step>, s: State, i: InstanceInfo, zone: string)
    returns (steps': seq<Step>, t: State)
    requires Runs(init, steps, s) && Unlocked(s) && s.found == Cleared(FoundOne(s.now, i, zone))
    ensures steps <= steps' && Runs(init, steps', t) && t == s.(found := FoundOne(s.now, i, zone))
  {
    OneZoneStock(i, zone);
    steps', t := Then(init, steps, s, UpdateTypes([i]));
    steps', t := Then(init, steps', t, UpdateStock(map[i.id := {zone}], None));
  }

  /** The state in which the only entry is a reader's, and everything is as discovered. */
  ghost function Stored(now: nat, env: Env, i: InstanceInfo, zone: string, r: Reader): State
    requires Ready(r)
  {
    Discovered(now, env, i, zone).(cached := map[r.key := Item(Entry(Compute(r, env.spot), r, env.spot), now + LIST_TTL)])
  }

  lemma StoredIsHit(now: nat, env: Env, i: InstanceInfo, zone: string, request: Request, r: Reader)
    requires Ready(r) && r.key == FirstKey(request) && env.spot != map[] && request.vSwitchZones != {}
    ensures var s := Stored(now, env, i, zone, r);
            Hit(s, request) && HitEntry(s, request) == Entry(Compute(r, env.spot), r, env.spot)
  {
    OneZoneStock(i, zone);
  }

  /** A fresh computation lists every type with an on-demand price and a zone with stock. */
  lemma RecomputeHasPriced(s: State, request: Request, i: InstanceInfo, zone: string)
    requires i in s.found.infos && HasStock(s.found.onDemand, i.id, zone) && OnDemandPrice(s.env, i).Some?
    ensures var id, l := OfferingId(zone, OnDemand), Recompute(s, request);
            && i in l && l[i].capacity.storageG == StorageG(request.disk)
            && id in l[i].offerings && l[i].offerings[id].price == OnDemandPrice(s.env, i).value
  {
    var id := OfferingId(zone, OnDemand);
    StockedZone(s.found.onDemand, i.id, id);
    PricedNow(s, i, id);
    ListedNow(s, request, i, id);
  }

  /** And shows it as available unless it is marked. */
  lemma RecomputeShows(s: State, request: Request, i: InstanceInfo, zone: string)
    requires i in s.found.infos && HasStock(s.found.onDemand, i.id, zone) && OnDemandPrice(s.env, i).Some?
    requires zone in request.vSwitchZones && MarkKey(i.id, OfferingId(zone, OnDemand)) !in s.marks.items
    ensures Shows(Recompute(s, request), i, OfferingId(zone, OnDemand))
  {
    var id := OfferingId(zone, OnDemand);
    assert id in OfferingIds(AllZones(s.found.onDemand)) && (i.id, id) in CurrentPrices(s) by {
      StockedZone(s.found.onDemand, i.id, id);
      PricedNow(s, i, id);
    }
    ShownNow(s, request, i, id);
  }

  lemma ShownNow(s: State, request: Request, i: InstanceInfo, id: OfferingId)
    requires i in s.found.infos && id in OfferingIds(AllZones(s.found.onDemand)) && (i.id, id) in CurrentPrices(s)
    requires Launchable(i.id, id, s.found.onDemand, s.env.spot, request.vSwitchZones, LiveMarks(s))
    ensures Shows(Recompute(s, request), i, id)
  {
    var zones := AllZones(s.found.onDemand);
    PricedIsListed(i, id, ToSet(s.found.infos), zones, request.vSwitchZones, request.kc, FreshReads(s, request));
  }

  lemma ListedNow(s: State, request: Request, i: InstanceInfo, id: OfferingId)
    requires i in s.found.infos && id in OfferingIds(AllZones(s.found.onDemand)) && (i.id, id) in CurrentPrices(s)
    ensures var l := Recompute(s, request);
            && i in l && l[i].capacity == ComputeCapacity(i, request.kc, request.disk, s.env.cni)
            && id in l[i].offerings && l[i].offerings[id].price == CurrentPrices(s)[(i.id, id)]
  {
    var zones := AllZones(s.found.onDemand);
    PricedIsListed(i, id, ToSet(s.found.infos), zones, request.vSwitchZones, request.kc, FreshReads(s, request));
  }

  lemma PricedNow(s: State, i: InstanceInfo, id: OfferingId)
    requires i in s.found.infos && id in OfferingIds(AllZones(s.found.onDemand)) && Price(s.env, i.id, id).Some?
    ensures (i.id, id) in CurrentPrices(s) && CurrentPrices(s)[(i.id, id)] == Price(s.env, i.id, id).value
  {
  }

  /** Reset takes no lock. A Reset before a computation reads its types makes it store an empty list under a key that the
      next, unchanged, discovery makes current again. */
  lemma RacingResetLosesEveryType(now: nat, env: Env, i: InstanceInfo, zone: string, request: Request)
    returns (steps: seq<Step>, s: State)
    requires OnDemandPrice(env, i).Some? && env.spot != map[] && request.vSwitchZones != {}
    ensures Runs(Init(now, env), steps, s) && Hit(s, request) && HitEntry(s, request).reader.lost
    ensures OutsideKeyUnchanged(s, request, HitEntry(s, request)) && s.marks == UO.NO_MARKS
    ensures HitEntry(s, request).listing == map[] && i in Recompute(s, request)
  {
    var init := Init(now, env);
    var r;
    steps, s, r := Begun(now, env, i, zone, request);
    steps, s := ResetRuns(init, steps, s);
    steps, s, r := ReadFound(init, steps, s, r);
    steps, s := Finished(init, steps, s, r);
    steps, s := Rediscovered(init, steps, s, i, zone);
    StoredIsHit(now, env, i, zone, request, r);
    NothingToList(r.infos.value, r.zones.value, request.vSwitchZones, request.kc, ReadsOf(r, env.spot));
    OneZoneStock(i, zone);
    RecomputeHasPriced(s, request, i, zone);
  }

  /** What the only offering's reader has found: everything, or nothing of the stock if it was asked for too late. */
  ghost function OneReader(env: Env, i: InstanceInfo, zone: string, request: Request, late: bool): Reader
    requires OnDemandPrice(env, i).Some?
  {
    var stock := map[i.id := {zone}];
    WithOffering(
      Reader(FirstKey(request), request.disk, 0, Some({zone}), Some(env.cni), Some({i}), false, NOTHING_ASKED, map[], map[]),
      env, i, zone, if late then StockReads({(i.id, zone)}, map[], {(i.id, zone)}) else StockReads({(i.id, zone)}, stock, {}))
  }

  /** Run of a computation that has read everything, the stock after a Reset if `late`. */
  lemma AllRead(now: nat, env: Env, i: InstanceInfo, zone: string, request: Request, late: bool)
    returns (steps: seq<Step>, s: State)
    requires OnlyOnDemand(env, i, zone)
    requires env.spot != map[] && request.vSwitchZones != {}
    ensures Runs(Init(now, env), steps, s)
    ensures var d, r := FoundOne(now, i, zone), OneReader(env, i, zone, request, late);
            Complete(r) && s == Init(now, env).(found := if late then Cleared(d) else d, readers := map[0 := r])
  {
    var init := Init(now, env);
    var r;
    OneZoneStock(i, zone);
    steps, s, r := Begun(now, env, i, zone, request);
    steps, s, r := ReadFound(init, steps, s, r);
    if late {
      steps, s := ResetRuns(init, steps, s);
    }
    steps, s, r := ReadOffering(init, steps, s, r, i, zone);
    AskedOnce(i, zone);
  }

  /** The run goes on to the store and, after a Reset, the next discovery. */
  lemma ListStored(now: nat, env: Env, i: InstanceInfo, zone: string, request: Request, late: bool)
    returns (steps: seq<Step>, s: State)
    requires OnlyOnDemand(env, i, zone)
    requires env.spot != map[] && request.vSwitchZones != {}
    ensures Runs(Init(now, env), steps, s) && s == Stored(now, env, i, zone, OneReader(env, i, zone, request, late))
  {
    steps, s := AllRead(now, env, i, zone, request, late);
    steps, s := Finished(Init(now, env), steps, s, OneReader(env, i, zone, request, late));
    if late {
      steps, s := Rediscovered(Init(now, env), steps, s, i, zone);
    }
  }

  lemma AskedOnce(i: InstanceInfo, zone: string)
    ensures var stock := map[i.id := {zone}];
            AskStock(NOTHING_ASKED, stock, i.id, zone) == StockReads({(i.id, zone)}, stock, {})
    ensures AskStock(NOTHING_ASKED, map[], i.id, zone) == StockReads({(i.id, zone)}, map[], {(i.id, zone)})
  {
    OneZoneStock(i, zone);
    assert {} + {zone} == {zone};
  }

  /** The stored list has the type with its price, and shows it unless its stock was asked for too late. */
  lemma OneListed(env: Env, i: InstanceInfo, zone: string, request: Request, late: bool)
    requires OnDemandPrice(env, i).Some? && zone in request.vSwitchZones
    ensures var r, id := OneReader(env, i, zone, request, late), OfferingId(zone, OnDemand);
            var l := Compute(r, env.spot);
            && i in l && l[i].capacity.storageG == StorageG(request.disk)
            && id in l[i].offerings && l[i].offerings[id].price == OnDemandPrice(env, i).value && (Shows(l, i, id) <==> !late)
  {
    var r, id := OneReader(env, i, zone, request, late), OfferingId(zone, OnDemand);
    OneZoneStock(i, zone);
    assert MarkedKeys(r) == {};
    assert (i.id, id) in QuotedPrices(r);
    PricedIsListed(i, id, {i}, {zone}, request.vSwitchZones, request.kc, ReadsOf(r, env.spot));
  }

  /** A Reset between the read of the types and the reads of the stock makes the list lose availability. */
  lemma ResetBetweenReadsLosesStock(now: nat, env: Env, i: InstanceInfo, zone: string, request: Request)
    returns (steps: seq<Step>, s: State)
    requires OnlyOnDemand(env, i, zone) && env.spot != map[] && zone in request.vSwitchZones
    ensures Runs(Init(now, env), steps, s) && Hit(s, request) && !HitEntry(s, request).reader.lost
    ensures OutsideKeyUnchanged(s, request, HitEntry(s, request)) && s.marks == UO.NO_MARKS
    ensures var id := OfferingId(zone, OnDemand);
            && i in HitEntry(s, request).listing && !Shows(HitEntry(s, request).listing, i, id)
            && Shows(Recompute(s, request), i, id)
  {
    steps, s := ListStored(now, env, i, zone, request, true);
    StoredIsHit(now, env, i, zone, request, OneReader(env, i, zone, request, true));
    OneListed(env, i, zone, request, true);
    OneZoneStock(i, zone);
    RecomputeShows(s, request, i, zone);
  }

  /** A Reset after the reads is harmless: the full list is stored, and served once the discovery is back. */
  lemma ResetAfterReadsIsHarmless(now: nat, env: Env, i: InstanceInfo, zone: string, request: Request)
    returns (before: seq<Step>, u: State, steps: seq<Step>, s: State)
    requires OnlyOnDemand(env, i, zone) && env.spot != map[] && zone in request.vSwitchZones
    ensures Runs(Init(now, env), before, u) && u.readers == map[0 := OneReader(env, i, zone, request, false)]
    ensures before + [ClearTypes, ClearStock, ClearLists] <= steps && Runs(Init(now, env), steps, s)
    ensures Hit(s, request) && Shows(HitEntry(s, request).listing, i, OfferingId(zone, OnDemand))
    ensures HitEntry(s, request).listing == Recompute(s, request)
  {
    var init, r := Init(now, env), OneReader(env, i, zone, request, false);
    before, u := AllRead(now, env, i, zone, request, false);
    steps, s := ResetRuns(init, before, u);
    steps, s := Finished(init, steps, s, r);
    steps, s := Rediscovered(init, steps, s, i, zone);
    StoredIsHit(now, env, i, zone, request, r);
    OneListed(env, i, zone, request, false);
    HitEqualsRecompute(now, env, steps, s, request);
  }

  /** Prices are outside the key: after a price update a hit still shows the old price. */
  lemma OldPriceIsServed(now: nat, env: Env, i: InstanceInfo, zone: string, request: Request, price: real)
    returns (steps: seq<Step>, s: State)
    requires OnlyOnDemand(env, i, zone) && env.spot != map[] && zone in request.vSwitchZones
    requires price != OnDemandPrice(env, i).value
    ensures Runs(Init(now, env), steps, s) && Hit(s, request)
    ensures var id, l, l' := OfferingId(zone, OnDemand), HitEntry(s, request).listing, Recompute(s, request);
            && Shows(l, i, id) && l[i].offerings[id].price == OnDemandPrice(env, i).value
            && Shows(l', i, id) && l'[i].offerings[id].price == price
  {
    steps, s := ListStored(now, env, i, zone, request, false);
    StoredIsHit(now, env, i, zone, request, OneReader(env, i, zone, request, false));
    OneListed(env, i, zone, request, false);
    OneZoneStock(i, zone);
    var update := Pricing.OnDemandUpdate(Some(map[i.id := Pricing.TypePrice(price, map[])]));
    assert i.id in update.quotes.value;
    steps, s := Then(Init(now, env), steps, s, UpdatePrices(update));
    RecomputeHasPriced(s, request, i, zone);
    RecomputeShows(s, request, i, zone);
  }

  /** Nor is the system disk in the key: a request with another disk is served the storage of the first. */
  lemma AnotherDiskIsServed(now: nat, env: Env, i: InstanceInfo, zone: string, request: Request, disk: Option<int>)
    returns (steps: seq<Step>, s: State)
    requires OnlyOnDemand(env, i, zone) && env.spot != map[] && zone in request.vSwitchZones
    requires StorageG(disk) != StorageG(request.disk)
    ensures Runs(Init(now, env), steps, s) && Hit(s, request.(disk := disk))
    ensures var asked := request.(disk := disk);
            && i in HitEntry(s, asked).listing && HitEntry(s, asked).listing[i].capacity.storageG == StorageG(request.disk)
            && i in Recompute(s, asked) && Recompute(s, asked)[i].capacity.storageG == StorageG(disk)
  {
    steps, s := ListStored(now, env, i, zone, request, false);
    OneListed(env, i, zone, request, false);
    OneZoneStock(i, zone);
    StoredIsHit(now, env, i, zone, request.(disk := disk), OneReader(env, i, zone, request, false));
    RecomputeHasPriced(s, request.(disk := disk), i, zone);
  }

  /** Between a mark's write and its bump a hit still shows the marked offering as available. */
  lemma UnbumpedMarkIsServed(now: nat, env: Env, i: InstanceInfo, zone: string, request: Request)
    returns (steps: seq<Step>, s: State)
    requires OnlyOnDemand(env, i, zone) && env.spot != map[] && zone in request.vSwitchZones
    ensures Runs(Init(now, env), steps, s) && Hit(s, request)
    ensures var id := OfferingId(zone, OnDemand);
            UO.IsLive(s.marks, MarkKey(i.id, id), s.now) && Shows(HitEntry(s, request).listing, i, id)
  {
    steps, s := ListStored(now, env, i, zone, request, false);
    StoredIsHit(now, env, i, zone, request, OneReader(env, i, zone, request, false));
    OneListed(env, i, zone, request, false);
    steps, s := Then(Init(now, env), steps, s, OnMarks(UO.Write(MarkKey(i.id, OfferingId(zone, OnDemand)), 0)));
  }
}
