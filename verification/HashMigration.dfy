/** Migration of node-class hashes to a new hash function, and static drift.

    A reconcile reads the class, and if the class carries another hash version it lists the claims of the class, patches
    each claim that carries another version, and only then writes the class. Any patch can fail and the process can
    crash between any two steps; launches, deletions, drift marks and edits of the class go on meanwhile. */
module HashMigration {
  import opened TtlCache

  const CURRENT := "v3"

  /** Hashes are injective: a hash value determines the hash function, by its version, and the hashed spec. */
  datatype Hash = Hash(version: string, spec: string)

  datatype NodeClass = NodeClass(spec: string, hash: Option<Hash>, version: Option<string>)

  /** `heldBack` and `stampedIn` are history: the migration kept an old hash because the claim was marked Drifted, and
      the reconcile that wrote the claim's hash (zero for none). */
  datatype Claim = Claim(
    hash: Option<Hash>, version: Option<string>, drifted: bool, launched: bool, heldBack: bool, stampedIn: nat)

  /** The drift check on the annotations of a claim and its class. */
  predicate StaticallyDrifted(c: Claim, k: NodeClass) {
    && k.hash.Some? && c.hash.Some? && k.version.Some? && c.version.Some?
    && k.version.value == c.version.value
    && k.hash.value != c.hash.value
  }

  predicate Stale(c: Claim) {
    c.version != Some(CURRENT)
  }

  /** What a reconcile's patch makes of a claim, given the copy it listed and the spec it read. */
  function Stamped(c: Claim, listed: Claim, spec: string, round: nat): Claim {
    if listed.drifted
    then c.(version := Some(CURRENT), heldBack := c.hash.Some? && c.hash.value.version != CURRENT)
    else c.(version := Some(CURRENT), hash := Some(Hash(CURRENT, spec)), heldBack := false, stampedIn := round)
  }

  function Written(k: NodeClass, spec: string): NodeClass {
    k.(hash := Some(Hash(CURRENT, spec)), version := Some(CURRENT))
  }

  /** A launch stamps the claim with the spec it was launched from. */
  function Launched(c: Claim, spec: string): Claim {
    c.(hash := Some(Hash(CURRENT, spec)), version := Some(CURRENT), launched := true, heldBack := false, stampedIn := 0)
  }

  const NEW_CLAIM := Claim(None, None, false, false, false, 0)

  // ----- interleaved steps

  /** `spec` is the spec read at the start; `todo` are the listed claims still to be visited. */
  datatype Progress =
    | Idle
    | ClassRead(spec: string, migrate: bool)
    | Patching(spec: string, todo: map<string, Claim>, failed: bool)

  datatype State = State(class_: NodeClass, claims: map<string, Claim>, progress: Progress, round: nat)

  datatype Step =
    | EditSpec(spec: string)
    | CreateClaim(name: string)
    | LaunchClaim(name: string, spec: string)
    | DeleteClaim(name: string)
    | SetDrifted(name: string, drifted: bool)
    | ReadClass
    | ListClaims
    | PatchClaim(name: string, ok: bool)
    | WriteClass
    | Stop     // crash, failed call, or the end of a reconcile with errors

  predicate Enabled(s: State, step: Step) {
    match step
    case CreateClaim(n) => n !in s.claims
    case LaunchClaim(n, _) => n in s.claims && !s.claims[n].launched
    case DeleteClaim(n) => n in s.claims
    case SetDrifted(n, _) => n in s.claims
    case ReadClass => s.progress.Idle?
    case ListClaims => s.progress.ClassRead? && s.progress.migrate
    case PatchClaim(n, _) => s.progress.Patching? && n in s.progress.todo
    case WriteClass =>
      || (s.progress.ClassRead? && !s.progress.migrate)
      || (s.progress.Patching? && s.progress.todo == map[] && !s.progress.failed)
    case _ => true
  }

  function Next(s: State, step: Step): State
    requires Enabled(s, step)
  {
    match step
    case EditSpec(spec) => s.(class_ := s.class_.(spec := spec))
    case CreateClaim(n) => s.(claims := s.claims[n := NEW_CLAIM])
    case LaunchClaim(n, spec) => s.(claims := s.claims[n := Launched(s.claims[n], spec)])
    case DeleteClaim(n) => s.(claims := s.claims - {n})
    case SetDrifted(n, d) => s.(claims := s.claims[n := s.claims[n].(drifted := d)])
    case ReadClass => s.(progress := ClassRead(s.class_.spec, s.class_.version != Some(CURRENT)), round := s.round + 1)
    case ListClaims => s.(progress := Patching(s.progress.spec, s.claims, false))
    case PatchClaim(n, ok) =>
      var p, listed := s.progress.(todo := s.progress.todo - {n}), s.progress.todo[n];
      if !Stale(listed) || n !in s.claims then s.(progress := p)      // nothing to do, or not found
      else if !ok then s.(progress := p.(failed := true))
      else s.(progress := p, claims := s.claims[n := Stamped(s.claims[n], listed, s.progress.spec, s.round)])
    case WriteClass => s.(class_ := Written(s.class_, s.progress.spec), progress := Idle)
    case Stop => s.(progress := Idle)
  }

  ghost predicate Runs(s: State, steps: seq<Step>, t: State)
    decreases |steps|
  {
    if steps == [] then s == t else Enabled(s, steps[0]) && Runs(Next(s, steps[0]), steps[1..], t)
  }

  // ----- what every step keeps

  /** A class's hash was computed by the function its version names. */
  ghost predicate ClassInv(k: NodeClass) {
    k.hash.Some? ==> k.version == Some(k.hash.value.version)
  }

  /** So was a claim's, unless this migration or an earlier one held the old hash back. */
  ghost predicate ClaimInv(c: Claim) {
    && (c.hash.Some? && !c.heldBack ==> c.version == Some(c.hash.value.version))
    && (c.heldBack ==>
          && c.hash.Some? && c.version.Some? && c.hash.value.version !in {c.version.value, CURRENT}
          && (c.launched || c.version.value == CURRENT))
  }

  /** Once the claims are listed, a launched claim of another version is still to be visited or has failed. */
  ghost predicate ProgressInv(s: State, n: string)
    requires n in s.claims
  {
    && (s.class_.version == Some(CURRENT) && s.claims[n].launched ==> !Stale(s.claims[n]))
    && (s.progress.ClassRead? && !s.progress.migrate && s.claims[n].launched ==> !Stale(s.claims[n]))
    && (s.progress.Patching? && s.claims[n].launched && Stale(s.claims[n]) ==>
          s.progress.failed || (n in s.progress.todo && Stale(s.progress.todo[n])))
    && s.claims[n].stampedIn <= s.round
    && (s.claims[n].stampedIn != 0 && s.claims[n].stampedIn == s.round && !s.progress.Idle? ==>
          s.claims[n].version == Some(CURRENT) && s.claims[n].hash == Some(Hash(CURRENT, s.progress.spec)))
  }

  ghost predicate Inv(s: State) {
    && ClassInv(s.class_)
    && forall n | n in s.claims :: ClaimInv(s.claims[n]) && ProgressInv(s, n)
  }

  lemma ClaimStep(s: State, step: Step, n: string)
    requires Enabled(s, step) && n in Next(s, step).claims
    requires n in s.claims ==> ClaimInv(s.claims[n])
    ensures ClaimInv(Next(s, step).claims[n])
  {
  }

  lemma ProgressStep(s: State, step: Step, n: string)
    requires Enabled(s, step) && n in Next(s, step).claims
    requires n in s.claims ==> ProgressInv(s, n)
    ensures ProgressInv(Next(s, step), n)
  {
  }

  lemma InvStep(s: State, step: Step)
    requires Inv(s) && Enabled(s, step)
    ensures Inv(Next(s, step))
  {
    var t := Next(s, step);
    forall n | n in t.claims ensures ClaimInv(t.claims[n]) && ProgressInv(t, n) {
      ClaimStep(s, step, n);
      ProgressStep(s, step, n);
    }
  }

  lemma {:induction false} InvRuns(s: State, steps: seq<Step>, t: State)
    requires Inv(s) && Runs(s, steps, t)
    ensures Inv(t)
    decreases |steps|
  {
    if steps != [] {
      InvStep(s, steps[0]);
      InvRuns(Next(s, steps[0]), steps[1..], t);
    }
  }

  /** A cluster as an earlier controller left it: a class hashed by its own version, claims that an earlier migration
      stamped or held back, nothing of ours in progress. */
  ghost predicate LeftByEarlierVersion(s: State) {
    && s.class_.version != Some(CURRENT) && ClassInv(s.class_) && s.progress.Idle?
    && forall n | n in s.claims :: ClaimInv(s.claims[n]) && s.claims[n].stampedIn == 0
  }

  /** Whatever fails or crashes and whatever else goes on: once the class carries the current version, so does every
      launched claim. */
  lemma ClassVersionLast(s: State, steps: seq<Step>, t: State, n: string)
    requires LeftByEarlierVersion(s) && Runs(s, steps, t)
    requires t.class_.version == Some(CURRENT) && n in t.claims && t.claims[n].launched
    ensures t.claims[n].version == Some(CURRENT)
  {
    InvRuns(s, steps, t);
    assert ProgressInv(t, n);
  }

  /** Equal versions mean equal hash functions, except for a claim whose old hash was held back. */
  lemma EqualVersionsCompare(s: State, steps: seq<Step>, t: State, n: string)
    requires LeftByEarlierVersion(s) && Runs(s, steps, t)
    requires n in t.claims && t.claims[n].hash.Some? && t.class_.hash.Some? && t.claims[n].version == t.class_.version
    ensures t.claims[n].hash.value.version == t.class_.hash.value.version || t.claims[n].heldBack
  {
    InvRuns(s, steps, t);
    assert ClaimInv(t.claims[n]);
  }

  /** What the drift check on annotations comes to in every state of every run: two hashes of one function that differ in
      their specs, or a held-back hash under the class's version; never a hash against that of another function. */
  lemma DriftedExactly(s: State, steps: seq<Step>, t: State, n: string)
    requires LeftByEarlierVersion(s) && Runs(s, steps, t) && n in t.claims
    ensures StaticallyDrifted(t.claims[n], t.class_) <==>
              var c, k := t.claims[n], t.class_;
              && c.hash.Some? && k.hash.Some?
              && if c.heldBack then c.version == k.version
                 else c.hash.value.version == k.hash.value.version && c.hash.value.spec != k.hash.value.spec
  {
    InvRuns(s, steps, t);
    assert ClaimInv(t.claims[n]);
  }

  /** A cluster in which every hash is that of the class's spec and nobody edits the class. */
  ghost predicate Undisturbed(s: State, spec: string) {
    && s.class_.spec == spec && (s.class_.hash.Some? ==> s.class_.hash.value.spec == spec)
    && (!s.progress.Idle? ==> s.progress.spec == spec)
    && forall n | n in s.claims && s.claims[n].hash.Some? :: s.claims[n].hash.value.spec == spec
  }

  /** The step edits no spec and launches from the class's. */
  predicate KeepsSpec(step: Step, spec: string) {
    !step.EditSpec? && (step.LaunchClaim? ==> step.spec == spec)
  }

  lemma {:induction false} UndisturbedRuns(s: State, steps: seq<Step>, t: State, spec: string)
    requires Undisturbed(s, spec) && Runs(s, steps, t) && forall k | 0 <= k < |steps| :: KeepsSpec(steps[k], spec)
    ensures Undisturbed(t, spec)
    decreases |steps|
  {
    if steps != [] {
      assert KeepsSpec(steps[0], spec);
      UndisturbedRuns(Next(s, steps[0]), steps[1..], t, spec);
    }
  }

  /** So at no point of a migration, whatever fails or crashes, is a claim of the class's own spec reported, unless it was held
      back. */
  lemma MigrationReportsNone(s: State, steps: seq<Step>, t: State, n: string)
    requires LeftByEarlierVersion(s) && Undisturbed(s, s.class_.spec) && Runs(s, steps, t)
    requires forall k | 0 <= k < |steps| :: KeepsSpec(steps[k], s.class_.spec)
    requires n in t.claims && !t.claims[n].heldBack
    ensures !StaticallyDrifted(t.claims[n], t.class_)
  {
    UndisturbedRuns(s, steps, t, s.class_.spec);
    DriftedExactly(s, steps, t, n);
  }

  ghost predicate HeldBack(s: State, n: string) {
    n in s.claims && s.claims[n].heldBack
  }

  /** In every run a claim that comes to be held back was held back by a patch whose listed copy was marked Drifted. */
  lemma {:induction false} HeldBackWasDrifted(s: State, steps: seq<Step>, t: State, n: string) returns (k: nat, u: State)
    requires Runs(s, steps, t) && HeldBack(t, n) && !HeldBack(s, n)
    ensures k < |steps| && Runs(s, steps[..k], u)
    ensures steps[k].PatchClaim? && steps[k].name == n && Enabled(u, steps[k]) && u.progress.todo[n].drifted
    decreases |steps|
  {
    if steps == [] {
      assert false;
    }
    var next := Next(s, steps[0]);
    if HeldBack(next, n) {
      k, u := 0, s;
    } else {
      k, u := HeldBackWasDrifted(next, steps[1..], t, n);
      k := k + 1;
      assert steps[..k][1..] == steps[1..][..k - 1];
    }
  }

  /** In every run a claim's hash changes only by a launch of it or by a patch of a copy that was listed with another version
      and not as Drifted. */
  lemma {:induction false} HashChangedBy(s: State, steps: seq<Step>, t: State, n: string) returns (k: nat, u: State)
    requires Runs(s, steps, t) && HasHash(t, n) && !(HasHash(s, n) && s.claims[n].hash == t.claims[n].hash)
    ensures k < |steps| && Runs(s, steps[..k], u) && Enabled(u, steps[k])
    ensures || (steps[k].LaunchClaim? && steps[k].name == n && t.claims[n].hash == Some(Hash(CURRENT, steps[k].spec)))
            || (&& steps[k].PatchClaim? && steps[k].name == n && t.claims[n].hash == Some(Hash(CURRENT, u.progress.spec))
                && u.progress.todo[n].version != Some(CURRENT) && !u.progress.todo[n].drifted)
    decreases |steps|
  {
    if steps == [] {
      assert false;
    }
    var next := Next(s, steps[0]);
    if HasHash(next, n) && next.claims[n].hash == t.claims[n].hash {
      k, u := 0, s;
    } else {
      k, u := HashChangedBy(next, steps[1..], t, n);
      k := k + 1;
      assert steps[..k][1..] == steps[1..][..k - 1];
    }
  }

  ghost predicate HasHash(s: State, n: string) {
    n in s.claims && s.claims[n].hash.Some?
  }

  /** A claim held back stays drifted: every later state in which the class carries the current version finds it
      statically drifted, until it is deleted. */
  lemma HeldBackStaysDrifted(s: State, steps: seq<Step>, t: State, n: string)
    requires LeftByEarlierVersion(s) && Runs(s, steps, t)
    requires n in t.claims && t.claims[n].heldBack && t.class_.version == Some(CURRENT) && t.class_.hash.Some?
    ensures StaticallyDrifted(t.claims[n], t.class_)
  {
    InvRuns(s, steps, t);
    assert ClaimInv(t.claims[n]) && ProgressInv(t, n);
  }

  /** When a reconcile writes the class, no claim it stamped is statically drifted. */
  lemma StampedNotDrifted(s: State, steps: seq<Step>, t: State, n: string)
    requires LeftByEarlierVersion(s) && Runs(s, steps, t) && Enabled(t, WriteClass)
    requires n in t.claims && t.claims[n].stampedIn == t.round && t.round > 0
    ensures !StaticallyDrifted(t.claims[n], Next(t, WriteClass).class_)
  {
    InvRuns(s, steps, t);
    assert ProgressInv(t, n);
  }

  /** The spec the class was last written with in a run, `spec` if it was not written. */
  ghost function LastWritten(s: State, steps: seq<Step>, t: State, spec: string): string
    requires Runs(s, steps, t)
    decreases |steps|
  {
    if steps == [] then spec
    else LastWritten(Next(s, steps[0]), steps[1..], t, if steps[0].WriteClass? then s.progress.spec else spec)
  }

  /** The claim, as long as it carries the stamp of a finished round, has the hash of that round's spec. */
  ghost predicate StampKept(s: State, n: string, round: nat, spec: string) {
    && 0 < round <= s.round && (round == s.round ==> s.progress.Idle?)
    && (n in s.claims && s.claims[n].stampedIn == round ==>
          s.claims[n].version == Some(CURRENT) && s.claims[n].hash == Some(Hash(CURRENT, spec)))
  }

  lemma {:induction false} StampRuns(s: State, steps: seq<Step>, t: State, n: string, round: nat, spec: string, written: string)
    requires Runs(s, steps, t) && StampKept(s, n, round, spec)
    requires s.class_.hash == Some(Hash(CURRENT, written)) && s.class_.version == Some(CURRENT)
    ensures StampKept(t, n, round, spec)
    ensures t.class_.hash == Some(Hash(CURRENT, LastWritten(s, steps, t, written))) && t.class_.version == Some(CURRENT)
    decreases |steps|
  {
    if steps != [] {
      var next := Next(s, steps[0]);
      assert StampKept(next, n, round, spec);
      StampRuns(next, steps[1..], t, n, round, spec, if steps[0].WriteClass? then s.progress.spec else written);
    }
  }

  /** And it stays that way: in every later state, as long as the claim keeps that stamp, it is statically drifted exactly if
      the class was last written with another spec. */
  lemma StampedStaysUndrifted(s: State, steps: seq<Step>, t: State, n: string, later: seq<Step>, v: State)
    requires LeftByEarlierVersion(s) && Runs(s, steps, t) && Enabled(t, WriteClass) && t.round > 0
    requires n in t.claims && t.claims[n].stampedIn == t.round
    requires Runs(Next(t, WriteClass), later, v) && n in v.claims && v.claims[n].stampedIn == t.round
    ensures StaticallyDrifted(v.claims[n], v.class_) <==>
              LastWritten(Next(t, WriteClass), later, v, t.progress.spec) != t.progress.spec
  {
    InvRuns(s, steps, t);
    assert ProgressInv(t, n);
    StampRuns(Next(t, WriteClass), later, v, n, t.round, t.progress.spec, t.progress.spec);
  }

  /** When a reconcile writes the class, the verdict on a claim with a current hash is right, drifted exactly if the claim's
      spec is not the class's, exactly if the class was not edited since it was read or the claim has neither of the two
      specs. So a claim that matches the class is reported drifted exactly if the class was edited meanwhile. */
  lemma VerdictRightExactly(s: State, steps: seq<Step>, t: State, n: string, spec: string)
    requires LeftByEarlierVersion(s) && Runs(s, steps, t) && Enabled(t, WriteClass)
    requires n in t.claims && t.claims[n].hash == Some(Hash(CURRENT, spec))
    ensures var written := Next(t, WriteClass).class_;
            && ((StaticallyDrifted(t.claims[n], written) <==> spec != written.spec)
                <==> t.progress.spec == t.class_.spec || spec !in {t.progress.spec, t.class_.spec})
            && (spec == t.class_.spec ==>
                  (StaticallyDrifted(t.claims[n], written) <==> t.progress.spec != t.class_.spec))
  {
    InvRuns(s, steps, t);
    assert ClaimInv(t.claims[n]);
  }

  /** A claim launched from an edited spec while a reconcile holds the old one is reported as drifted when that reconcile
      writes the class, although it matches the class's spec; the next reconcile clears it. */
  lemma EditDuringReconcileMisreports(s: State, n: string, spec: string) returns (t: State, u: State)
    requires LeftByEarlierVersion(s) && s.claims == map[n := NEW_CLAIM] && spec != s.class_.spec
    ensures Runs(s, [ReadClass, EditSpec(spec), LaunchClaim(n, spec), ListClaims, PatchClaim(n, true), WriteClass], t)
    ensures n in t.claims && t.class_.spec == spec && t.claims[n].hash == Some(Hash(CURRENT, spec))
    ensures StaticallyDrifted(t.claims[n], t.class_)
    ensures Runs(t, [ReadClass, WriteClass], u) && n in u.claims && !StaticallyDrifted(u.claims[n], u.class_)
  {
    var a := Next(Next(Next(s, ReadClass), EditSpec(spec)), LaunchClaim(n, spec));
    var b := Next(Next(a, ListClaims), PatchClaim(n, true));
    t := Next(b, WriteClass);
    u := Next(Next(t, ReadClass), WriteClass);
    assert Runs(b, [WriteClass], t);
    assert Runs(a, [ListClaims, PatchClaim(n, true), WriteClass], t);
    var steps := [ReadClass, EditSpec(spec), LaunchClaim(n, spec), ListClaims, PatchClaim(n, true), WriteClass];
    assert steps[1..][1..][1..] == [ListClaims, PatchClaim(n, true), WriteClass];
  }

  // ----- one undisturbed reconcile

  /** The claims after a migration pass in which the patches of `failing` claims fail. */
  ghost function Migrated(claims: map<string, Claim>, spec: string, round: nat, failing: set<string>): map<string, Claim> {
    map n | n in claims ::
      if Stale(claims[n]) && n !in failing then Stamped(claims[n], claims[n], spec, round) else claims[n]
  }

  /** Exactly the claims of another version whose patch does not fail get the current version, those not marked Drifted also the
      hash of the spec; no other claim changes. */
  ghost predicate PatchedExactly(before: map<string, Claim>, after: map<string, Claim>, spec: string, failing: set<string>) {
    && after.Keys == before.Keys
    && forall n | n in before ::
         if n !in failing && before[n].version != Some(CURRENT)
         then after[n].version == Some(CURRENT)
              && after[n].hash == if before[n].drifted then before[n].hash else Some(Hash(CURRENT, spec))
         else after[n] == before[n]
  }

  lemma MigratedExactly(claims: map<string, Claim>, spec: string, round: nat, failing: set<string>)
    ensures PatchedExactly(claims, Migrated(claims, spec, round, failing), spec, failing)
  {
  }

  class Controller {
    var nodeClass: NodeClass
    var claims: map<string, Claim>

    constructor (nodeClass: NodeClass, claims: map<string, Claim>)
      ensures this.nodeClass == nodeClass && this.claims == claims
    {
      this.nodeClass, this.claims := nodeClass, claims;
    }

    /** Every claim of another version is patched, whether or not the patch of another claim fails. */
    method UpdateNodeClaimHash(listed: bool, failing: set<string>, round: nat) returns (ok: bool)
      modifies this`claims
      ensures claims == if listed then Migrated(old(claims), nodeClass.spec, round, failing) else old(claims)
      ensures ok <==> listed && forall n | n in old(claims) && Stale(old(claims)[n]) :: n !in failing
      ensures PatchedExactly(old(claims), claims, nodeClass.spec, if listed then failing else old(claims).Keys)
    {
      if !listed {
        return false;
      }
      MigratedExactly(claims, nodeClass.spec, round, failing);
      ok := PatchClaims(failing, round);
    }

    method PatchClaims(failing: set<string>, round: nat) returns (ok: bool)
      modifies this`claims
      ensures claims == Migrated(old(claims), nodeClass.spec, round, failing)
      ensures ok <==> forall n | n in old(claims) && Stale(old(claims)[n]) :: n !in failing
    {
      ok := true;
      var items, todo := claims, claims.Keys;
      while todo != {}
        invariant todo <= items.Keys && claims.Keys == items.Keys
        invariant forall n | n in items ::
                    claims[n] == if n in todo then items[n] else Migrated(items, nodeClass.spec, round, failing)[n]
        invariant ok <==> forall n | n in items && n !in todo && Stale(items[n]) :: n !in failing
        decreases todo
      {
        var n :| n in todo;
        if Stale(items[n]) {
          if n in failing {
            ok := false;
          } else {
            var c := items[n].(version := Some(CURRENT));
            if !items[n].drifted {
              c := c.(hash := Some(Hash(CURRENT, nodeClass.spec)), heldBack := false, stampedIn := round);
            } else {
              c := c.(heldBack := c.hash.Some? && c.hash.value.version != CURRENT);
            }
            claims := claims[n := c];
          }
        }
        todo := todo - {n};
      }
    }

    /** The class is written only after every claim carries the current version; then a claim that this reconcile had to
        stamp, and that was not marked Drifted, is not statically drifted. */
    method Reconcile(listed: bool, failing: set<string>, classPatch: bool, round: nat) returns (ok: bool)
      modifies this
      ensures ok ==> nodeClass == Written(old(nodeClass), old(nodeClass).spec)
      ensures ok ==> nodeClass.version == Some(CURRENT) && nodeClass.hash == Some(Hash(CURRENT, nodeClass.spec))
      ensures nodeClass.spec == old(nodeClass).spec
      ensures !ok ==> nodeClass == old(nodeClass)
      ensures claims.Keys == old(claims).Keys
      ensures forall n | n in claims && old(claims)[n].version == Some(CURRENT) :: claims[n] == old(claims)[n]
      ensures ok && old(nodeClass).version != Some(CURRENT) ==> forall n | n in claims ::
                && claims[n].version == Some(CURRENT)
                && (Stale(old(claims)[n]) && !claims[n].drifted ==> !StaticallyDrifted(claims[n], nodeClass))
      ensures old(nodeClass).version == Some(CURRENT) ==> claims == old(claims)
    {
      if nodeClass.version != Some(CURRENT) {
        var migrated := UpdateNodeClaimHash(listed, failing, round);
        if !migrated {
          return false;
        }
      }
      var written := nodeClass.(hash := Some(Hash(CURRENT, nodeClass.spec)), version := Some(CURRENT));
      if written != nodeClass {
        if !classPatch {
          return false;
        }
        nodeClass := written;
      }
      ok := true;
    }
  }

  // ----- drift

  datatype DriftReason = NoDrift | NodeClassDrift | SecurityGroupDrift | VSwitchDrift

  datatype Drift = Drift(reason: DriftReason) | DriftError

  /** What the drift check reads of the class status and of the running instance. */
  datatype Placement = Placement(securityGroups: set<string>, vSwitches: seq<string>)

  datatype RunningInstance = RunningInstance(securityGroups: set<string>, vSwitch: string)

  function SecurityGroupCheck(i: RunningInstance, p: Placement): Drift {
    if p.securityGroups == {} then DriftError
    else if p.securityGroups != i.securityGroups then Drift(SecurityGroupDrift)
    else Drift(NoDrift)
  }

  function VSwitchCheck(i: RunningInstance, p: Placement): Drift {
    if p.vSwitches == [] then DriftError
    else if i.vSwitch !in p.vSwitches then Drift(VSwitchDrift)
    else Drift(NoDrift)
  }

  /** Static drift is decided first and needs no instance; after that the first failing check counts. */
  function IsNodeClassDrifted(c: Claim, k: NodeClass, p: Placement, instance: Option<RunningInstance>): Drift {
    if StaticallyDrifted(c, k) then Drift(NodeClassDrift)
    else if instance.None? then DriftError
    else
      var groups, vSwitch := SecurityGroupCheck(instance.value, p), VSwitchCheck(instance.value, p);
      if groups.DriftError? || vSwitch.DriftError? then DriftError
      else if groups.reason != NoDrift then groups
      else vSwitch
  }

  /** Each verdict of the drift check, and the error, is reached under exactly one condition. */
  lemma DriftVerdicts(c: Claim, k: NodeClass, p: Placement, instance: Option<RunningInstance>)
    ensures var verdict := IsNodeClassDrifted(c, k, p, instance);
            var known := instance.Some? && p.securityGroups != {} && p.vSwitches != [];
            && (verdict == Drift(NodeClassDrift) <==> StaticallyDrifted(c, k))
            && (verdict == DriftError <==> !StaticallyDrifted(c, k) && !known)
            && (verdict == Drift(SecurityGroupDrift) <==>
                  !StaticallyDrifted(c, k) && known && instance.value.securityGroups != p.securityGroups)
            && (verdict == Drift(VSwitchDrift) <==>
                  && !StaticallyDrifted(c, k) && known && instance.value.securityGroups == p.securityGroups
                  && instance.value.vSwitch !in p.vSwitches)
  {
  }

  /** After a completed migration a claim that was stamped and not held back is reported as drifted only because of where
      its instance runs. */
  lemma MigrationAddsNoDrift(s: State, steps: seq<Step>, t: State, n: string, p: Placement, instance: Option<RunningInstance>)
    requires LeftByEarlierVersion(s) && Runs(s, steps, t) && Enabled(t, WriteClass)
    requires n in t.claims && t.claims[n].stampedIn == t.round && t.round > 0
    ensures var verdict := IsNodeClassDrifted(t.claims[n], Next(t, WriteClass).class_, p, instance);
            var known := instance.Some? && p.securityGroups != {} && p.vSwitches != [];
            && verdict != Drift(NodeClassDrift)
            && (verdict == DriftError <==> !known)
            && (verdict == Drift(SecurityGroupDrift) <==> known && instance.value.securityGroups != p.securityGroups)
            && (verdict == Drift(VSwitchDrift) <==>
                  known && instance.value.securityGroups == p.securityGroups && instance.value.vSwitch !in p.vSwitches)
  {
    StampedNotDrifted(s, steps, t, n);
    DriftVerdicts(t.claims[n], Next(t, WriteClass).class_, p, instance);
  }
}
