/** The vSwitch list published in the node class status: most free addresses first, then by id. */
module StatusList {
  import opened VSwitch

  /** Byte order of identifiers. */
  predicate StringLess(a: string, b: string) {
    b != [] && (a == [] || a[0] < b[0] || (a[0] == b[0] && StringLess(a[1..], b[1..])))
  }

  lemma {:induction false} StringLessTotal(a: string, b: string)
    ensures a == b || StringLess(a, b) || StringLess(b, a)
    ensures !(StringLess(a, b) && StringLess(b, a)) && (a == b ==> !StringLess(a, b))
  {
    if a != [] && b != [] && a[0] == b[0] {
      StringLessTotal(a[1..], b[1..]);
      assert a == [a[0]] + a[1..] && b == [b[0]] + b[1..];
    }
  }

  lemma {:induction false} StringLessTrans(a: string, b: string, c: string)
    requires StringLess(a, b) && StringLess(b, c)
    ensures StringLess(a, c)
  {
    if a != [] && a[0] == b[0] && b[0] == c[0] {
      StringLessTrans(a[1..], b[1..], c[1..]);
    }
  }

  predicate Before(a: VSwitchInfo, b: VSwitchInfo) {
    if a.available != b.available then a.available > b.available else StringLess(a.id, b.id)
  }

  lemma BeforeTrans(a: VSwitchInfo, b: VSwitchInfo, c: VSwitchInfo)
    requires Before(a, b) && Before(b, c)
    ensures Before(a, c)
  {
    if a.available == b.available == c.available {
      StringLessTrans(a.id, b.id, c.id);
    }
  }

  /** Of two vSwitches with different ids exactly one comes first. */
  lemma BeforeTotal(a: VSwitchInfo, b: VSwitchInfo)
    ensures a.id != b.id ==> Before(a, b) || Before(b, a)
    ensures !(Before(a, b) && Before(b, a))
  {
    StringLessTotal(a.id, b.id);
  }

  /** The two agree up to some position, at which the first ends or has the smaller character. */
  ghost predicate Lexicographic(a: string, b: string) {
    exists k :: 0 <= k <= |a| && k < |b| && a[..k] == b[..k] && (k == |a| || a[k] < b[k])
  }

  lemma {:induction false} StringLessMeaning(a: string, b: string)
    requires StringLess(a, b)
    ensures Lexicographic(a, b)
  {
    if a == [] || a[0] < b[0] {
      assert a[..0] == b[..0];
    } else {
      StringLessMeaning(a[1..], b[1..]);
      var k :| 0 <= k <= |a[1..]| && k < |b[1..]| && a[1..][..k] == b[1..][..k] && (k == |a[1..]| || a[1..][k] < b[1..][k]);
      assert a[..k + 1] == [a[0]] + a[1..][..k] && b[..k + 1] == [b[0]] + b[1..][..k];
    }
  }

  /** Whoever comes earlier has more free addresses, or as many and the smaller id. */
  ghost predicate MostFreeFirst(s: seq<VSwitchInfo>) {
    forall i, j | 0 <= i < j < |s| ::
      s[i].available > s[j].available || (s[i].available == s[j].available && Lexicographic(s[i].id, s[j].id))
  }

  lemma SortedMeaning(s: seq<VSwitchInfo>)
    requires Sorted(s)
    ensures MostFreeFirst(s)
  {
    forall i, j | 0 <= i < j < |s|
      ensures s[i].available > s[j].available || (s[i].available == s[j].available && Lexicographic(s[i].id, s[j].id))
    {
      assert Before(s[i], s[j]);
      if s[i].available == s[j].available {
        StringLessMeaning(s[i].id, s[j].id);
      }
    }
  }

  ghost predicate Sorted(s: seq<VSwitchInfo>) {
    forall i, j | 0 <= i < j < |s| :: Before(s[i], s[j])
  }

  ghost function Elements(s: seq<VSwitchInfo>): set<VSwitchInfo> {
    set v | v in s
  }

  ghost predicate DistinctIds(s: seq<VSwitchInfo>) {
    forall i, j | 0 <= i < j < |s| :: s[i].id != s[j].id
  }

  lemma NoElements(s: seq<VSwitchInfo>)
    ensures s == [] || Elements(s) != {}
  {
    if s != [] {
      assert s[0] in Elements(s);
    }
  }

  /** A set of vSwitches has one sorted list. */
  lemma {:induction false} SortedUnique(s: seq<VSwitchInfo>, t: seq<VSwitchInfo>)
    requires Sorted(s) && Sorted(t) && Elements(s) == Elements(t)
    ensures s == t
    decreases |s|
  {
    if s == [] {
      NoElements(t);
    } else {
      assert s[0] in Elements(s);
      assert t != [] by {
        assert s[0] in t;
      }
      SameFirst(s, t);
      TailElements(s);
      TailElements(t);
      SortedUnique(s[1..], t[1..]);
      assert s == [s[0]] + s[1..] && t == [t[0]] + t[1..];
    }
  }

  lemma SameFirst(s: seq<VSwitchInfo>, t: seq<VSwitchInfo>)
    requires Sorted(s) && Sorted(t) && Elements(s) == Elements(t) && s != [] && t != []
    ensures s[0] == t[0]
  {
    assert s[0] in Elements(t) && t[0] in Elements(s);
    var i :| 0 <= i < |t| && t[i] == s[0];
    var j :| 0 <= j < |s| && s[j] == t[0];
    BeforeTotal(s[0], t[0]);
  }

  lemma TailElements(s: seq<VSwitchInfo>)
    requires Sorted(s) && s != []
    ensures Elements(s[1..]) == Elements(s) - {s[0]}
  {
    forall k | 1 <= k < |s| ensures s[k] != s[0] {
      BeforeTotal(s[0], s[k]);
    }
    assert s == [s[0]] + s[1..];
  }

  /** Sorts the list and publishes id and zone of each entry; an empty discovery publishes nothing. */
  method Publish(found: seq<VSwitchInfo>) returns (sorted: seq<VSwitchInfo>, status: seq<VSwitchRef>)
    requires DistinctIds(found)
    ensures Sorted(sorted) && MostFreeFirst(sorted) && Elements(sorted) == Elements(found)
    ensures |status| == |sorted| && forall k | 0 <= k < |status| :: status[k] == VSwitchRef(sorted[k].id, sorted[k].zone)
  {
    sorted := [];
    for n := 0 to |found|
      invariant Sorted(sorted) && Elements(sorted) == Elements(found[..n])
    {
      forall k | 0 <= k < |sorted| ensures sorted[k].id != found[n].id {
        assert sorted[k] in Elements(found[..n]);
      }
      assert Elements(found[..n + 1]) == Elements(found[..n]) + {found[n]} by {
        assert found[..n + 1] == found[..n] + [found[n]];
      }
      sorted := Insert(sorted, found[n]);
    }
    assert found[..|found|] == found;
    SortedMeaning(sorted);
    status := seq(|sorted|, k requires 0 <= k < |sorted| => VSwitchRef(sorted[k].id, sorted[k].zone));
  }

  method Insert(s: seq<VSwitchInfo>, v: VSwitchInfo) returns (r: seq<VSwitchInfo>)
    requires Sorted(s) && forall k | 0 <= k < |s| :: s[k].id != v.id
    ensures Sorted(r) && Elements(r) == Elements(s) + {v}
  {
    var k := 0;
    while k < |s| && Before(s[k], v)
      invariant k <= |s| && forall j | 0 <= j < k :: Before(s[j], v)
    {
      k := k + 1;
    }
    r := s[..k] + [v] + s[k..];
    forall j | k <= j < |s| ensures Before(v, s[j]) {
      BeforeTotal(s[k], v);
      if j > k {
        BeforeTrans(v, s[k], s[j]);
      }
    }
    assert s == s[..k] + s[k..];
    assert r[k] == v;
  }

  /** The list holds each vSwitch of the map once. */
  ghost predicate Enumerates(list: seq<VSwitchInfo>, found: map<string, VSwitchInfo>) {
    && DistinctIds(list)
    && (forall v | v in list :: v.id in found && found[v.id] == v)
    && (forall id | id in found :: found[id] in list)
  }

  /** The published list is a function of what was discovered: whatever order the discovered vSwitches are enumerated in,
      sorting them publishes the same list. */
  lemma StatusIndependentOfEnumeration(
    found: map<string, VSwitchInfo>, a: seq<VSwitchInfo>, b: seq<VSwitchInfo>,
    sortedA: seq<VSwitchInfo>, sortedB: seq<VSwitchInfo>)
    requires Enumerates(a, found) && Enumerates(b, found)
    requires Sorted(sortedA) && Elements(sortedA) == Elements(a)
    requires Sorted(sortedB) && Elements(sortedB) == Elements(b)
    ensures sortedA == sortedB
  {
    forall v ensures v in a <==> v in b {
      assert v in a ==> found[v.id] == v;
      assert v in b ==> found[v.id] == v;
    }
    assert Elements(a) == Elements(b);
    SortedUnique(sortedA, sortedB);
  }
}
