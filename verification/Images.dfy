/** Images of a node class: discovery in selector-term order, the published list, and the image of each instance type. An
    image requires one architecture and nothing else, so the hash of its requirements stands for its architecture. */
module Images {
  import opened TtlCache

  const IMAGE_TTL := 60

  datatype Image = Image(name: string, id: string, architecture: string)

  datatype ImageTerm = AliasTerm(family: string) | IdTerm(id: string)

  /** The earliest image of an architecture. */
  function First(images: seq<Image>, architecture: string): Option<Image> {
    if images == [] then None
    else
      var r := First(images[..|images| - 1], architecture);
      if r.Some? then r
      else if images[|images| - 1].architecture == architecture then Some(images[|images| - 1])
      else None
  }

  /** It is what a scan from the front finds. */
  lemma {:induction false} FirstMeaning(images: seq<Image>, architecture: string)
    ensures First(images, architecture).None? <==> forall k | 0 <= k < |images| :: images[k].architecture != architecture
    ensures First(images, architecture).Some? ==>
              exists k :: 0 <= k < |images| && images[k] == First(images, architecture).value
                          && images[k].architecture == architecture
                          && forall j | 0 <= j < k :: images[j].architecture != architecture
  {
    if images != [] {
      var last := |images| - 1;
      FirstMeaning(images[..last], architecture);
      assert forall k | 0 <= k < last :: images[..last][k] == images[k];
      if First(images[..last], architecture).Some? {
        var k :| 0 <= k < last && images[..last][k] == First(images[..last], architecture).value
                 && images[..last][k].architecture == architecture
                 && forall j | 0 <= j < k :: images[..last][j].architecture != architecture;
        assert images[k] == First(images, architecture).value;
      }
    }
  }

  /** The map holds, for each architecture, the earliest image. */
  ghost predicate HoldsFirst(m: map<string, Image>, images: seq<Image>) {
    forall a :: if First(images, a).Some? then a in m && m[a] == First(images, a).value else a !in m
  }

  lemma FirstAppend(images: seq<Image>, im: Image, a: string)
    ensures First(images + [im], a) == if First(images, a).Some? then First(images, a)
                                       else if im.architecture == a then Some(im) else None
  {
    assert (images + [im])[..|images|] == images;
  }

  lemma AddOne(m: map<string, Image>, images: seq<Image>, im: Image)
    requires HoldsFirst(m, images)
    ensures HoldsFirst(if im.architecture in m then m else m[im.architecture := im], images + [im])
  {
    forall a {
      FirstAppend(images, im, a);
    }
  }

  method AddImages(m: map<string, Image>, images: seq<Image>, ghost before: seq<Image>) returns (r: map<string, Image>)
    requires HoldsFirst(m, before)
    ensures HoldsFirst(r, before + images)
  {
    r := m;
    assert before + images[..0] == before;
    for k := 0 to |images|
      invariant HoldsFirst(r, before + images[..k])
    {
      AddOne(r, before + images[..k], images[k]);
      assert before + images[..k + 1] == before + images[..k] + [images[k]];
      if images[k].architecture !in r {
        r := r[images[k].architecture := images[k]];
      }
    }
    assert images[..|images|] == images;
  }

  /** The terms as the cloud resolves them; `None` is a failed call or an unknown family. */
  ghost predicate AllResolved(terms: seq<ImageTerm>, resolve: ImageTerm -> Option<seq<Image>>) {
    forall k | 0 <= k < |terms| :: resolve(terms[k]).Some?
  }

  /** All images the terms resolve to, in term order. */
  ghost function ResolvedImages(terms: seq<ImageTerm>, resolve: ImageTerm -> Option<seq<Image>>): seq<Image>
    requires AllResolved(terms, resolve)
  {
    if terms == [] then []
    else ResolvedImages(terms[..|terms| - 1], resolve) + resolve(terms[|terms| - 1]).value
  }

  /** What an answer was computed from. */
  datatype Computation = Computation(terms: seq<ImageTerm>, resolve: ImageTerm -> Option<seq<Image>>)

  ghost predicate ComputedFrom(key: set<ImageTerm>, images: map<string, Image>, c: Computation) {
    && ToSet(c.terms) == key && AllResolved(c.terms, c.resolve)
    && HoldsFirst(images, ResolvedImages(c.terms, c.resolve))
  }

  class Provider {
    var cached: map<set<ImageTerm>, Item<map<string, Image>>>
    ghost var computed: map<set<ImageTerm>, Computation>

    /** Every cached answer holds the earliest images of the order it was computed for. */
    ghost predicate Valid()
      reads this
    {
      && computed.Keys == cached.Keys
      && forall key | key in cached :: ComputedFrom(key, cached[key].value, computed[key])
    }

    constructor ()
      ensures Valid() && cached == map[]
    {
      cached, computed := map[], map[];
    }

    /** Without a cached answer, the earliest image of each architecture in selector-term order. The cache key takes the
        terms as a set, so a cached answer follows the order it was computed for. */
    method GetImages(
      terms: seq<ImageTerm>, resolve: ImageTerm -> Option<seq<Image>>, now: nat)
      returns (r: Option<map<string, Image>>)
      requires Valid()
      modifies this
      ensures Valid()
      ensures Live(old(cached), ToSet(terms), now) ==>
                && r == Some(old(cached)[ToSet(terms)].value) && cached == old(cached) && computed == old(computed)
                && ComputedFrom(ToSet(terms), r.value, computed[ToSet(terms)])
      ensures !Live(old(cached), ToSet(terms), now) ==>
                && (r.Some? <==> AllResolved(terms, resolve))
                && (r.Some? ==> HoldsFirst(r.value, ResolvedImages(terms, resolve))
                                && cached == old(cached)[ToSet(terms) := Item(r.value, now + 60)]
                                && computed == old(computed)[ToSet(terms) := Computation(terms, resolve)])
                && (r.None? ==> cached == old(cached) && computed == old(computed))
    {
      var key := ToSet(terms);
      if key in cached && !ExpiredAt(cached[key].expiration, now) {
        return Some(cached[key].value);
      }
      var images: map<string, Image> := map[];
      for n := 0 to |terms|
        invariant AllResolved(terms[..n], resolve) && HoldsFirst(images, ResolvedImages(terms[..n], resolve))
        invariant cached == old(cached) && computed == old(computed)
      {
        var found := resolve(terms[n]);
        if found.None? {
          return None;
        }
        assert terms[..n + 1][..n] == terms[..n];
        images := AddImages(images, found.value, ResolvedImages(terms[..n], resolve));
      }
      assert terms[..|terms|] == terms;
      cached, computed := cached[key := Item(images, now + IMAGE_TTL)], computed[key := Computation(terms, resolve)];
      r := Some(images);
    }
  }

  // ----- the image of a type

  /** Some enumeration of the map's values, each once. */
  ghost predicate Enumerates(list: seq<Image>, m: map<string, Image>) {
    && (forall a | a in m :: m[a] in list)
    && (forall k | 0 <= k < |list| :: list[k].architecture in m && list[k] == m[list[k].architecture])
  }

  /** The n-th type is the last of the name that has an image. */
  ghost predicate Decides(types: seq<(string, string)>, images: seq<Image>, name: string, n: nat) {
    && n < |types| && types[n].0 == name && First(images, types[n].1).Some?
    && forall k | n < k < |types| && types[k].0 == name :: First(images, types[k].1).None?
  }

  /** The map gives the name the image of the type that decides. */
  ghost predicate Assigned(types: seq<(string, string)>, images: seq<Image>, ids: map<string, string>, name: string) {
    exists n: nat :: Decides(types, images, name, n) && name in ids && ids[name] == First(images, types[n].1).value.id
  }

  /** Exactly the names of types with an image are mapped, each to the image of the type that decides. */
  ghost predicate Mapped(types: seq<(string, string)>, images: seq<Image>, ids: map<string, string>) {
    && (forall n | 0 <= n < |types| && First(images, types[n].1).Some? :: types[n].0 in ids)
    && (forall name | name in ids :: Assigned(types, images, ids, name))
  }

  lemma OneMoreType(
    types: seq<(string, string)>, images: seq<Image>, ids: map<string, string>, t: (string, string), name: string)
    requires (name == t.0 && First(images, t.1).Some?) || Assigned(types, images, ids, name)
    ensures var next := if First(images, t.1).Some? then ids[t.0 := First(images, t.1).value.id] else ids;
            Assigned(types + [t], images, next, name)
  {
    var more := types + [t];
    if name == t.0 && First(images, t.1).Some? {
      assert Decides(more, images, name, |types|);
    } else {
      var n: nat :| Decides(types, images, name, n) && name in ids && ids[name] == First(images, types[n].1).value.id;
      assert more[n] == types[n];
      assert Decides(more, images, name, n);
    }
  }

  /** Image id of each type, by name: the first image of the published list that suits the type's architecture. Of types
      with one name the last that has an image decides. */
  method MapToInstanceTypes(types: seq<(string, string)>, images: seq<Image>) returns (ids: map<string, string>)
    ensures Mapped(types, images, ids)
  {
    ids := map[];
    for n := 0 to |types|
      invariant forall j | 0 <= j < n && First(images, types[j].1).Some? :: types[j].0 in ids
      invariant forall name | name in ids :: Assigned(types[..n], images, ids, name)
    {
      var found := FindImage(images, types[n].1);
      ghost var before := ids;
      if found.Some? {
        ids := ids[types[n].0 := found.value.id];
      }
      assert types[..n + 1] == types[..n] + [types[n]];
      forall name | name in ids ensures Assigned(types[..n + 1], images, ids, name) {
        OneMoreType(types[..n], images, before, types[n], name);
      }
    }
    assert types[..|types|] == types;
  }

  method FindImage(images: seq<Image>, architecture: string) returns (r: Option<Image>)
    ensures r == First(images, architecture)
  {
    for k := 0 to |images|
      invariant First(images[..k], architecture) == None
    {
      if images[k].architecture == architecture {
        FirstIs(images, architecture, k);
        return Some(images[k]);
      }
      FirstAppend(images[..k], images[k], architecture);
      assert images[..k + 1] == images[..k] + [images[k]];
    }
    assert images[..|images|] == images;
    r := None;
  }

  lemma FirstIs(images: seq<Image>, a: string, k: nat)
    requires k < |images| && images[k].architecture == a && First(images[..k], a) == None
    ensures First(images, a) == Some(images[k])
  {
    FirstMeaning(images, a);
    FirstMeaning(images[..k], a);
    forall j | 0 <= j < k ensures images[j].architecture != a {
      assert images[..k][j] == images[j];
    }
  }

  /** Whatever order the map of images is enumerated in, a type gets the earliest image, in selector-term order, of its own
      architecture. */
  lemma ImageIndependentOfEnumeration(
    terms: seq<ImageTerm>, resolve: ImageTerm -> Option<seq<Image>>, m: map<string, Image>, list: seq<Image>,
    architecture: string)
    requires AllResolved(terms, resolve) && HoldsFirst(m, ResolvedImages(terms, resolve)) && Enumerates(list, m)
    ensures First(list, architecture) == First(ResolvedImages(terms, resolve), architecture)
  {
    FirstMeaning(list, architecture);
    FirstMeaning(ResolvedImages(terms, resolve), architecture);
    if architecture in m {
      var k :| 0 <= k < |list| && list[k] == m[architecture];
    }
  }

  ghost predicate SameFirsts(images: seq<Image>, others: seq<Image>) {
    forall a :: First(images, a) == First(others, a)
  }

  lemma HoldsBoth(m: map<string, Image>, images: seq<Image>, others: seq<Image>)
    requires HoldsFirst(m, others)
    ensures HoldsFirst(m, images) <==> SameFirsts(images, others)
  {
    if HoldsFirst(m, images) {
      forall a ensures First(images, a) == First(others, a) {
        assert a in m <==> First(images, a).Some?;
        assert a in m <==> First(others, a).Some?;
      }
    }
  }

  /** A cached answer is right for the asked order exactly if, for every architecture, that order resolves to the same
      earliest image as the order and resolution the answer was computed from. */
  lemma HitRightExactly(m: map<string, Image>, c: Computation, terms: seq<ImageTerm>, resolve: ImageTerm -> Option<seq<Image>>)
    requires ComputedFrom(ToSet(terms), m, c) && AllResolved(terms, resolve)
    ensures HoldsFirst(m, ResolvedImages(terms, resolve)) <==>
              SameFirsts(ResolvedImages(terms, resolve), ResolvedImages(c.terms, c.resolve))
  {
    HoldsBoth(m, ResolvedImages(terms, resolve), ResolvedImages(c.terms, c.resolve));
  }

  // ----- in terms of the selector terms

  /** The k-th term is the first that has an image of the architecture. */
  ghost predicate Leads(terms: seq<ImageTerm>, resolve: ImageTerm -> Option<seq<Image>>, architecture: string, k: nat)
    requires AllResolved(terms, resolve)
  {
    && k < |terms| && First(resolve(terms[k]).value, architecture).Some?
    && forall j | 0 <= j < k :: First(resolve(terms[j]).value, architecture).None?
  }

  /** No term has an image of the architecture. */
  ghost predicate NoneLeads(terms: seq<ImageTerm>, resolve: ImageTerm -> Option<seq<Image>>, architecture: string)
    requires AllResolved(terms, resolve)
  {
    forall k | 0 <= k < |terms| :: First(resolve(terms[k]).value, architecture).None?
  }

  lemma {:induction false} FirstOfBoth(a: seq<Image>, b: seq<Image>, architecture: string)
    ensures First(a + b, architecture)
            == if First(a, architecture).Some? then First(a, architecture) else First(b, architecture)
  {
    if b == [] {
      assert a + b == a;
    } else {
      var init, last := b[..|b| - 1], b[|b| - 1];
      FirstOfBoth(a, init, architecture);
      FirstAppend(a + init, last, architecture);
      FirstAppend(init, last, architecture);
      assert a + b == (a + init) + [last] && b == init + [last];
    }
  }

  /** The earliest image of an architecture is the earliest of the first term that has one. */
  lemma {:induction false} LeaderDecides(terms: seq<ImageTerm>, resolve: ImageTerm -> Option<seq<Image>>, architecture: string)
    returns (leader: Option<nat>)
    requires AllResolved(terms, resolve)
    ensures if leader.Some? then Leads(terms, resolve, architecture, leader.value) else NoneLeads(terms, resolve, architecture)
    ensures First(ResolvedImages(terms, resolve), architecture)
            == if leader.Some? then First(resolve(terms[leader.value]).value, architecture) else None
  {
    if terms == [] {
      leader := None;
    } else {
      var last := |terms| - 1;
      assert forall k | 0 <= k < last :: terms[..last][k] == terms[k];
      leader := LeaderDecides(terms[..last], resolve, architecture);
      FirstOfBoth(ResolvedImages(terms[..last], resolve), resolve(terms[last]).value, architecture);
      if leader.None? && First(resolve(terms[last]).value, architecture).Some? {
        leader := Some(last);
      }
    }
  }

  /** The leading terms of the two orders have the same earliest image. */
  ghost predicate LeadersAgree(
    terms: seq<ImageTerm>, others: seq<ImageTerm>, resolve: ImageTerm -> Option<seq<Image>>, architecture: string)
    requires AllResolved(terms, resolve) && AllResolved(others, resolve)
  {
    forall j: nat, k: nat | Leads(terms, resolve, architecture, j) && Leads(others, resolve, architecture, k) ::
      First(resolve(terms[j]).value, architecture) == First(resolve(others[k]).value, architecture)
  }

  lemma LeadersAgreeExactly(
    terms: seq<ImageTerm>, others: seq<ImageTerm>, resolve: ImageTerm -> Option<seq<Image>>, architecture: string)
    requires AllResolved(terms, resolve) && AllResolved(others, resolve) && ToSet(terms) == ToSet(others)
    ensures First(ResolvedImages(terms, resolve), architecture) == First(ResolvedImages(others, resolve), architecture)
            <==> LeadersAgree(terms, others, resolve, architecture)
  {
    var j := LeaderDecides(terms, resolve, architecture);
    var k := LeaderDecides(others, resolve, architecture);
    SomeLeadsInBoth(terms, others, resolve, architecture);
    SomeLeadsInBoth(others, terms, resolve, architecture);
    if j.Some? && k.Some? {
      forall x: nat, y: nat | Leads(terms, resolve, architecture, x) && Leads(others, resolve, architecture, y)
        ensures x == j.value && y == k.value
      {
        OneLeads(terms, resolve, architecture, x, j.value);
        OneLeads(others, resolve, architecture, y, k.value);
      }
    }
  }

  lemma SomeLeadsInBoth(
    terms: seq<ImageTerm>, others: seq<ImageTerm>, resolve: ImageTerm -> Option<seq<Image>>, architecture: string)
    requires AllResolved(terms, resolve) && AllResolved(others, resolve) && ToSet(terms) == ToSet(others)
    ensures NoneLeads(terms, resolve, architecture) ==> NoneLeads(others, resolve, architecture)
  {
    forall k | 0 <= k < |others| ensures others[k] in terms {
      assert others[k] in ToSet(others);
    }
  }

  lemma OneLeads(terms: seq<ImageTerm>, resolve: ImageTerm -> Option<seq<Image>>, architecture: string, j: nat, k: nat)
    requires AllResolved(terms, resolve) && Leads(terms, resolve, architecture, j) && Leads(terms, resolve, architecture, k)
    ensures j == k
  {
  }

  /** As long as the terms resolve as they did, a cached answer is right for the asked order exactly if, for every
      architecture, the first terms of the two orders that have an image of it have the same earliest one. */
  lemma HitRightByTerms(m: map<string, Image>, c: Computation, terms: seq<ImageTerm>)
    requires ComputedFrom(ToSet(terms), m, c) && AllResolved(terms, c.resolve)
    ensures HoldsFirst(m, ResolvedImages(terms, c.resolve)) <==> forall a :: LeadersAgree(terms, c.terms, c.resolve, a)
  {
    HitRightExactly(m, c, terms, c.resolve);
    forall a {
      LeadersAgreeExactly(terms, c.terms, c.resolve, a);
    }
  }

  /** End to end: an answer of the provider, published in any order and mapped to types, gives a type name an image exactly if
      some type of that name has an architecture some term has an image of, and then the earliest image, of the first such
      term, for the last such type. */
  lemma TypeImage(
    key: set<ImageTerm>, m: map<string, Image>, c: Computation, list: seq<Image>,
    types: seq<(string, string)>, ids: map<string, string>, name: string)
    returns (n: nat, k: nat)
    requires ComputedFrom(key, m, c) && Enumerates(list, m) && Mapped(types, list, ids)
    ensures name in ids <==> exists j :: 0 <= j < |types| && types[j].0 == name && !NoneLeads(c.terms, c.resolve, types[j].1)
    ensures name in ids ==>
              && n < |types| && types[n].0 == name && Leads(c.terms, c.resolve, types[n].1, k)
              && ids[name] == First(c.resolve(c.terms[k]).value, types[n].1).value.id
              && forall j | n < j < |types| && types[j].0 == name :: NoneLeads(c.terms, c.resolve, types[j].1)
  {
    forall j | 0 <= j < |types|
      ensures First(list, types[j].1).None? <==> NoneLeads(c.terms, c.resolve, types[j].1)
    {
      ImageIndependentOfEnumeration(c.terms, c.resolve, m, list, types[j].1);
      var leader := LeaderDecides(c.terms, c.resolve, types[j].1);
    }
    n, k := 0, 0;
    if name in ids {
      assert Assigned(types, list, ids, name);
      n :| Decides(types, list, name, n) && ids[name] == First(list, types[n].1).value.id;
      ImageIndependentOfEnumeration(c.terms, c.resolve, m, list, types[n].1);
      var leader := LeaderDecides(c.terms, c.resolve, types[n].1);
      k := leader.value;
    }
  }

  /** The order of the terms is their priority, but two orders share one cache entry: after a reordering the old priority is
      served until the entry expires. */
  method ServeReordered(
    a: ImageTerm, b: ImageTerm, x: Image, y: Image, resolve: ImageTerm -> Option<seq<Image>>, now: nat, later: nat)
    returns (first: Option<map<string, Image>>, second: Option<map<string, Image>>)
    requires resolve(a) == Some([x]) && resolve(b) == Some([y]) && x.architecture == y.architecture && x != y
    requires now <= later <= now + IMAGE_TTL
    ensures first == second == Some(map[x.architecture := x])
    ensures AllResolved([b, a], resolve) && First(ResolvedImages([b, a], resolve), x.architecture) == Some(y)
  {
    var provider := new Provider();
    TwoOrders(a, b, x, y, resolve);
    first := provider.GetImages([a, b], resolve, now);
    assert ToSet([b, a]) == ToSet([a, b]);
    second := provider.GetImages([b, a], resolve, later);
    OnlyImage(first.value, ResolvedImages([a, b], resolve), x);
  }

  lemma OnlyImage(m: map<string, Image>, images: seq<Image>, x: Image)
    requires HoldsFirst(m, images)
    requires forall c :: First(images, c) == if c == x.architecture then Some(x) else None
    ensures m == map[x.architecture := x]
  {
    forall c ensures c in m <==> c == x.architecture {
      assert First(images, c).Some? <==> c == x.architecture;
    }
    assert m.Keys == {x.architecture};
    assert First(images, x.architecture) == Some(x);
  }

  lemma TwoOrders(a: ImageTerm, b: ImageTerm, x: Image, y: Image, resolve: ImageTerm -> Option<seq<Image>>)
    requires resolve(a) == Some([x]) && resolve(b) == Some([y]) && x.architecture == y.architecture
    ensures AllResolved([a, b], resolve) && AllResolved([b, a], resolve)
    ensures forall c :: First(ResolvedImages([a, b], resolve), c) == if c == x.architecture then Some(x) else None
    ensures First(ResolvedImages([b, a], resolve), x.architecture) == Some(y)
  {
    TwoTerms(a, b, resolve);
    TwoTerms(b, a, resolve);
    forall c ensures First([x] + [y], c) == if c == x.architecture then Some(x) else None {
      FirstOfTwo(x, y, c);
    }
    FirstOfTwo(y, x, x.architecture);
  }

  lemma FirstOfTwo(x: Image, y: Image, architecture: string)
    requires x.architecture == y.architecture
    ensures First([x] + [y], architecture) == if architecture == x.architecture then Some(x) else None
  {
    FirstAppend([], x, architecture);
    FirstAppend([x], y, architecture);
    assert [] + [x] == [x];
  }

  lemma TwoTerms(a: ImageTerm, b: ImageTerm, resolve: ImageTerm -> Option<seq<Image>>)
    requires resolve(a).Some? && resolve(b).Some?
    ensures AllResolved([a, b], resolve) && ResolvedImages([a, b], resolve) == resolve(a).value + resolve(b).value
  {
    assert [a, b][..1] == [a] && [a][..0] == [];
    assert ResolvedImages([a], resolve) == resolve(a).value;
  }
}
