/**
 Refreshing again: the patches of a filter come out in the order in which Go visits its maps, so a second generation
 from the same limits can differ from the first, and is then written again. When this can happen, and when not.
 */
module Regeneration {
  import opened Seqs
  import opened Grouping
  import opened Limiter
  import opened Descriptors
  import opened LocalLimit
  import opened EnvoyFilters
  import opened Meaning
  import opened Preservation
  import FS = FilterStore

  ghost predicate AtMostOne(keys: set<string>) {
    forall k, l :: k in keys && l in keys ==> k == l
  }

  /** The limits lie on one route key, and so do the local ones among them. */
  ghost predicate OneKeyEach(descriptors: seq<Descriptor>) {
    AtMostOne(Keys(AllPlaces(Routed(descriptors)))) && AtMostOne(Keys(AllPlaces(Filter(IsLocal, descriptors))))
  }

  /** All compilations of the limits are the same. */
  ghost predicate CompilesOneWay(naming: Naming, descriptors: seq<Descriptor>, rls: string) {
    forall p, q :: IsCompiled(naming, descriptors, rls, p) && IsCompiled(naming, descriptors, rls, q) ==> p == q
  }

  // ----- One order -----

  lemma OnlyOrder(keys: set<string>, order: seq<string>, order': seq<string>)
    requires AtMostOne(keys) && IsOrderOf(order, keys) && IsOrderOf(order', keys)
    ensures order == order'
  {
    OrderSize(order, keys);
    OrderSize(order', keys);
    if keys != {} {
      var key :| key in keys;
      assert keys == {key};
      InOrder(order, keys, 0);
      InOrder(order', keys, 0);
    }
  }

  lemma SameActionPatches(naming: Naming, places: seq<Placed>, order: seq<string>, a: seq<Patch>, b: seq<Patch>)
    requires ActionPatches(naming, places, order, a) && ActionPatches(naming, places, order, b)
    ensures a == b
  {
    forall i | 0 <= i < |order|
      ensures a[i] == b[i]
    {
      assert IsActionPatch(naming, places, order[i], a[i]) && IsActionPatch(naming, places, order[i], b[i]);
    }
  }

  lemma SameBucketPatches(naming: Naming, places: seq<Placed>, order: seq<string>, a: seq<Patch>, b: seq<Patch>)
    requires BucketPatches(naming, places, order, a) && BucketPatches(naming, places, order, b)
    ensures a == b
  {
    hide LocalDescriptorOf, Group;
    forall i | 0 <= i < |order|
      ensures a[i] == b[i]
    {
      assert IsBucketPatch(naming, places, order[i], a[i]) && IsBucketPatch(naming, places, order[i], b[i]);
      assert a[i].limits == b[i].limits;
    }
  }

  lemma OneKeyOneWay(naming: Naming, descriptors: seq<Descriptor>, rls: string, p: seq<Patch>, q: seq<Patch>)
    requires OneKeyEach(descriptors)
    requires IsCompiled(naming, descriptors, rls, p) && IsCompiled(naming, descriptors, rls, q)
    ensures p == q
  {
    hide Keys, AllPlaces, ActionPatches, BucketPatches, AtMostOne, IsOrderOf;
    var a: seq<Patch>, aOrder: seq<string>, b: seq<Patch>, bOrder: seq<string> :|
      IsCompiledFrom(naming, descriptors, rls, p, a, aOrder, b, bOrder);
    var a': seq<Patch>, aOrder': seq<string>, b': seq<Patch>, bOrder': seq<string> :|
      IsCompiledFrom(naming, descriptors, rls, q, a', aOrder', b', bOrder');
    var routed, local := AllPlaces(Routed(descriptors)), AllPlaces(Filter(IsLocal, descriptors));
    OnlyOrder(Keys(routed), aOrder, aOrder');
    OnlyOrder(Keys(local), bOrder, bOrder');
    SameActionPatches(naming, routed, aOrder, a, a');
    SameBucketPatches(naming, local, bOrder, b, b');
  }

  // ----- Two orders -----

  /** Every finite set of keys has an order, and one that starts with any key of it. */
  lemma {:induction false} OrderExists(keys: set<string>) returns (order: seq<string>)
    ensures IsOrderOf(order, keys)
    decreases |keys|
  {
    if keys == {} {
      order := [];
    } else {
      var key :| key in keys;
      order := OrderFrom(keys, key);
    }
  }

  lemma {:induction false} OrderFrom(keys: set<string>, key: string) returns (order: seq<string>)
    requires key in keys
    ensures IsOrderOf(order, keys) && order != [] && order[0] == key
    decreases |keys|, 0
  {
    var rest := OrderExists(keys - {key});
    order := [key] + rest;
    assert forall i :: 0 <= i < |rest| ==> rest[i] in rest;
    forall k
      ensures k in order <==> k in keys
    {
      assert k in order <==> k == key || k in rest;
    }
  }

  ghost function ActionPatchFor(naming: Naming, places: seq<Placed>): string -> Patch {
    (key: string) =>
      if Group(places, key) == [] then LocalFilter
      else RouteActions(RouteMatchOf(Group(places, key)[0].rc),
        Map((p: Placed) => RouteActionOf(naming, p.d), Group(places, key)))
  }

  ghost function BucketPatchFor(naming: Naming, places: seq<Placed>): string -> Patch {
    (key: string) =>
      if Group(places, key) == [] then LocalFilter
      else RouteBuckets(RouteMatchOf(Group(places, key)[0].rc), Map(LimitOn(naming), Group(places, key)))
  }

  /** Any order of the keys is the order of some route actions. */
  lemma ActionsInOrder(naming: Naming, places: seq<Placed>, order: seq<string>)
    requires IsOrderOf(order, Keys(places))
    ensures AreActionPatches(naming, places, order, Map(ActionPatchFor(naming, places), order))
  {
    hide KeySet, GroupOf, IsOrderOf;
    var patches := Map(ActionPatchFor(naming, places), order);
    forall i | 0 <= i < |order|
      ensures IsActionPatch(naming, places, order[i], patches[i])
    {
      InOrder(order, Keys(places), i);
      GroupNotEmpty(PlaceKey, places, order[i]);
    }
  }

  lemma InOrder(order: seq<string>, keys: set<string>, i: nat)
    requires IsOrderOf(order, keys) && i < |order|
    ensures order[i] in keys
  {
    assert order[i] in order;
  }

  lemma BucketsInOrder(naming: Naming, descriptors: seq<Descriptor>, order: seq<string>)
    requires var places := AllPlaces(Filter(IsLocal, descriptors)); IsOrderOf(order, Keys(places))
    ensures var places := AllPlaces(Filter(IsLocal, descriptors));
      AreBucketPatches(naming, places, order, Map(BucketPatchFor(naming, places), order))
  {
    hide KeySet, GroupOf, IsOrderOf, LocalDescriptorOf, AllPlaces, Filter, IsLocal;
    var places := AllPlaces(Filter(IsLocal, descriptors));
    var patches := Map(BucketPatchFor(naming, places), order);
    forall i | 0 <= i < |order|
      ensures IsBucketPatch(naming, places, order[i], patches[i])
    {
      InOrder(order, Keys(places), i);
      GroupNotEmpty(PlaceKey, places, order[i]);
      GroupHasActions(descriptors, order[i]);
    }
  }

  lemma GroupHasActions(descriptors: seq<Descriptor>, key: string)
    ensures var group := Group(AllPlaces(Filter(IsLocal, descriptors)), key);
      forall i :: 0 <= i < |group| ==> group[i].d.action.Some?
  {
    var places := AllPlaces(Filter(IsLocal, descriptors));
    var group := Group(places, key);
    InGroup(PlaceKey, places, key);
    LocalPlaces(descriptors);
    assert forall i :: 0 <= i < |group| ==> group[i] in group;
  }

  /** Patches of different keys are addressed to different routes. */
  lemma FirstMatch(places: seq<Placed>, key: string, other: string)
    requires key in Keys(places) && other in Keys(places) && key != other
    ensures Group(places, key) != [] && Group(places, other) != []
    ensures RouteMatchOf(Group(places, key)[0].rc) != RouteMatchOf(Group(places, other)[0].rc)
  {
    GroupNotEmpty(PlaceKey, places, key);
    GroupNotEmpty(PlaceKey, places, other);
    InGroup(PlaceKey, places, key);
    InGroup(PlaceKey, places, other);
    assert Group(places, key)[0] in Group(places, key) && Group(places, other)[0] in Group(places, other);
  }

  lemma TwoPatches(naming: Naming, places: seq<Placed>, key: string, other: string)
    requires key in Keys(places) && other in Keys(places) && key != other
    ensures ActionPatchFor(naming, places)(key) != ActionPatchFor(naming, places)(other)
    ensures BucketPatchFor(naming, places)(key) != BucketPatchFor(naming, places)(other)
  {
    hide Keys, Group, LocalDescriptorOf, RouteActionOf, RouteMatchOf;
    FirstMatch(places, key, other);
  }

  lemma CompiledInOrder(naming: Naming, descriptors: seq<Descriptor>, rls: string, aOrder: seq<string>,
      bOrder: seq<string>)
    returns (patches: seq<Patch>)
    requires IsOrderOf(aOrder, Keys(AllPlaces(Routed(descriptors))))
    requires IsOrderOf(bOrder, Keys(AllPlaces(Filter(IsLocal, descriptors))))
    ensures IsCompiled(naming, descriptors, rls, patches) && |patches| >= |aOrder| + |bOrder|
    ensures patches[..|aOrder|] == Map(ActionPatchFor(naming, AllPlaces(Routed(descriptors))), aOrder)
    ensures patches[|patches| - |bOrder|..] ==
      Map(BucketPatchFor(naming, AllPlaces(Filter(IsLocal, descriptors))), bOrder)
  {
    hide ActionPatchFor, BucketPatchFor, IsCompiled, IsOrderOf, AllPlaces, Keys, AreActionPatches, AreBucketPatches,
      Filter, RateLimiterServerCluster, Routed;
    var routed, local := AllPlaces(Routed(descriptors)), AllPlaces(Filter(IsLocal, descriptors));
    var a, b := Map(ActionPatchFor(naming, routed), aOrder), Map(BucketPatchFor(naming, local), bOrder);
    ActionsInOrder(naming, routed, aOrder);
    BucketsInOrder(naming, descriptors, bOrder);
    CompiledParts(naming, descriptors, rls, a, aOrder, b, bOrder);
    var g := if Filter(IsGlobal, descriptors) == [] then [] else [GlobalFilter(RateLimiterServerCluster(rls))];
    var l := if Filter(IsLocal, descriptors) == [] then [] else [LocalFilter];
    patches := a + g + l + b;
    OuterParts(a, g, l, b);
  }

  lemma OuterParts<T>(a: seq<T>, g: seq<T>, l: seq<T>, b: seq<T>)
    ensures var all := a + g + l + b;
      |all| >= |a| + |b| && all[..|a|] == a && all[|all| - |b|..] == b
  {
  }

  lemma TwoActionOrders(naming: Naming, descriptors: seq<Descriptor>, rls: string)
    requires !AtMostOne(Keys(AllPlaces(Routed(descriptors))))
    ensures !CompilesOneWay(naming, descriptors, rls)
  {
    hide AllPlaces, Keys, IsCompiled, IsOrderOf, ActionPatchFor, BucketPatchFor;
    var routed := AllPlaces(Routed(descriptors));
    var k, l :| k in Keys(routed) && l in Keys(routed) && k != l;
    var kOrder := OrderFrom(Keys(routed), k);
    var lOrder := OrderFrom(Keys(routed), l);
    var bOrder := OrderExists(Keys(AllPlaces(Filter(IsLocal, descriptors))));
    var p := CompiledInOrder(naming, descriptors, rls, kOrder, bOrder);
    var q := CompiledInOrder(naming, descriptors, rls, lOrder, bOrder);
    TwoPatches(naming, routed, k, l);
    assert p[0] == p[..|kOrder|][0] && q[0] == q[..|lOrder|][0];
    assert p[0] != q[0];
  }

  lemma TwoBucketOrders(naming: Naming, descriptors: seq<Descriptor>, rls: string)
    requires !AtMostOne(Keys(AllPlaces(Filter(IsLocal, descriptors))))
    ensures !CompilesOneWay(naming, descriptors, rls)
  {
    hide AllPlaces, Keys, IsCompiled, IsOrderOf, ActionPatchFor, BucketPatchFor;
    var local := AllPlaces(Filter(IsLocal, descriptors));
    var k, l :| k in Keys(local) && l in Keys(local) && k != l;
    var kOrder := OrderFrom(Keys(local), k);
    var lOrder := OrderFrom(Keys(local), l);
    var aOrder := OrderExists(Keys(AllPlaces(Routed(descriptors))));
    SameSize(kOrder, lOrder, Keys(local));
    var p := CompiledInOrder(naming, descriptors, rls, aOrder, kOrder);
    var q := CompiledInOrder(naming, descriptors, rls, aOrder, lOrder);
    TwoPatches(naming, local, k, l);
    assert p[|p| - |kOrder|..][0] != q[|q| - |lOrder|..][0];
  }

  /** All orders of a set are as long as the set is large. */
  lemma SameSize(order: seq<string>, order': seq<string>, keys: set<string>)
    requires IsOrderOf(order, keys) && IsOrderOf(order', keys)
    ensures |order| == |order'|
  {
    OrderSize(order, keys);
    OrderSize(order', keys);
  }

  lemma {:induction false} OrderSize(order: seq<string>, keys: set<string>)
    requires IsOrderOf(order, keys)
    ensures |order| == |keys|
  {
    if order == [] {
      assert keys == {};
    } else {
      var n := |order| - 1;
      assert order[n] in order;
      assert forall k :: k in order[..n] <==> k in order && k != order[n];
      OrderSize(order[..n], keys - {order[n]});
    }
  }

  /** The limits have one compilation only if and only if they lie on one route key, all and the local ones. */
  lemma OneWayExactly(naming: Naming, descriptors: seq<Descriptor>, rls: string)
    ensures CompilesOneWay(naming, descriptors, rls) <==> OneKeyEach(descriptors)
  {
    hide AtMostOne, IsCompiled, AllPlaces, Keys;
    if OneKeyEach(descriptors) {
      forall p, q | IsCompiled(naming, descriptors, rls, p) && IsCompiled(naming, descriptors, rls, q)
        ensures p == q
      {
        OneKeyOneWay(naming, descriptors, rls, p, q);
      }
    } else if !AtMostOne(Keys(AllPlaces(Routed(descriptors)))) {
      TwoActionOrders(naming, descriptors, rls);
    } else {
      TwoBucketOrders(naming, descriptors, rls);
    }
  }

  // ----- The second refresh -----

  /** Whatever a further generation from the same spec yields, there is nothing to write for it. */
  ghost predicate StaysSettled(naming: Naming, ev: Evaluator, spec: SmartLimiterSpec, selector: map<string, string>,
      sets: seq<Subset>, store: FS.Store, p: FS.Pass)
  {
    forall efs :: FiltersAgree(naming, ev, spec, selector, sets, efs) ==> FS.Settled(store, p.loc, p.revision, efs)
  }

  lemma SameFilters(naming: Naming, ev: Evaluator, spec: SmartLimiterSpec, selector: map<string, string>,
      sets: seq<Subset>, a: map<string, Option<EnvoyFilter>>, b: map<string, Option<EnvoyFilter>>)
    requires FiltersAgree(naming, ev, spec, selector, sets, a) && FiltersAgree(naming, ev, spec, selector, sets, b)
    requires forall name :: name in a ==> OneKeyEach(ValidOf(ev, spec, name))
    ensures a == b
  {
    hide OneKeyEach, ValidOf, IsCompiled, Names;
    forall name | name in a
      ensures a[name] == b[name]
    {
      var valid := ValidOf(ev, spec, name);
      if valid != [] {
        OneWayExactly(naming, valid, spec.rls);
        assert a[name].value.patches == b[name].value.patches;
      }
    }
  }

  /** For a set with several keys another generation can be such that its filter is written again. */
  lemma AnotherGeneration(naming: Naming, ev: Evaluator, spec: SmartLimiterSpec, selector: map<string, string>,
      sets: seq<Subset>, store: FS.Store, p: FS.Pass, name: string)
    requires FiltersAgree(naming, ev, spec, selector, sets, p.efs) && name in p.efs
    requires !OneKeyEach(ValidOf(ev, spec, name))
    requires FS.AsDesired(store, p.loc, name, p.efs[name])
    requires FS.Find(store, FS.FilterKeyOf(p.loc, name)).Some? ==>
      FS.Find(store, FS.FilterKeyOf(p.loc, name)).value.revision == p.revision
    ensures !StaysSettled(naming, ev, spec, selector, sets, store, p)
  {
    hide IsCompiled, Names, FS.FilterKeyOf, OneKeyEach, LabelsOf, Valid;
    var valid := ValidOf(ev, spec, name);
    OneWayExactly(naming, valid, spec.rls);
    var a, b :| IsCompiled(naming, valid, spec.rls, a) && IsCompiled(naming, valid, spec.rls, b) && a != b;
    NoLimitsOneKey();
    var here := p.efs[name].value;
    var other := EnvoyFilter(here.labels, if here.patches == a then b else a);
    var efs := p.efs[name := Some(other)];
    assert FiltersAgree(naming, ev, spec, selector, sets, efs);
    assert FS.NeedsWrite(FS.Find(store, FS.FilterKeyOf(p.loc, name)), efs[name], p.revision);
  }

  lemma NoLimitsOneKey()
    ensures OneKeyEach([])
  {
  }

  /**
   After a pass without faults over filters of its own revision, a further refresh from the same spec is certain to
   write nothing if and only if the limits of every set lie on one route key, all and the local ones.
   */
  lemma SecondRefreshExactly(naming: Naming, ev: Evaluator, spec: SmartLimiterSpec, selector: map<string, string>,
      sets: seq<Subset>, before: FS.Store, p: FS.Pass)
    requires FiltersAgree(naming, ev, spec, selector, sets, p.efs)
    requires forall name :: name in p.efs ==> p.faults(name) == FS.NO_FAULT
    requires forall name :: name in p.efs && FS.FilterKeyOf(p.loc, name) in before ==>
      before[FS.FilterKeyOf(p.loc, name)].revision == p.revision
    ensures StaysSettled(naming, ev, spec, selector, sets, FS.AfterPass(before, p), p) <==>
      forall name :: name in p.efs ==> OneKeyEach(ValidOf(ev, spec, name))
  {
    hide FiltersAgree, OneKeyEach, ValidOf, FS.FilterKeyOf, FS.AfterPass, FS.NeedsWrite;
    var after := FS.AfterPass(before, p);
    FS.Converges(before, p);
    if forall name :: name in p.efs ==> OneKeyEach(ValidOf(ev, spec, name)) {
      forall efs | FiltersAgree(naming, ev, spec, selector, sets, efs)
        ensures FS.Settled(after, p.loc, p.revision, efs)
      {
        SameFilters(naming, ev, spec, selector, sets, p.efs, efs);
      }
    } else {
      var name :| name in p.efs && !OneKeyEach(ValidOf(ev, spec, name));
      FS.RevisionKept(before, p, name);
      AnotherGeneration(naming, ev, spec, selector, sets, after, p, name);
    }
  }
}
