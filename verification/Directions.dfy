/**
 When the local limits of a request are right although limits of one route look in different directions: which limits
 may share a key with limits of the other direction, and which may not.
 */
module Directions {
  import opened Seqs
  import opened Grouping
  import opened Limiter
  import opened Descriptors
  import opened Routes
  import opened LocalLimit
  import opened Meaning
  import opened Preservation

  /** The patch of the place's group takes the direction of the place. */
  ghost predicate IsDirected(places: seq<Placed>, p: Placed) {
    Group(places, Key(p.rc)) != [] && SideOf(Group(places, Key(p.rc))[0].rc) == SideOf(p.rc)
  }

  /** The first covers every route that the second covers, in the same direction. */
  predicate IsAsWide(q: RouteConfig, p: RouteConfig) {
    && SideOf(q) == SideOf(p)
    && (q.vhost == "" || q.vhost == p.vhost) && (q.route == "" || q.route == p.route)
  }

  /** Some place of the limit that is as wide has its action in a patch of its direction. */
  ghost predicate IsAnswered(places: seq<Placed>, p: Placed) {
    exists q :: q in places && q.d == p.d && IsAsWide(q.rc, p.rc) && IsDirected(places, q)
  }

  ghost predicate IsMatchable(re: Regex, d: Descriptor) {
    exists headers :: MatchesAll(re, headers, d)
  }

  /**
   Every local limit that some request matches has, for each of its routes, its bucket and an action in its direction.
   */
  ghost predicate LocalDirected(re: Regex, descriptors: seq<Descriptor>) {
    forall p :: p in AllPlaces(Filter(IsLocal, descriptors)) && IsMatchable(re, p.d) ==>
      IsDirected(AllPlaces(Filter(IsLocal, descriptors)), p) && IsAnswered(AllPlaces(descriptors), p)
  }

  /** Every request on every route meets the local limits that cover the route and match the request. */
  ghost predicate LocalFaithful(naming: Naming, re: Regex, descriptors: seq<Descriptor>, patches: seq<Patch>) {
    forall r, headers :: multiset(Consulted(re, headers, ApplyAll(Append, r, patches))) ==
      multiset(Map(LimitOn(naming), Wanted(re, descriptors, r, headers)))
  }

  /** A group lies on one virtual host and route, so it is live exactly where a place of its direction covers. */
  lemma DirectedIsLive(descriptors: seq<Descriptor>, p: Placed, r: RouteId)
    requires p in AllPlaces(descriptors) && r.context == SideOf(p.rc)
    ensures Live(AllPlaces(descriptors), Key(p.rc), r) <==> IsDirected(AllPlaces(descriptors), p) && Covers(r, p.rc)
  {
    hide AllPlaces, Key;
    var places := AllPlaces(descriptors);
    var group := Group(places, Key(p.rc));
    InGroup(PlaceKey, places, Key(p.rc));
    assert PlaceKey(p) == Key(p.rc);
    assert p in group && group[0] in group;
    GroupSharesRoute(descriptors, Key(p.rc), group[0], p);
  }

  /** Against its direction a place of a directed group is on no route. */
  lemma NotLiveAgainst(descriptors: seq<Descriptor>, p: Placed, r: RouteId)
    requires p in AllPlaces(descriptors) && r.context != SideOf(p.rc)
    requires IsDirected(AllPlaces(descriptors), p)
    ensures !Live(AllPlaces(descriptors), Key(p.rc), r) && !Covers(r, p.rc)
  {
  }

  // ----- What is consulted, as places -----

  /** The places whose actions are attached to a route, and those whose buckets are and are consulted. */
  ghost function PlacesMet(naming: Naming, re: Regex, headers: Headers, descriptors: seq<Descriptor>,
      actionOrder: seq<string>, bucketOrder: seq<string>, r: RouteId): seq<Placed>
  {
    Filter(EntryMatching(naming, re, headers, Attached(AllPlaces(descriptors), actionOrder, r)),
      Attached(AllPlaces(Filter(IsLocal, descriptors)), bucketOrder, r))
  }

  lemma {:induction false} AttachedPlace(places: seq<Placed>, order: seq<string>, r: RouteId)
    ensures forall p :: p in Attached(places, order, r) ==> p in places
  {
    if order != [] {
      AttachedPlace(places, order[1..], r);
      InGroup(PlaceKey, places, order[0]);
    }
  }

  lemma ConsultedIsMet(naming: Naming, re: Regex, headers: Headers, descriptors: seq<Descriptor>, rls: string,
      patches: seq<Patch>, actionPatches: seq<Patch>, actionOrder: seq<string>, bucketPatches: seq<Patch>,
      bucketOrder: seq<string>, r: RouteId)
    requires IsCompiledFrom(naming, descriptors, rls, patches, actionPatches, actionOrder, bucketPatches, bucketOrder)
    requires NoCustom(descriptors)
    ensures Consulted(re, headers, ApplyAll(Append, r, patches)) ==
      Map(LimitOn(naming), PlacesMet(naming, re, headers, descriptors, actionOrder, bucketOrder, r))
  {
    hide IsCompiledFrom, Attached, IsConsulted, EntryMatches, LimitOn, ActionOn, ApplyAll, AllPlaces;
    var st := ApplyAll(Append, r, patches);
    ApplyAllActions(Append, r, patches);
    ApplyAllLimits(r, patches);
    PartsOfCompiled(naming, descriptors, rls, patches, actionPatches, actionOrder, bucketPatches, bucketOrder, r);
    RoutedIsAll(descriptors);
    var local := Attached(AllPlaces(Filter(IsLocal, descriptors)), bucketOrder, r);
    var attached := Attached(AllPlaces(descriptors), actionOrder, r);
    var consulted := (l: LocalDescriptor) => IsConsulted(re, headers, st.actions, l);
    LocalPlaces(descriptors);
    AttachedPlace(AllPlaces(Filter(IsLocal, descriptors)), bucketOrder, r);
    forall p | p in local
      ensures consulted(LimitOn(naming)(p)) == EntryMatching(naming, re, headers, attached)(p)
    {
      ConsultedByEntry(naming, re, headers, attached, st.actions, p);
    }
    FilterMap(consulted, EntryMatching(naming, re, headers, attached), LimitOn(naming), local);
  }

  lemma AttachedExactly(places: seq<Placed>, order: seq<string>, r: RouteId, p: Placed)
    requires IsOrderOf(order, Keys(places)) && p in places
    ensures p in Attached(places, order, r) <==> Live(places, Key(p.rc), r)
  {
    hide Live, Key;
    AttachedCount(places, order, r, p);
    assert PlaceKey(p) == Key(p.rc) && PlaceKey(p) in Keys(places);
    assert p in Attached(places, order, r) <==> multiset(Attached(places, order, r))[p] > 0;
  }

  /** An action on the route with the entry of a limit is an action of the limit itself. */
  lemma EntryIsOwn(naming: Naming, re: Regex, headers: Headers, descriptors: seq<Descriptor>, order: seq<string>,
      r: RouteId, p: Placed) returns (q: Placed)
    requires DistinctNames(naming, descriptors) && IsOrderOf(order, Keys(AllPlaces(descriptors))) && p.d in descriptors
    requires EntryMatches(naming, re, headers, Attached(AllPlaces(descriptors), order, r), p)
    ensures q in AllPlaces(descriptors) && q.d == p.d && Live(AllPlaces(descriptors), Key(q.rc), r)
    ensures MatchesAll(re, headers, p.d)
  {
    hide AllPlaces, MatchesAll, Live, DescriptorKey, IsOrderOf, Key;
    var places := AllPlaces(descriptors);
    q :| q in Attached(places, order, r) && SameEntry(naming, p, q) && MatchesAll(re, headers, q.d);
    AttachedPlace(places, order, r);
    AttachedExactly(places, order, r, q);
    PlacedFrom(descriptors, q);
  }

  /** An action of the limit on the route has the limit's entry. */
  lemma OwnEntry(naming: Naming, re: Regex, headers: Headers, descriptors: seq<Descriptor>, order: seq<string>,
      r: RouteId, p: Placed, q: Placed)
    requires IsOrderOf(order, Keys(AllPlaces(descriptors))) && q in AllPlaces(descriptors) && q.d == p.d
    requires Live(AllPlaces(descriptors), Key(q.rc), r) && MatchesAll(re, headers, p.d)
    ensures EntryMatches(naming, re, headers, Attached(AllPlaces(descriptors), order, r), p)
  {
    hide AllPlaces, MatchesAll, Live, DescriptorKey, IsOrderOf, Key;
    AttachedExactly(AllPlaces(descriptors), order, r, q);
    assert SameEntry(naming, p, q);
  }

  lemma MetCount(naming: Naming, re: Regex, headers: Headers, descriptors: seq<Descriptor>,
      actionOrder: seq<string>, bucketOrder: seq<string>, r: RouteId, p: Placed)
    requires IsOrderOf(bucketOrder, Keys(AllPlaces(Filter(IsLocal, descriptors))))
    ensures var local := AllPlaces(Filter(IsLocal, descriptors));
      multiset(PlacesMet(naming, re, headers, descriptors, actionOrder, bucketOrder, r))[p] ==
        if p in local && Live(local, Key(p.rc), r)
          && EntryMatches(naming, re, headers, Attached(AllPlaces(descriptors), actionOrder, r), p)
        then multiset(local)[p] else 0
  {
    hide AllPlaces, Live, Key, EntryMatches, Attached;
    var local := AllPlaces(Filter(IsLocal, descriptors));
    FilterCount(EntryMatching(naming, re, headers, Attached(AllPlaces(descriptors), actionOrder, r)),
      Attached(local, bucketOrder, r), p);
    AttachedCount(local, bucketOrder, r, p);
    if p in local {
      assert PlaceKey(p) == Key(p.rc) && PlaceKey(p) in Keys(local);
    }
  }

  lemma WantedCount(re: Regex, headers: Headers, descriptors: seq<Descriptor>, r: RouteId, p: Placed)
    ensures var local := AllPlaces(Filter(IsLocal, descriptors));
      multiset(Wanted(re, descriptors, r, headers))[p] ==
        if p in local && Covers(r, p.rc) && MatchesAll(re, headers, p.d) then multiset(local)[p] else 0
  {
    hide AllPlaces, Covers, MatchesAll;
    var local := AllPlaces(Filter(IsLocal, descriptors));
    FilterCount((q: Placed) => MatchesAll(re, headers, q.d), Covering(local, r), p);
    FilterCount((q: Placed) => Covers(r, q.rc), local, p);
  }

  /** With all matchable limits directed, a place is met exactly if it is wanted. */
  lemma DirectedIsMet(naming: Naming, re: Regex, headers: Headers, descriptors: seq<Descriptor>,
      actionOrder: seq<string>, bucketOrder: seq<string>, r: RouteId, p: Placed)
    requires DistinctNames(naming, descriptors) && LocalDirected(re, descriptors)
    requires IsOrderOf(actionOrder, Keys(AllPlaces(descriptors)))
    requires p in AllPlaces(Filter(IsLocal, descriptors))
    ensures Live(AllPlaces(Filter(IsLocal, descriptors)), Key(p.rc), r)
        && EntryMatches(naming, re, headers, Attached(AllPlaces(descriptors), actionOrder, r), p)
      <==> Covers(r, p.rc) && MatchesAll(re, headers, p.d)
  {
    hide AllPlaces, MatchesAll, Live, EntryMatches, Attached, DistinctNames, IsOrderOf, Key, IsDirected, Filter;
    LocalPlaces(descriptors);
    if MatchesAll(re, headers, p.d) {
      assert IsMatchable(re, p.d);
      if r.context == SideOf(p.rc) {
        DirectedIsLive(Filter(IsLocal, descriptors), p, r);
        if Covers(r, p.rc) {
          var places := AllPlaces(descriptors);
          var q :| q in places && q.d == p.d && IsAsWide(q.rc, p.rc) && IsDirected(places, q);
          DirectedIsLive(descriptors, q, r);
          OwnEntry(naming, re, headers, descriptors, actionOrder, r, p, q);
        }
      } else {
        NotLiveAgainst(Filter(IsLocal, descriptors), p, r);
      }
    } else if EntryMatches(naming, re, headers, Attached(AllPlaces(descriptors), actionOrder, r), p) {
      var _ := EntryIsOwn(naming, re, headers, descriptors, actionOrder, r, p);
    }
  }

  lemma DirectedIsFaithful(naming: Naming, re: Regex, headers: Headers, descriptors: seq<Descriptor>,
      actionOrder: seq<string>, bucketOrder: seq<string>, r: RouteId)
    requires DistinctNames(naming, descriptors) && LocalDirected(re, descriptors)
    requires IsOrderOf(actionOrder, Keys(AllPlaces(descriptors)))
    requires IsOrderOf(bucketOrder, Keys(AllPlaces(Filter(IsLocal, descriptors))))
    ensures multiset(PlacesMet(naming, re, headers, descriptors, actionOrder, bucketOrder, r)) ==
      multiset(Wanted(re, descriptors, r, headers))
  {
    hide AllPlaces, MatchesAll, Live, EntryMatches, Attached, DistinctNames, IsOrderOf, Key, LocalDirected, Covers,
      PlacesMet, Wanted, Filter;
    var a := multiset(PlacesMet(naming, re, headers, descriptors, actionOrder, bucketOrder, r));
    var b := multiset(Wanted(re, descriptors, r, headers));
    forall p: Placed
      ensures a[p] == b[p]
    {
      MetCount(naming, re, headers, descriptors, actionOrder, bucketOrder, r, p);
      WantedCount(re, headers, descriptors, r, p);
      if p in AllPlaces(Filter(IsLocal, descriptors)) {
        DirectedIsMet(naming, re, headers, descriptors, actionOrder, bucketOrder, r, p);
      }
    }
    SameCounts(a, b);
  }

  // ----- A limit that is missed -----

  lemma LongerThanAll(names: set<string>) returns (n: nat)
    ensures forall s :: s in names ==> |s| < n
  {
    if names == {} {
      n := 0;
    } else {
      var s :| s in names;
      var m := LongerThanAll(names - {s});
      n := if |s| < m then m else |s| + 1;
    }
  }

  lemma FreshName(names: set<string>) returns (s: string)
    ensures s !in names && s != ""
  {
    var n := LongerThanAll(names);
    s := seq(n + 1, i => 'x');
  }

  /** A route that of all places in the direction only those as wide cover. */
  lemma OwnRoute(places: seq<Placed>, p: Placed) returns (r: RouteId)
    ensures r.context == SideOf(p.rc) && Covers(r, p.rc)
    ensures forall q :: q in places && Covers(r, q.rc) ==> IsAsWide(q.rc, p.rc)
  {
    var other := FreshName((set q | q in places :: q.rc.vhost) + set q | q in places :: q.rc.route);
    r := RouteId(SideOf(p.rc), if p.rc.vhost == "" then other else p.rc.vhost,
      if p.rc.route == "" then other else p.rc.route);
  }

  /** Places of one limit share its direction. */
  lemma SameLimitSameDirection(descriptors: seq<Descriptor>, p: Placed, q: Placed)
    requires p in AllPlaces(descriptors) && q in AllPlaces(descriptors) && p.d == q.d
    ensures p.rc.direction == q.rc.direction
  {
    hide AllPlaces, RouteConfigs;
    PlacedFrom(descriptors, p);
    PlacedFrom(descriptors, q);
    RouteConfigsShape(p.d.target, p.rc);
    RouteConfigsShape(q.d.target, q.rc);
  }

  /** A place that is not directed, or has no action, is not met on its own route. */
  lemma NotMet(naming: Naming, re: Regex, headers: Headers, descriptors: seq<Descriptor>, actionOrder: seq<string>,
      r: RouteId, p: Placed)
    requires DistinctNames(naming, descriptors) && IsOrderOf(actionOrder, Keys(AllPlaces(descriptors)))
    requires p in AllPlaces(Filter(IsLocal, descriptors)) && r.context == SideOf(p.rc)
    requires forall q :: q in AllPlaces(descriptors) && Covers(r, q.rc) ==> IsAsWide(q.rc, p.rc)
    requires !IsDirected(AllPlaces(Filter(IsLocal, descriptors)), p) || !IsAnswered(AllPlaces(descriptors), p)
    ensures !Live(AllPlaces(Filter(IsLocal, descriptors)), Key(p.rc), r)
      || !EntryMatches(naming, re, headers, Attached(AllPlaces(descriptors), actionOrder, r), p)
  {
    hide AllPlaces, MatchesAll, Live, EntryMatches, Attached, DistinctNames, IsOrderOf, Key, IsDirected, IsAsWide,
      Filter, Covers;
    LocalPlaces(descriptors);
    if !IsDirected(AllPlaces(Filter(IsLocal, descriptors)), p) {
      DirectedIsLive(Filter(IsLocal, descriptors), p, r);
    } else if EntryMatches(naming, re, headers, Attached(AllPlaces(descriptors), actionOrder, r), p) {
      var q := EntryIsOwn(naming, re, headers, descriptors, actionOrder, r, p);
      SameLimitSameDirection(descriptors, p, q);
      DirectedIsLive(descriptors, q, r);
    }
  }

  /** Buckets that are the same are buckets of one limit. */
  lemma SameBucketSameLimit(naming: Naming, descriptors: seq<Descriptor>, p: Placed, q: Placed)
    requires DistinctNames(naming, descriptors) && NoCustom(descriptors)
    requires p in AllPlaces(Filter(IsLocal, descriptors)) && q in AllPlaces(Filter(IsLocal, descriptors))
    requires LimitOn(naming)(p) == LimitOn(naming)(q)
    ensures p.d == q.d
  {
    hide AllPlaces, Filter, LimitOn, DescriptorKey;
    LocalPlaces(descriptors);
    EntryOfLimit(naming, p);
    EntryOfLimit(naming, q);
  }

  /** Of the places with one bucket no more are met than are wanted, on a route in their direction. */
  lemma MetAtMostWanted(naming: Naming, re: Regex, headers: Headers, descriptors: seq<Descriptor>,
      actionOrder: seq<string>, bucketOrder: seq<string>, r: RouteId, p: Placed, y: Placed, same: Placed -> bool)
    requires DistinctNames(naming, descriptors) && NoCustom(descriptors)
    requires IsOrderOf(bucketOrder, Keys(AllPlaces(Filter(IsLocal, descriptors))))
    requires p in AllPlaces(Filter(IsLocal, descriptors)) && MatchesAll(re, headers, p.d)
    requires r.context == SideOf(p.rc)
    requires forall q :: same(q) <==> LimitOn(naming)(q) == LimitOn(naming)(p)
    ensures multiset(Filter(same, PlacesMet(naming, re, headers, descriptors, actionOrder, bucketOrder, r)))[y] <=
      multiset(Filter(same, Wanted(re, descriptors, r, headers)))[y]
  {
    hide AllPlaces, MatchesAll, Live, EntryMatches, Attached, DistinctNames, IsOrderOf, Key, IsDirected, Covers,
      PlacesMet, Wanted, LimitOn, Filter;
    FilterCount(same, PlacesMet(naming, re, headers, descriptors, actionOrder, bucketOrder, r), y);
    FilterCount(same, Wanted(re, descriptors, r, headers), y);
    MetCount(naming, re, headers, descriptors, actionOrder, bucketOrder, r, y);
    WantedCount(re, headers, descriptors, r, y);
    if same(y) && y in AllPlaces(Filter(IsLocal, descriptors)) {
      SameBucketSameLimit(naming, descriptors, p, y);
      SameLimitSameDirection(Filter(IsLocal, descriptors), p, y);
      DirectedIsLive(Filter(IsLocal, descriptors), y, r);
    }
  }

  /** A matchable limit without its bucket or an action in its direction is missed by a request on its own route. */
  lemma MissedLimit(naming: Naming, re: Regex, headers: Headers, descriptors: seq<Descriptor>, rls: string,
      patches: seq<Patch>, actionPatches: seq<Patch>, actionOrder: seq<string>, bucketPatches: seq<Patch>,
      bucketOrder: seq<string>, p: Placed)
    requires IsCompiledFrom(naming, descriptors, rls, patches, actionPatches, actionOrder, bucketPatches, bucketOrder)
    requires DistinctNames(naming, descriptors) && NoCustom(descriptors)
    requires p in AllPlaces(Filter(IsLocal, descriptors)) && MatchesAll(re, headers, p.d)
    requires !IsDirected(AllPlaces(Filter(IsLocal, descriptors)), p) || !IsAnswered(AllPlaces(descriptors), p)
    ensures !LocalFaithful(naming, re, descriptors, patches)
  {
    OrdersOfCompiled(naming, descriptors, rls, patches, actionPatches, actionOrder, bucketPatches, bucketOrder);
    hide IsCompiledFrom, AllPlaces, MatchesAll, Live, EntryMatches, Attached, DistinctNames, IsOrderOf, Key, IsDirected,
      IsAnswered, Covers, PlacesMet, Wanted, LimitOn, Filter, Consulted, ApplyAll, NoCustom, IsAsWide;
    var r := OwnRoute(AllPlaces(descriptors), p);
    var met := PlacesMet(naming, re, headers, descriptors, actionOrder, bucketOrder, r);
    var wanted := Wanted(re, descriptors, r, headers);
    var limit := LimitOn(naming)(p);
    var same := (q: Placed) => LimitOn(naming)(q) == limit;
    forall y
      ensures multiset(Filter(same, met))[y] <= multiset(Filter(same, wanted))[y]
    {
      MetAtMostWanted(naming, re, headers, descriptors, actionOrder, bucketOrder, r, p, y, same);
    }
    NotMet(naming, re, headers, descriptors, actionOrder, r, p);
    FilterCount(same, met, p);
    FilterCount(same, wanted, p);
    MetCount(naming, re, headers, descriptors, actionOrder, bucketOrder, r, p);
    WantedCount(re, headers, descriptors, r, p);
    FewerElements(multiset(Filter(same, met)), multiset(Filter(same, wanted)), p);
    MapCount(LimitOn(naming), same, met, limit);
    MapCount(LimitOn(naming), same, wanted, limit);
    ConsultedIsMet(naming, re, headers, descriptors, rls, patches, actionPatches, actionOrder, bucketPatches,
      bucketOrder, r);
    assert multiset(Consulted(re, headers, ApplyAll(Append, r, patches)))[limit] <
      multiset(Map(LimitOn(naming), wanted))[limit];
  }

  lemma OrdersOfCompiled(naming: Naming, descriptors: seq<Descriptor>, rls: string, patches: seq<Patch>,
      actionPatches: seq<Patch>, actionOrder: seq<string>, bucketPatches: seq<Patch>, bucketOrder: seq<string>)
    requires IsCompiledFrom(naming, descriptors, rls, patches, actionPatches, actionOrder, bucketPatches, bucketOrder)
    requires NoCustom(descriptors)
    ensures IsOrderOf(actionOrder, Keys(AllPlaces(descriptors)))
    ensures IsOrderOf(bucketOrder, Keys(AllPlaces(Filter(IsLocal, descriptors))))
  {
    RoutedIsAll(descriptors);
  }

  /**
   The local limits that requests meet are right for all requests on all routes if and only if every local limit that
   some request matches has, for each of its routes, its bucket in a patch of its own direction, and an action of its
   own that is as wide in one. Keys on which only global limits lie, or local ones that nothing matches, may mix
   directions.
   */
  lemma LocalDirectedExactly(naming: Naming, re: Regex, descriptors: seq<Descriptor>, rls: string, patches: seq<Patch>)
    requires IsCompiled(naming, descriptors, rls, patches)
    requires DistinctNames(naming, descriptors) && NoCustom(descriptors)
    ensures LocalFaithful(naming, re, descriptors, patches) <==> LocalDirected(re, descriptors)
  {
    hide IsCompiledFrom, AllPlaces, MatchesAll, DistinctNames, IsOrderOf, IsDirected, IsAnswered, PlacesMet, Wanted,
      LimitOn, Filter, Consulted, ApplyAll, NoCustom;
    var actionPatches: seq<Patch>, actionOrder: seq<string>, bucketPatches: seq<Patch>, bucketOrder: seq<string> :|
      IsCompiledFrom(naming, descriptors, rls, patches, actionPatches, actionOrder, bucketPatches, bucketOrder);
    OrdersOfCompiled(naming, descriptors, rls, patches, actionPatches, actionOrder, bucketPatches, bucketOrder);
    if LocalDirected(re, descriptors) {
      forall r, headers
        ensures multiset(Consulted(re, headers, ApplyAll(Append, r, patches))) ==
          multiset(Map(LimitOn(naming), Wanted(re, descriptors, r, headers)))
      {
        ConsultedIsMet(naming, re, headers, descriptors, rls, patches, actionPatches, actionOrder, bucketPatches,
          bucketOrder, r);
        DirectedIsFaithful(naming, re, headers, descriptors, actionOrder, bucketOrder, r);
        MapMultiset(LimitOn(naming), PlacesMet(naming, re, headers, descriptors, actionOrder, bucketOrder, r),
          Wanted(re, descriptors, r, headers));
      }
    } else {
      var p :| p in AllPlaces(Filter(IsLocal, descriptors)) && IsMatchable(re, p.d)
        && !(IsDirected(AllPlaces(Filter(IsLocal, descriptors)), p) && IsAnswered(AllPlaces(descriptors), p));
      var headers :| MatchesAll(re, headers, p.d);
      MissedLimit(naming, re, headers, descriptors, rls, patches, actionPatches, actionOrder, bucketPatches,
        bucketOrder, p);
    }
  }
}
