/** The main results on compilation: when the patches of a list of limits do what the limits ask for. */
module Preservation {
  import opened Seqs
  import opened Grouping
  import opened Limiter
  import opened Descriptors
  import opened Routes
  import opened RateLimits
  import opened LocalLimit
  import opened Meaning

  lemma ActionPatchKind(naming: Naming, places: seq<Placed>, order: seq<string>, patches: seq<Patch>)
    requires ActionPatches(naming, places, order, patches)
    ensures forall i :: 0 <= i < |patches| ==> patches[i].RouteActions?
  {
    forall i | 0 <= i < |patches|
      ensures patches[i].RouteActions?
    {
      assert IsActionPatch(naming, places, order[i], patches[i]);
    }
  }

  lemma BucketPatchKind(naming: Naming, places: seq<Placed>, order: seq<string>, patches: seq<Patch>)
    requires BucketPatches(naming, places, order, patches)
    ensures forall i :: 0 <= i < |patches| ==> patches[i].RouteBuckets?
  {
    forall i | 0 <= i < |patches|
      ensures patches[i].RouteBuckets?
    {
      assert IsBucketPatch(naming, places, order[i], patches[i]);
    }
  }

  /** Of the four parts only the first adds actions to a route, and only the last adds limits. */
  lemma PartsByKind(r: RouteId, a: seq<Patch>, b: seq<Patch>, c: seq<Patch>, d: seq<Patch>)
    requires forall i :: 0 <= i < |a| ==> a[i].RouteActions?
    requires forall i :: 0 <= i < |b| ==> b[i].GlobalFilter?
    requires forall i :: 0 <= i < |c| ==> c[i].LocalFilter?
    requires forall i :: 0 <= i < |d| ==> d[i].RouteBuckets?
    ensures FlatMap((p: Patch) => ActionsAt(r, p), a + b + c + d) == FlatMap((p: Patch) => ActionsAt(r, p), a)
    ensures FlatMap((p: Patch) => LimitsAt(r, p), a + b + c + d) == FlatMap((p: Patch) => LimitsAt(r, p), d)
  {
    FirstPart((p: Patch) => ActionsAt(r, p), a, b, c, d);
    LastPart((p: Patch) => LimitsAt(r, p), a, b, c, d);
  }

  lemma FirstPart<T, U>(f: T -> seq<U>, a: seq<T>, b: seq<T>, c: seq<T>, d: seq<T>)
    requires forall i :: 0 <= i < |b| ==> f(b[i]) == []
    requires forall i :: 0 <= i < |c| ==> f(c[i]) == []
    requires forall i :: 0 <= i < |d| ==> f(d[i]) == []
    ensures FlatMap(f, a + b + c + d) == FlatMap(f, a)
  {
    JoinParts(f, a, b, c, d);
    FlatMapNone(f, b);
    FlatMapNone(f, c);
    FlatMapNone(f, d);
    var first := FlatMap(f, a);
    assert first + [] + [] + [] == first;
  }

  lemma LastPart<T, U>(f: T -> seq<U>, a: seq<T>, b: seq<T>, c: seq<T>, d: seq<T>)
    requires forall i :: 0 <= i < |a| ==> f(a[i]) == []
    requires forall i :: 0 <= i < |b| ==> f(b[i]) == []
    requires forall i :: 0 <= i < |c| ==> f(c[i]) == []
    ensures FlatMap(f, a + b + c + d) == FlatMap(f, d)
  {
    JoinParts(f, a, b, c, d);
    FlatMapNone(f, a);
    FlatMapNone(f, b);
    FlatMapNone(f, c);
  }

  lemma PartsOfCompiled(naming: Naming, descriptors: seq<Descriptor>, rls: string, patches: seq<Patch>,
      actionPatches: seq<Patch>, actionOrder: seq<string>, bucketPatches: seq<Patch>, bucketOrder: seq<string>,
      r: RouteId)
    requires IsCompiledFrom(naming, descriptors, rls, patches, actionPatches, actionOrder, bucketPatches, bucketOrder)
    ensures FlatMap((p: Patch) => ActionsAt(r, p), patches) ==
      Map(ActionOn(naming), Attached(AllPlaces(Routed(descriptors)), actionOrder, r))
    ensures FlatMap((p: Patch) => LimitsAt(r, p), patches) ==
      Map(LimitOn(naming), Attached(AllPlaces(Filter(IsLocal, descriptors)), bucketOrder, r))
  {
    var routed, local := AllPlaces(Routed(descriptors)), AllPlaces(Filter(IsLocal, descriptors));
    ActionPatchKind(naming, routed, actionOrder, actionPatches);
    BucketPatchKind(naming, local, bucketOrder, bucketPatches);
    PartsByKind(r, actionPatches,
      if Filter(IsGlobal, descriptors) == [] then [] else [GlobalFilter(RateLimiterServerCluster(rls))],
      if Filter(IsLocal, descriptors) == [] then [] else [LocalFilter],
      bucketPatches);
    AttachedActions(naming, routed, actionOrder, actionPatches, r);
    AttachedLimits(naming, local, bucketOrder, bucketPatches, r);
  }

  lemma JoinParts<T, U>(f: T -> seq<U>, a: seq<T>, b: seq<T>, c: seq<T>, d: seq<T>)
    ensures FlatMap(f, a + b + c + d) == FlatMap(f, a) + FlatMap(f, b) + FlatMap(f, c) + FlatMap(f, d)
  {
    FlatMapAppend(f, a + b + c, d);
    FlatMapAppend(f, a + b, c);
    FlatMapAppend(f, a, b);
  }

  lemma LocalPlaces(descriptors: seq<Descriptor>)
    ensures forall p :: p in AllPlaces(Filter(IsLocal, descriptors)) ==>
      p in AllPlaces(descriptors) && IsLocal(p.d) && p.d in descriptors
  {
    InFilter(IsLocal, descriptors);
    forall p | p in AllPlaces(Filter(IsLocal, descriptors))
      ensures p in AllPlaces(descriptors) && IsLocal(p.d) && p.d in descriptors
    {
      PlacedFrom(Filter(IsLocal, descriptors), p);
      PlacedFrom(descriptors, p);
    }
  }

  lemma InCovering(places: seq<Placed>, r: RouteId)
    ensures forall p :: p in Covering(places, r) <==> p in places && Covers(r, p.rc)
  {
    InFilter((p: Placed) => Covers(r, p.rc), places);
  }

  ghost predicate NoCustom(descriptors: seq<Descriptor>) {
    forall d :: d in descriptors ==> !IsCustom(d)
  }

  /** Two limits go by one entry. */
  predicate SameEntry(naming: Naming, p: Placed, q: Placed) {
    DescriptorKey(p.d) == DescriptorKey(q.d) && naming(p.d) == naming(q.d)
  }

  /** Some limit on the route goes by the same entry as this one and matches the request. */
  ghost predicate EntryMatches(naming: Naming, re: Regex, headers: Headers, covering: seq<Placed>, p: Placed) {
    exists q :: q in covering && SameEntry(naming, p, q) && MatchesAll(re, headers, q.d)
  }

  ghost function EntryMatching(naming: Naming, re: Regex, headers: Headers, covering: seq<Placed>): Placed -> bool {
    (p: Placed) => EntryMatches(naming, re, headers, covering, p)
  }

  /**
   The bucket of a limit on a route is consulted exactly by the requests that match some limit there with its entry.
   */
  lemma ConsultedByEntry(naming: Naming, re: Regex, headers: Headers, covering: seq<Placed>,
      actions: seq<RouteAction>, p: Placed)
    requires multiset(actions) == multiset(Map(ActionOn(naming), covering))
    requires IsLocal(p.d) && !IsCustom(p.d)
    ensures IsConsulted(re, headers, actions, LimitOn(naming)(p)) <==> EntryMatches(naming, re, headers, covering, p)
  {
    hide MatchesAll, Emit, RouteActionOf, LocalDescriptorOf, DescriptorKey, IsConsulted, LimitOn;
    var attached, limit := Map(ActionOn(naming), covering), LimitOn(naming)(p);
    EntryOfLimit(naming, p);
    ConsultedByMultiset(re, headers, actions, attached, limit);
    if EntryMatches(naming, re, headers, covering, p) {
      var q :| q in covering && SameEntry(naming, p, q) && MatchesAll(re, headers, q.d);
      EmitMeaning(naming, re, headers, q.d);
      var j :| 0 <= j < |covering| && covering[j] == q;
      ConsultedAt(re, headers, attached, j, limit);
    }
    if IsConsulted(re, headers, attached, limit) {
      var j := ConsultedWhere(re, headers, attached, limit);
      assert covering[j] in covering;
      EmitMeaning(naming, re, headers, covering[j].d);
    }
  }

  lemma EntryOfLimit(naming: Naming, p: Placed)
    requires IsLocal(p.d) && !IsCustom(p.d)
    ensures (LimitOn(naming)(p).key, LimitOn(naming)(p).value) == (DescriptorKey(p.d), naming(p.d))
  {
    hide BucketOf;
    assert LimitOn(naming)(p) == LocalDescriptorOf(naming, p.d);
  }

  lemma ConsultedAt(re: Regex, headers: Headers, actions: seq<RouteAction>, j: nat, limit: LocalDescriptor)
    requires j < |actions| && Emit(re, headers, actions[j]) == Some((limit.key, limit.value))
    ensures IsConsulted(re, headers, actions, limit)
  {
  }

  lemma ConsultedWhere(re: Regex, headers: Headers, actions: seq<RouteAction>, limit: LocalDescriptor) returns (j: nat)
    requires IsConsulted(re, headers, actions, limit)
    ensures j < |actions| && Emit(re, headers, actions[j]) == Some((limit.key, limit.value))
  {
    j :| j < |actions| && Emit(re, headers, actions[j]) == Some((limit.key, limit.value));
  }

  /** Whether a limit is consulted depends on the multiset of the actions only. */
  lemma ConsultedByMultiset(re: Regex, headers: Headers, a: seq<RouteAction>, b: seq<RouteAction>,
      limit: LocalDescriptor)
    requires multiset(a) == multiset(b)
    ensures IsConsulted(re, headers, a, limit) <==> IsConsulted(re, headers, b, limit)
  {
    hide IsConsulted, Emit;
    if IsConsulted(re, headers, a, limit) {
      ConsultedOneWay(re, headers, a, b, limit);
    }
    if IsConsulted(re, headers, b, limit) {
      ConsultedOneWay(re, headers, b, a, limit);
    }
  }

  lemma ConsultedOneWay(re: Regex, headers: Headers, a: seq<RouteAction>, b: seq<RouteAction>, limit: LocalDescriptor)
    requires multiset(a) == multiset(b) && IsConsulted(re, headers, a, limit)
    ensures IsConsulted(re, headers, b, limit)
  {
    hide IsConsulted, Emit;
    var i := ConsultedWhere(re, headers, a, limit);
    assert a[i] in multiset(b);
    var j :| 0 <= j < |b| && b[j] == a[i];
    ConsultedAt(re, headers, b, j, limit);
  }

  /** With distinct names that is the limit itself. */
  lemma DistinctEntries(naming: Naming, re: Regex, headers: Headers, descriptors: seq<Descriptor>, r: RouteId,
      p: Placed)
    requires DistinctNames(naming, descriptors) && p in Covering(AllPlaces(descriptors), r)
    ensures EntryMatches(naming, re, headers, Covering(AllPlaces(descriptors), r), p) <==> MatchesAll(re, headers, p.d)
  {
    var covering := Covering(AllPlaces(descriptors), r);
    InCovering(AllPlaces(descriptors), r);
    PlacedFrom(descriptors, p);
    if q :| q in covering && SameEntry(naming, p, q) && MatchesAll(re, headers, q.d) {
      PlacedFrom(descriptors, q);
    }
  }

  /** Limits of a service have distinct names exactly if no two of them have one checksum. */
  lemma DistinctChecksums(sum: Checksum, loc: Location, descriptors: seq<Descriptor>)
    ensures DistinctNames(NamingOf(sum, loc), descriptors) <==>
      forall d, e :: d in descriptors && e in descriptors && sum(d, loc) == sum(e, loc) ==> d == e
  {
    hide Name;
    forall d, e | NamingOf(sum, loc)(d) == NamingOf(sum, loc)(e)
      ensures sum(d, loc) == sum(e, loc)
    {
      NameTellsChecksum(loc.name, loc.namespace, sum(d, loc), sum(e, loc));
    }
    assert forall d, e :: sum(d, loc) == sum(e, loc) ==> NamingOf(sum, loc)(d) == NamingOf(sum, loc)(e);
  }

  /** What a route's limits amount to when limits that share an entry are told apart by nothing. */
  ghost function Shared(naming: Naming, re: Regex, descriptors: seq<Descriptor>, r: RouteId, headers: Headers):
      seq<Placed>
  {
    Filter(EntryMatching(naming, re, headers, Covering(AllPlaces(descriptors), r)),
      Covering(AllPlaces(Filter(IsLocal, descriptors)), r))
  }

  lemma SharedIsWanted(naming: Naming, re: Regex, descriptors: seq<Descriptor>, r: RouteId, headers: Headers)
    requires DistinctNames(naming, descriptors)
    ensures Shared(naming, re, descriptors, r, headers) == Wanted(re, descriptors, r, headers)
  {
    var covering, local := Covering(AllPlaces(descriptors), r), Covering(AllPlaces(Filter(IsLocal, descriptors)), r);
    LocalPlaces(descriptors);
    InCovering(AllPlaces(Filter(IsLocal, descriptors)), r);
    InCovering(AllPlaces(descriptors), r);
    forall p | p in local
      ensures EntryMatching(naming, re, headers, covering)(p) == MatchesAll(re, headers, p.d)
    {
      DistinctEntries(naming, re, headers, descriptors, r, p);
    }
    FilterCongruence(EntryMatching(naming, re, headers, covering), (p: Placed) => MatchesAll(re, headers, p.d), local);
  }

  /** The limits consulted for a request, given the actions and the buckets its route holds. */
  lemma ConsultedOf(naming: Naming, re: Regex, headers: Headers, descriptors: seq<Descriptor>, r: RouteId,
      st: RouteState)
    requires NoCustom(descriptors)
    requires multiset(st.actions) == multiset(Map(ActionOn(naming), Covering(AllPlaces(descriptors), r)))
    requires multiset(st.limits) == multiset(Map(LimitOn(naming), Covering(AllPlaces(Filter(IsLocal, descriptors)), r)))
    ensures multiset(Consulted(re, headers, st)) ==
      multiset(Map(LimitOn(naming), Shared(naming, re, descriptors, r, headers)))
  {
    var local := Covering(AllPlaces(Filter(IsLocal, descriptors)), r);
    var consulted := (l: LocalDescriptor) => IsConsulted(re, headers, st.actions, l);
    var matching := EntryMatching(naming, re, headers, Covering(AllPlaces(descriptors), r));
    forall p | p in local
      ensures consulted(LimitOn(naming)(p)) == matching(p)
    {
      LocalPlaces(descriptors);
      InCovering(AllPlaces(Filter(IsLocal, descriptors)), r);
      InCovering(AllPlaces(descriptors), r);
      ConsultedByEntry(naming, re, headers, Covering(AllPlaces(descriptors), r), st.actions, p);
    }
    FilterMultiset(consulted, st.limits, Map(LimitOn(naming), local));
    FilterMap(consulted, matching, LimitOn(naming), local);
  }

  lemma RoutedIsAll(descriptors: seq<Descriptor>)
    requires NoCustom(descriptors)
    ensures Routed(descriptors) == descriptors
  {
    FilterAll(HasAction, descriptors);
  }

  /**
   Without the condition on names: the limits consulted are those on the route for which some limit there with the same
   entry matches. Where checksums collide, a limit is consulted for the requests of its namesakes too.
   */
  lemma CompilationByEntry(naming: Naming, re: Regex, descriptors: seq<Descriptor>, rls: string,
      patches: seq<Patch>, r: RouteId, headers: Headers)
    requires IsCompiled(naming, descriptors, rls, patches)
    requires NoCustom(descriptors) && OneDirection(AllPlaces(descriptors))
    ensures multiset(Consulted(re, headers, ApplyAll(Append, r, patches))) ==
      multiset(Map(LimitOn(naming), Shared(naming, re, descriptors, r, headers)))
  {
    var st := ApplyAll(Append, r, patches);
    ApplyAllActions(Append, r, patches);
    ApplyAllLimits(r, patches);
    CompiledRoute(naming, descriptors, rls, patches, r);
    ConsultedOf(naming, re, headers, descriptors, r, st);
  }

  /**
   Compilation preserves meaning: with distinct names and one direction per route key, the local limits consulted for
   any request, after all patches have been merged in any order, are those that cover its route and match its headers.
   */
  lemma CompilationPreservesMeaning(naming: Naming, re: Regex, descriptors: seq<Descriptor>, rls: string,
      patches: seq<Patch>, r: RouteId, headers: Headers)
    requires IsCompiled(naming, descriptors, rls, patches)
    requires DistinctNames(naming, descriptors) && NoCustom(descriptors) && OneDirection(AllPlaces(descriptors))
    ensures multiset(Consulted(re, headers, ApplyAll(Append, r, patches))) ==
      multiset(Map(LimitOn(naming), Wanted(re, descriptors, r, headers)))
  {
    CompilationByEntry(naming, re, descriptors, rls, patches, r, headers);
    SharedIsWanted(naming, re, descriptors, r, headers);
  }

  /**
   What the merged patches attach to a route: the actions of all limits that cover it and the buckets of the local
   ones.
   */
  lemma CompiledRoute(naming: Naming, descriptors: seq<Descriptor>, rls: string, patches: seq<Patch>, r: RouteId)
    requires IsCompiled(naming, descriptors, rls, patches)
    requires NoCustom(descriptors) && OneDirection(AllPlaces(descriptors))
    ensures multiset(FlatMap((p: Patch) => ActionsAt(r, p), patches)) ==
      multiset(Map(ActionOn(naming), Covering(AllPlaces(descriptors), r)))
    ensures multiset(FlatMap((p: Patch) => LimitsAt(r, p), patches)) ==
      multiset(Map(LimitOn(naming), Covering(AllPlaces(Filter(IsLocal, descriptors)), r)))
  {
    var actionPatches, actionOrder, bucketPatches, bucketOrder :|
      IsCompiledFrom(naming, descriptors, rls, patches, actionPatches, actionOrder, bucketPatches, bucketOrder);
    var local := Filter(IsLocal, descriptors);
    PartsOfCompiled(naming, descriptors, rls, patches, actionPatches, actionOrder, bucketPatches, bucketOrder, r);
    RoutedIsAll(descriptors);
    LocalPlaces(descriptors);
    MergeIsCovering(descriptors, actionOrder, r);
    MergeIsCovering(local, bucketOrder, r);
    MapMultiset(ActionOn(naming), Attached(AllPlaces(descriptors), actionOrder, r),
      Covering(AllPlaces(descriptors), r));
    MapMultiset(LimitOn(naming), Attached(AllPlaces(local), bucketOrder, r), Covering(AllPlaces(local), r));
  }

  // ----- One direction per key is exactly what the route actions need -----

  /** On every route the merged patches attach the actions of the limits that cover it. */
  ghost predicate ActionsFaithful(naming: Naming, places: seq<Placed>, patches: seq<Patch>) {
    forall r :: multiset(ApplyAll(Append, r, patches).actions) == multiset(Map(ActionOn(naming), Covering(places, r)))
  }

  /** The route of a place itself. */
  function RouteIdOf(rc: RouteConfig): RouteId {
    RouteId(SideOf(rc), rc.vhost, rc.route)
  }

  /** All places of one limit lie in one direction, so where a group is live each of its limits also covers. */
  lemma LiveCoversSameLimit(descriptors: seq<Descriptor>, x: Placed, y: Placed)
    requires x in AllPlaces(descriptors) && y in AllPlaces(descriptors) && x.d == y.d
    requires Live(AllPlaces(descriptors), Key(y.rc), RouteIdOf(x.rc))
    ensures Covers(RouteIdOf(x.rc), y.rc)
  {
    var group := Group(AllPlaces(descriptors), Key(y.rc));
    InGroup(PlaceKey, AllPlaces(descriptors), Key(y.rc));
    assert y in group && group[0] in group;
    GroupSharesRoute(descriptors, Key(y.rc), group[0], y);
    PlacedFrom(descriptors, x);
    PlacedFrom(descriptors, y);
    RouteConfigsShape(x.d.target, x.rc);
    RouteConfigsShape(y.d.target, y.rc);
  }

  /**
   Fewer actions of a limit are attached on its own route than its places there when its group looks the other way.
   */
  lemma FewerAttached(naming: Naming, descriptors: seq<Descriptor>, order: seq<string>, x: Placed, same: Placed -> bool)
    requires DistinctNames(naming, descriptors) && Distinct(order)
    requires x in AllPlaces(descriptors) && !Live(AllPlaces(descriptors), Key(x.rc), RouteIdOf(x.rc))
    requires forall p :: same(p) <==> ActionOn(naming)(p) == ActionOn(naming)(x)
    ensures |multiset(Filter(same, Attached(AllPlaces(descriptors), order, RouteIdOf(x.rc))))| <
      |multiset(Filter(same, Covering(AllPlaces(descriptors), RouteIdOf(x.rc))))|
  {
    hide AllPlaces, Live, Key, Covers, ActionOn, Attached, Covering, Filter, DistinctNames, Distinct, RouteIdOf;
    var places, r := AllPlaces(descriptors), RouteIdOf(x.rc);
    var a, b := multiset(Filter(same, Attached(places, order, r))), multiset(Filter(same, Covering(places, r)));
    forall y: Placed
      ensures a[y] <= b[y]
    {
      SameCount(places, order, r, y, same);
      if same(y) && y in places && Live(places, Key(y.rc), r) {
        SameActionSameLimit(naming, descriptors, x, y);
        LiveCoversSameLimit(descriptors, x, y);
      }
    }
    SameCount(places, order, r, x, same);
    CoversItself(x.rc);
    FewerElements(a, b, x);
  }

  lemma CoversItself(rc: RouteConfig)
    ensures Covers(RouteIdOf(rc), rc)
  {
  }

  lemma SameCount(places: seq<Placed>, order: seq<string>, r: RouteId, y: Placed, same: Placed -> bool)
    requires Distinct(order)
    ensures multiset(Filter(same, Attached(places, order, r)))[y] ==
      if same(y) && Key(y.rc) in order && Live(places, Key(y.rc), r) then multiset(places)[y] else 0
    ensures multiset(Filter(same, Covering(places, r)))[y] ==
      if same(y) && Covers(r, y.rc) then multiset(places)[y] else 0
  {
    hide Live, Key, Covers, Attached, Filter, Distinct;
    FilterCount(same, Attached(places, order, r), y);
    FilterCount(same, Covering(places, r), y);
    AttachedCount(places, order, r, y);
    FilterCount((q: Placed) => Covers(r, q.rc), places, y);
  }

  lemma SameActionSameLimit(naming: Naming, descriptors: seq<Descriptor>, x: Placed, y: Placed)
    requires DistinctNames(naming, descriptors)
    requires x in AllPlaces(descriptors) && y in AllPlaces(descriptors)
    requires ActionOn(naming)(x) == ActionOn(naming)(y)
    ensures x.d == y.d
  {
    PlacedFrom(descriptors, x);
    PlacedFrom(descriptors, y);
    assert RouteActionOf(naming, x.d) == RouteActionOf(naming, y.d);
    assert naming(x.d) == naming(y.d);
  }

  lemma MisdirectedLimit(naming: Naming, descriptors: seq<Descriptor>, order: seq<string>, patches: seq<Patch>,
      x: Placed)
    requires DistinctNames(naming, descriptors)
    requires AreActionPatches(naming, AllPlaces(descriptors), order, patches)
    requires x in AllPlaces(descriptors) && !Live(AllPlaces(descriptors), Key(x.rc), RouteIdOf(x.rc))
    ensures !ActionsFaithful(naming, AllPlaces(descriptors), patches)
  {
    var places, r := AllPlaces(descriptors), RouteIdOf(x.rc);
    var action := ActionOn(naming)(x);
    var same := (p: Placed) => ActionOn(naming)(p) == action;
    ApplyAllActions(Append, r, patches);
    AttachedActions(naming, places, order, patches, r);
    MapCount(ActionOn(naming), same, Attached(places, order, r), action);
    MapCount(ActionOn(naming), same, Covering(places, r), action);
    FewerAttached(naming, descriptors, order, x, same);
    var wanted := multiset(Map(ActionOn(naming), Covering(places, r)));
    assert multiset(ApplyAll(Append, r, patches).actions)[action] < wanted[action];
  }

  /**
   The patch of a group takes its direction from the first member: it is right on every route iff all members agree.
   */
  lemma OneDirectionExactly(naming: Naming, descriptors: seq<Descriptor>, order: seq<string>, patches: seq<Patch>)
    requires DistinctNames(naming, descriptors)
    requires AreActionPatches(naming, AllPlaces(Routed(descriptors)), order, patches)
    ensures ActionsFaithful(naming, AllPlaces(Routed(descriptors)), patches) <==>
      OneDirection(AllPlaces(Routed(descriptors)))
  {
    var places := AllPlaces(Routed(descriptors));
    if OneDirection(places) {
      forall r
        ensures multiset(ApplyAll(Append, r, patches).actions) == multiset(Map(ActionOn(naming), Covering(places, r)))
      {
        ApplyAllActions(Append, r, patches);
        AttachedActions(naming, places, order, patches, r);
        MergeIsCovering(Routed(descriptors), order, r);
        MapMultiset(ActionOn(naming), Attached(places, order, r), Covering(places, r));
      }
    } else {
      var p, q :| p in places && q in places && Key(p.rc) == Key(q.rc)
        && SideOf(p.rc) != SideOf(q.rc);
      GroupNotEmpty(PlaceKey, places, Key(p.rc));
      var x := if SideOf(Group(places, Key(p.rc))[0].rc) != SideOf(p.rc) then p else q;
      MisdirectedLimit(naming, Routed(descriptors), order, patches, x) by {
        InFilter(HasAction, descriptors);
      }
    }
  }

  /** The case in which they do not: two limits that name one route in two directions. */
  lemma TwoDirectionsOnOneRoute(naming: Naming, descriptors: seq<Descriptor>, order: seq<string>, patches: seq<Patch>,
      d: Descriptor, e: Descriptor, name: string)
    requires DistinctNames(naming, descriptors)
    requires AreActionPatches(naming, AllPlaces(Routed(descriptors)), order, patches)
    requires d in Routed(descriptors) && e in Routed(descriptors) && d.target.Some? && e.target.Some?
    requires name in d.target.value.routes && name in e.target.value.routes && multiset(name)['/'] == 1
    requires d.target.value.direction == OUTBOUND && e.target.value.direction != OUTBOUND
    ensures !ActionsFaithful(naming, AllPlaces(Routed(descriptors)), patches)
  {
    hide ActionsFaithful, NamedRoute;
    var rc := NamedPlace(d.target.value, name);
    var rc' := NamedPlace(e.target.value, name);
    var p, q := Placed(d, rc), Placed(e, rc');
    PlacedFrom(Routed(descriptors), p);
    PlacedFrom(Routed(descriptors), q);
    OneDirectionExactly(naming, descriptors, order, patches);
  }

  /** An accepted route string of a target gives a route with the string as its key and the target's direction. */
  lemma NamedPlace(target: Target, name: string) returns (rc: RouteConfig)
    requires name in target.routes && multiset(name)['/'] == 1
    ensures rc in RouteConfigs(Some(target)) && Key(rc) == name && rc.direction == target.direction
  {
    NamedRouteRoundTrip(target.direction, name);
    rc := NamedRoute(target.direction, name)[0];
    assert rc in NamedRoute(target.direction, name);
    InFlatMap(n => NamedRoute(target.direction, n), target.routes, rc);
    var i :| 0 <= i < |target.routes| && target.routes[i] == name;
  }

  // ----- No overlap is exactly what replacing tables of limits needs -----

  /** The group whose table is left on the route when each patch replaces the table. */
  ghost function LastLive(places: seq<Placed>, order: seq<string>, r: RouteId): seq<Placed> {
    if order == [] then
      []
    else
      var n := |order| - 1;
      if Live(places, order[n], r) then Group(places, order[n]) else LastLive(places, order[..n], r)
  }

  lemma {:induction false} ReplaceKeepsLast(naming: Naming, places: seq<Placed>, order: seq<string>,
      patches: seq<Patch>, r: RouteId)
    requires BucketPatches(naming, places, order, patches)
    ensures ApplyAll(Replace, r, patches).limits == Map(LimitOn(naming), LastLive(places, order, r))
  {
    hide Live, IsBucketPatch, LimitOn, Group, Applies;
    if order != [] {
      var n := |order| - 1;
      assert forall i :: 0 <= i < n ==> IsBucketPatch(naming, places, order[..n][i], patches[..n][i]);
      ReplaceKeepsLast(naming, places, order[..n], patches[..n], r);
      GroupBuckets(naming, places, order[n], patches[n], r);
    }
  }

  lemma {:induction false} LastLiveIsGroup(places: seq<Placed>, order: seq<string>, r: RouteId)
    ensures (forall key :: key in order ==> !Live(places, key, r)) ==> LastLive(places, order, r) == []
    ensures (exists key :: key in order && Live(places, key, r)) ==>
      exists key :: key in order && Live(places, key, r) && LastLive(places, order, r) == Group(places, key)
  {
    if order != [] {
      var n := |order| - 1;
      assert order == order[..n] + [order[n]];
      LastLiveIsGroup(places, order[..n], r);
    }
  }

  lemma OverlapIsSharedRoute(rc: RouteConfig, other: RouteConfig)
    ensures Overlapping(rc, other) <==> exists r :: Covers(r, rc) && Covers(r, other)
  {
    if Overlapping(rc, other) {
      var vhost := if rc.vhost == "" then other.vhost else rc.vhost;
      var r := RouteId(SideOf(rc), vhost, if rc.route == "" then other.route else rc.route);
      assert Covers(r, rc) && Covers(r, other);
    }
  }

  /** On every route the table of limits that is left holds the limits that cover the route. */
  ghost predicate LimitsFaithful(naming: Naming, places: seq<Placed>, patches: seq<Patch>) {
    forall r :: multiset(ApplyAll(Replace, r, patches).limits) == multiset(Map(LimitOn(naming), Covering(places, r)))
  }

  /** Without overlap, the places of the one live key are those that cover the route. */
  lemma LiveKeyCovers(descriptors: seq<Descriptor>, key: string, r: RouteId, p: Placed)
    requires OneDirection(AllPlaces(descriptors)) && NoOverlap(AllPlaces(descriptors))
    requires Live(AllPlaces(descriptors), key, r) && p in AllPlaces(descriptors)
    ensures Covers(r, p.rc) <==> Key(p.rc) == key
  {
    hide AllPlaces, OneDirection;
    var places := AllPlaces(descriptors);
    var first := Group(places, key)[0];
    InGroup(PlaceKey, places, key);
    assert first in Group(places, key);
    LiveIsCovers(descriptors, r, p);
    if Covers(r, p.rc) {
      OverlapIsSharedRoute(first.rc, p.rc);
    }
  }

  lemma LiveGroupIsCovering(descriptors: seq<Descriptor>, key: string, r: RouteId)
    requires OneDirection(AllPlaces(descriptors)) && NoOverlap(AllPlaces(descriptors))
    requires Live(AllPlaces(descriptors), key, r)
    ensures multiset(Group(AllPlaces(descriptors), key)) == multiset(Covering(AllPlaces(descriptors), r))
  {
    hide AllPlaces, OneDirection, NoOverlap, Live, Covers, Key, Group, Covering;
    var a, b := multiset(Group(AllPlaces(descriptors), key)), multiset(Covering(AllPlaces(descriptors), r));
    forall p: Placed
      ensures a[p] == b[p]
    {
      GroupCount(descriptors, key, r, p);
      if p in AllPlaces(descriptors) {
        LiveKeyCovers(descriptors, key, r, p);
      }
    }
    SameCounts(a, b);
  }

  lemma LastLiveCovers(descriptors: seq<Descriptor>, order: seq<string>, r: RouteId)
    requires OneDirection(AllPlaces(descriptors)) && NoOverlap(AllPlaces(descriptors))
    requires IsOrderOf(order, Keys(AllPlaces(descriptors)))
    ensures multiset(LastLive(AllPlaces(descriptors), order, r)) == multiset(Covering(AllPlaces(descriptors), r))
  {
    hide AllPlaces, OneDirection, NoOverlap, Live, Group, LastLive, Covers;
    var places := AllPlaces(descriptors);
    LastLiveIsGroup(places, order, r);
    if key :| key in order && Live(places, key, r) && LastLive(places, order, r) == Group(places, key) {
      LiveGroupIsCovering(descriptors, key, r);
    } else {
      forall p | p in places
        ensures !Covers(r, p.rc)
      {
        assert PlaceKey(p) in Keys(places);
        LiveIsCovers(descriptors, r, p);
      }
      FilterNone((p: Placed) => Covers(r, p.rc), places);
    }
  }

  /** Two keys that share a route: whichever patch comes last, a table is left that lacks the other's limits. */
  lemma LostLimit(naming: Naming, descriptors: seq<Descriptor>, order: seq<string>, patches: seq<Patch>, p: Placed,
      q: Placed)
    requires OneDirection(AllPlaces(descriptors))
    requires AreBucketPatches(naming, AllPlaces(descriptors), order, patches)
    requires p in AllPlaces(descriptors) && q in AllPlaces(descriptors) && Key(p.rc) != Key(q.rc)
    requires Overlapping(p.rc, q.rc)
    ensures !LimitsFaithful(naming, AllPlaces(descriptors), patches)
  {
    var places := AllPlaces(descriptors);
    OverlapIsSharedRoute(p.rc, q.rc);
    var r :| Covers(r, p.rc) && Covers(r, q.rc);
    LiveIsCovers(descriptors, r, p);
    LiveIsCovers(descriptors, r, q);
    LastLiveIsGroup(places, order, r);
    assert Key(p.rc) in order && Key(q.rc) in order;
    var key :| key in order && Live(places, key, r) && LastLive(places, order, r) == Group(places, key);
    var lost := if Key(p.rc) == key then q else p;
    GroupIsSmaller(descriptors, key, r, lost);
    ReplaceKeepsLast(naming, places, order, patches, r);
    assert |multiset(ApplyAll(Replace, r, patches).limits)| < |multiset(Map(LimitOn(naming), Covering(places, r)))|;
  }

  lemma GroupCount(descriptors: seq<Descriptor>, key: string, r: RouteId, p: Placed)
    requires OneDirection(AllPlaces(descriptors)) && Live(AllPlaces(descriptors), key, r)
    ensures multiset(Covering(AllPlaces(descriptors), r))[p] ==
      if Covers(r, p.rc) then multiset(AllPlaces(descriptors))[p] else 0
    ensures multiset(Group(AllPlaces(descriptors), key))[p] == if Key(p.rc) ==
      key then multiset(AllPlaces(descriptors))[p] else 0
    ensures multiset(Group(AllPlaces(descriptors), key))[p] <= multiset(Covering(AllPlaces(descriptors), r))[p]
  {
    var places := AllPlaces(descriptors);
    FilterCount((q: Placed) => Covers(r, q.rc), places, p);
    FilterCount(HasKey(PlaceKey, key), places, p);
    if p in places && Key(p.rc) == key {
      LiveIsCovers(descriptors, r, p);
    }
  }

  lemma GroupIsSmaller(descriptors: seq<Descriptor>, key: string, r: RouteId, lost: Placed)
    requires OneDirection(AllPlaces(descriptors)) && Live(AllPlaces(descriptors), key, r)
    requires lost in AllPlaces(descriptors) && Covers(r, lost.rc) && Key(lost.rc) != key
    ensures |Group(AllPlaces(descriptors), key)| < |Covering(AllPlaces(descriptors), r)|
  {
    var a, b := multiset(Group(AllPlaces(descriptors), key)), multiset(Covering(AllPlaces(descriptors), r));
    forall p: Placed
      ensures a[p] <= b[p]
    {
      GroupCount(descriptors, key, r, p);
    }
    GroupCount(descriptors, key, r, lost);
    FewerElements(a, b, lost);
  }

  lemma TableOnRoute(naming: Naming, descriptors: seq<Descriptor>, order: seq<string>, patches: seq<Patch>, r: RouteId)
    requires OneDirection(AllPlaces(descriptors)) && NoOverlap(AllPlaces(descriptors))
    requires AreBucketPatches(naming, AllPlaces(descriptors), order, patches)
    ensures multiset(ApplyAll(Replace, r, patches).limits) ==
      multiset(Map(LimitOn(naming), Covering(AllPlaces(descriptors), r)))
  {
    var places := AllPlaces(descriptors);
    ReplaceKeepsLast(naming, places, order, patches, r);
    LastLiveCovers(descriptors, order, r);
    MapMultiset(LimitOn(naming), LastLive(places, order, r), Covering(places, r));
  }

  /** If merging replaces the table of limits of a route, it is right on every route iff no two keys share a route. */
  lemma NoOverlapExactly(naming: Naming, descriptors: seq<Descriptor>, order: seq<string>, patches: seq<Patch>)
    requires OneDirection(AllPlaces(descriptors))
    requires AreBucketPatches(naming, AllPlaces(descriptors), order, patches)
    ensures LimitsFaithful(naming, AllPlaces(descriptors), patches) <==> NoOverlap(AllPlaces(descriptors))
  {
    var places := AllPlaces(descriptors);
    if NoOverlap(places) {
      forall r
        ensures multiset(ApplyAll(Replace, r, patches).limits) == multiset(Map(LimitOn(naming), Covering(places, r)))
      {
        TableOnRoute(naming, descriptors, order, patches, r);
      }
    } else {
      var p, q :| p in places && q in places && Overlapping(p.rc, q.rc)
        && Key(p.rc) != Key(q.rc);
      LostLimit(naming, descriptors, order, patches, p, q);
    }
  }

  /**
   A limit for any port and a limit for one port share that port's route: the case in which replacing loses limits.
   */
  lemma AnyPortOverlapsPort(descriptors: seq<Descriptor>, d: Descriptor, e: Descriptor)
    requires d in descriptors && e in descriptors
    requires d.target.None? && e.target.Some? && e.target.value.routes == [] && e.target.value.port != 0
    ensures !NoOverlap(AllPlaces(descriptors))
  {
    var p, q := Placed(d, RouteConfigs(d.target)[0]), Placed(e, RouteConfigs(e.target)[0]);
    PlacedFrom(descriptors, p);
    PlacedFrom(descriptors, q);
    assert Overlapping(p.rc, q.rc);
    DefaultKeysTellPorts(Target("", 0, [], []), e.target.value);
    assert RouteConfigs(d.target) == RouteConfigs(Some(Target("", 0, [], [])));
  }

  lemma {:induction false} ReplaceAfterOthers(r: RouteId, a: seq<Patch>, b: seq<Patch>)
    requires forall i :: 0 <= i < |a| ==> !a[i].RouteBuckets?
    ensures ApplyAll(Replace, r, a + b).limits == ApplyAll(Replace, r, b).limits
    decreases |a| + |b|
  {
    if b != [] {
      var n := |b| - 1;
      assert (a + b)[..|a + b| - 1] == a + b[..n];
      ReplaceAfterOthers(r, a, b[..n]);
    } else if a != [] {
      var n := |a| - 1;
      assert (a + b)[..|a + b| - 1] == a[..n] + [];
      ReplaceAfterOthers(r, a[..n], []);
    }
  }

  /**
   Where no two keys of local limits share a route, meaning is preserved even if merging replaces the table of limits.
   */
  lemma ReplacingPreservesMeaning(naming: Naming, re: Regex, descriptors: seq<Descriptor>, rls: string,
      patches: seq<Patch>, r: RouteId, headers: Headers)
    requires IsCompiled(naming, descriptors, rls, patches)
    requires DistinctNames(naming, descriptors) && NoCustom(descriptors) && OneDirection(AllPlaces(descriptors))
    requires NoOverlap(AllPlaces(Filter(IsLocal, descriptors)))
    ensures multiset(Consulted(re, headers, ApplyAll(Replace, r, patches))) ==
      multiset(Map(LimitOn(naming), Wanted(re, descriptors, r, headers)))
  {
    var actionPatches, actionOrder, bucketPatches, bucketOrder :|
      IsCompiledFrom(naming, descriptors, rls, patches, actionPatches, actionOrder, bucketPatches, bucketOrder);
    ApplyAllActions(Replace, r, patches);
    CompiledRoute(naming, descriptors, rls, patches, r);
    LimitsAfterReplacing(naming, descriptors, rls, patches, actionPatches, actionOrder, bucketPatches, bucketOrder, r);
    ConsultedOf(naming, re, headers, descriptors, r, ApplyAll(Replace, r, patches));
    SharedIsWanted(naming, re, descriptors, r, headers);
  }

  lemma LimitsAfterReplacing(naming: Naming, descriptors: seq<Descriptor>, rls: string, patches: seq<Patch>,
      actionPatches: seq<Patch>, actionOrder: seq<string>, bucketPatches: seq<Patch>, bucketOrder: seq<string>,
      r: RouteId)
    requires IsCompiledFrom(naming, descriptors, rls, patches, actionPatches, actionOrder, bucketPatches, bucketOrder)
    requires OneDirection(AllPlaces(descriptors)) && NoOverlap(AllPlaces(Filter(IsLocal, descriptors)))
    ensures multiset(ApplyAll(Replace, r, patches).limits) ==
      multiset(Map(LimitOn(naming), Covering(AllPlaces(Filter(IsLocal, descriptors)), r)))
  {
    ActionPatchKind(naming, AllPlaces(Routed(descriptors)), actionOrder, actionPatches);
    LastTable(r, actionPatches,
      if Filter(IsGlobal, descriptors) == [] then [] else [GlobalFilter(RateLimiterServerCluster(rls))],
      if Filter(IsLocal, descriptors) == [] then [] else [LocalFilter],
      bucketPatches);
    LocalPlaces(descriptors);
    TableOnRoute(naming, Filter(IsLocal, descriptors), bucketOrder, bucketPatches, r);
  }

  lemma LastTable(r: RouteId, a: seq<Patch>, b: seq<Patch>, c: seq<Patch>, d: seq<Patch>)
    requires forall i :: 0 <= i < |a| ==> a[i].RouteActions?
    requires forall i :: 0 <= i < |b| ==> b[i].GlobalFilter?
    requires forall i :: 0 <= i < |c| ==> c[i].LocalFilter?
    ensures ApplyAll(Replace, r, a + b + c + d).limits == ApplyAll(Replace, r, d).limits
  {
    ReplaceAfterOthers(r, a + b + c, d);
  }

  // ----- The filters of the proxy -----

  predicate HasStrategy(d: Descriptor, global: bool) {
    d.action.Some? && (d.action.value.strategy == "global") == global
  }

  /**
   The global filter is put in exactly if some limit is global, and asks the service that the spec names, or the one
   that comes with the installation; the local filter exactly if some limit is local.
   */
  lemma FiltersEnabled(naming: Naming, descriptors: seq<Descriptor>, rls: string, patches: seq<Patch>)
    requires IsCompiled(naming, descriptors, rls, patches)
    ensures (exists i :: 0 <= i < |patches| && patches[i].GlobalFilter?) <==>
      exists d :: d in descriptors && HasStrategy(d, true)
    ensures (exists i :: 0 <= i < |patches| && patches[i].LocalFilter?) <==>
      exists d :: d in descriptors && HasStrategy(d, false)
    ensures forall i :: 0 <= i < |patches| && patches[i].GlobalFilter? ==>
      patches[i].server == if rls != "" then rls else "outbound|18081||rate-limit.istio-system.svc.cluster.local"
  {
    hide AreActionPatches, AreBucketPatches, AllPlaces;
    var a: seq<Patch>, aOrder: seq<string>, b: seq<Patch>, bOrder: seq<string> :|
      IsCompiledFrom(naming, descriptors, rls, patches, a, aOrder, b, bOrder);
    KindsOfParts(naming, descriptors, a, aOrder, b, bOrder);
    SomeOfStrategy(descriptors);
    FiltersBetween(a,
      if Filter(IsGlobal, descriptors) == [] then [] else [GlobalFilter(RateLimiterServerCluster(rls))],
      if Filter(IsLocal, descriptors) == [] then [] else [LocalFilter],
      b);
  }

  lemma KindsOfParts(naming: Naming, descriptors: seq<Descriptor>, a: seq<Patch>, aOrder: seq<string>, b: seq<Patch>,
      bOrder: seq<string>)
    requires AreActionPatches(naming, AllPlaces(Routed(descriptors)), aOrder, a)
    requires AreBucketPatches(naming, AllPlaces(Filter(IsLocal, descriptors)), bOrder, b)
    ensures forall i :: 0 <= i < |a| ==> a[i].RouteActions?
    ensures forall i :: 0 <= i < |b| ==> b[i].RouteBuckets?
  {
    ActionPatchKind(naming, AllPlaces(Routed(descriptors)), aOrder, a);
    BucketPatchKind(naming, AllPlaces(Filter(IsLocal, descriptors)), bOrder, b);
  }

  lemma SomeOfStrategy(descriptors: seq<Descriptor>)
    ensures Filter(IsGlobal, descriptors) != [] <==> exists d :: d in descriptors && HasStrategy(d, true)
    ensures Filter(IsLocal, descriptors) != [] <==> exists d :: d in descriptors && HasStrategy(d, false)
  {
    var global, local := Filter(IsGlobal, descriptors), Filter(IsLocal, descriptors);
    InFilter(IsGlobal, descriptors);
    InFilter(IsLocal, descriptors);
    if global != [] {
      assert global[0] in global && HasStrategy(global[0], true);
    }
    if local != [] {
      assert local[0] in local && HasStrategy(local[0], false);
    }
  }

  lemma FiltersBetween(a: seq<Patch>, b: seq<Patch>, c: seq<Patch>, d: seq<Patch>)
    requires forall i :: 0 <= i < |a| ==> a[i].RouteActions?
    requires |b| <= 1 && forall i :: 0 <= i < |b| ==> b[i].GlobalFilter?
    requires |c| <= 1 && forall i :: 0 <= i < |c| ==> c[i].LocalFilter?
    requires forall i :: 0 <= i < |d| ==> d[i].RouteBuckets?
    ensures var all := a + b + c + d;
      && ((exists i :: 0 <= i < |all| && all[i].GlobalFilter?) <==> b != [])
      && ((exists i :: 0 <= i < |all| && all[i].LocalFilter?) <==> c != [])
      && forall i :: 0 <= i < |all| && all[i].GlobalFilter? ==> b != [] && all[i] == b[0]
  {
    var all := a + b + c + d;
    if b != [] {
      assert all[|a|] == b[0];
    }
    if c != [] {
      assert all[|a + b|] == c[0];
    }
  }
}
