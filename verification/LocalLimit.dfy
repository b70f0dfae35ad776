/** Route actions and local rate limits: what is generated for a limit, and how limits of one route share a patch. */
module LocalLimit {
  import opened Seqs
  import opened Grouping
  import opened Limiter
  import opened Descriptors
  import opened Routes
  import opened RateLimits

  datatype Specifier =
    | SafeRegex(regex: string)
    | Exact(value: string)
    | Prefix(prefix: string)
    | Suffix(suffix: string)
    | Present(present: bool)

  datatype HeaderSpec = HeaderSpec(name: string, invert: bool, specifier: Specifier)

  datatype RouteAction =
    | GenericKey(descriptorValue: string)
    | HeaderValueMatch(descriptorValue: string, headers: seq<HeaderSpec>)

  datatype LocalDescriptor = LocalDescriptor(key: string, value: string, bucket: TokenBucket)

  /** The routes a patch applies to. */
  datatype RouteMatch = RouteMatch(context: Context, vhost: string, route: string)

  datatype Patch =
    | RouteActions(at: RouteMatch, actions: seq<RouteAction>)
    | RouteBuckets(at: RouteMatch, limits: seq<LocalDescriptor>)
    | GlobalFilter(server: string)
    | LocalFilter

  function HeaderSpecOf(m: HeaderMatcher): HeaderSpec {
    HeaderSpec(m.name, m.invertMatch,
      if m.regexMatch != "" then SafeRegex(m.regexMatch)
      else if m.exactMatch != "" then Exact(m.exactMatch)
      else if m.prefixMatch != "" then Prefix(m.prefixMatch)
      else if m.suffixMatch != "" then Suffix(m.suffixMatch)
      else if m.isExactMatchEmpty then Exact(m.exactMatch)
      else Present(m.presentMatch))
  }

  function RouteActionOf(naming: Naming, d: Descriptor): RouteAction {
    if d.matches == [] then GenericKey(naming(d))
    else HeaderValueMatch(naming(d), Map(HeaderSpecOf, d.matches))
  }

  function LocalDescriptorOf(naming: Naming, d: Descriptor): LocalDescriptor
    requires d.action.Some?
  {
    var bucket := BucketOf(d.action.value);
    if IsCustom(d) then LocalDescriptor(d.customKey, d.customValue, bucket)
    else LocalDescriptor(DescriptorKey(d), naming(d), bucket)
  }

  /** Every limit of the list says what to do. */
  predicate HaveActions(descriptors: seq<Descriptor>) {
    forall i :: 0 <= i < |descriptors| ==> descriptors[i].action.Some?
  }

  function RouteMatchOf(rc: RouteConfig): RouteMatch {
    RouteMatch(ContextOf(rc.direction), rc.vhost, rc.route)
  }

  /** No action is generated for a limit with a custom key. */
  method GenerateRouteRateLimitAction(naming: Naming, d: Descriptor) returns (action: Option<RouteAction>)
    ensures action == if IsCustom(d) then None else Some(RouteActionOf(naming, d))
    ensures action.None? <==> d.customKey != "" && d.customValue != ""
  {
    if d.customKey != "" && d.customValue != "" {
      action := None;
    } else if |d.matches| == 0 {
      action := Some(GenericKey(naming(d)));
    } else {
      var headers: seq<HeaderSpec> := [];
      for i := 0 to |d.matches|
        invariant headers == Map(HeaderSpecOf, d.matches[..i])
      {
        assert d.matches[..i + 1] == d.matches[..i] + [d.matches[i]];
        headers := headers + [HeaderSpecOf(d.matches[i])];
      }
      assert d.matches[..|d.matches|] == d.matches;
      action := Some(HeaderValueMatch(naming(d), headers));
    }
  }

  // ----- Grouping -----

  /** One limit on one of its routes. */
  datatype Placed = Placed(d: Descriptor, rc: RouteConfig)

  function Places(d: Descriptor): seq<Placed> {
    Map(rc => Placed(d, rc), RouteConfigs(d.target))
  }

  function AllPlaces(descriptors: seq<Descriptor>): seq<Placed> {
    FlatMap(Places, descriptors)
  }

  predicate HasAction(d: Descriptor) {
    !IsCustom(d)
  }

  /** The limits that get a route action. */
  function Routed(descriptors: seq<Descriptor>): seq<Descriptor> {
    Filter(HasAction, descriptors)
  }

  function LimitOf(p: Placed): Descriptor {
    p.d
  }

  function RouteOf(p: Placed): RouteConfig {
    p.rc
  }

  /** What the action pass enters into its map for a placed limit: the route config with its action set. */
  ghost function WithAction(naming: Naming): Placed -> (RouteConfig, RouteAction) {
    (p: Placed) => (p.rc, RouteActionOf(naming, p.d))
  }

  function PlaceKey(p: Placed): string {
    Key(p.rc)
  }

  function Keys(places: seq<Placed>): set<string> {
    KeySet(PlaceKey, places)
  }

  /** What is placed on the routes with one key, in order. */
  function Group(places: seq<Placed>, key: string): seq<Placed> {
    GroupOf(PlaceKey, places, key)
  }

  /** The keys of a map in the order in which a loop happens to visit them. */
  ghost predicate IsOrderOf(order: seq<string>, keys: set<string>) {
    Distinct(order) && forall key :: key in order <==> key in keys
  }

  lemma OrderSnoc(order: seq<string>, keys: set<string>, remaining: set<string>, key: string)
    requires IsOrderOf(order, keys - remaining) && key in remaining && remaining <= keys
    ensures IsOrderOf(order + [key], keys - (remaining - {key}))
  {
    assert keys - (remaining - {key}) == keys - remaining + {key};
  }

  ghost predicate IsActionPatch(naming: Naming, places: seq<Placed>, key: string, patch: Patch) {
    var group := Group(places, key);
    && group != []
    && patch == RouteActions(RouteMatchOf(group[0].rc), Map((p: Placed) => RouteActionOf(naming, p.d), group))
  }

  ghost predicate IsBucketPatch(naming: Naming, places: seq<Placed>, key: string, patch: Patch) {
    var group := Group(places, key);
    && group != []
    && patch.RouteBuckets?
    && patch.at == RouteMatchOf(group[0].rc)
    && |patch.limits| == |group|
    && forall i :: 0 <= i < |group| ==>
      group[i].d.action.Some? && patch.limits[i] == LocalDescriptorOf(naming, group[i].d)
  }

  ghost predicate ActionPatches(naming: Naming, places: seq<Placed>, order: seq<string>, patches: seq<Patch>) {
    && |patches| == |order|
    && forall i :: 0 <= i < |order| ==> IsActionPatch(naming, places, order[i], patches[i])
  }

  ghost predicate BucketPatches(naming: Naming, places: seq<Placed>, order: seq<string>, patches: seq<Patch>) {
    && |patches| == |order|
    && forall i :: 0 <= i < |order| ==> IsBucketPatch(naming, places, order[i], patches[i])
  }

  lemma PatchesSnoc(naming: Naming, places: seq<Placed>, order: seq<string>, patches: seq<Patch>, key: string,
      patch: Patch)
    ensures ActionPatches(naming, places, order, patches) && IsActionPatch(naming, places, key, patch) ==>
      ActionPatches(naming, places, order + [key], patches + [patch])
    ensures BucketPatches(naming, places, order, patches) && IsBucketPatch(naming, places, key, patch) ==>
      BucketPatches(naming, places, order + [key], patches + [patch])
  {
  }

  /** One patch with route actions per key, in some order of the keys. */
  ghost predicate AreActionPatches(naming: Naming, places: seq<Placed>, order: seq<string>, patches: seq<Patch>) {
    && IsOrderOf(order, Keys(places))
    && ActionPatches(naming, places, order, patches)
  }

  ghost predicate AreBucketPatches(naming: Naming, places: seq<Placed>, order: seq<string>, patches: seq<Patch>) {
    && IsOrderOf(order, Keys(places))
    && BucketPatches(naming, places, order, patches)
  }

  /** Enters one value for every route of a limit. */
  method InsertAll<V>(groups: map<string, seq<V>>, ghost f: Placed -> V, ghost before: seq<Placed>, ghost d: Descriptor,
      rcs: seq<RouteConfig>, values: seq<V>)
    returns (more: map<string, seq<V>>)
    requires groups == GroupBy(PlaceKey, f, before)
    requires rcs == RouteConfigs(d.target) && |values| == |rcs|
    requires forall i :: 0 <= i < |rcs| ==> values[i] == f(Placed(d, rcs[i]))
    ensures more == GroupBy(PlaceKey, f, before + Places(d))
  {
    hide GroupBy, Insert;
    more := groups;
    ghost var mine := Places(d);
    assert before + mine[..0] == before;
    for j := 0 to |rcs|
      invariant more == GroupBy(PlaceKey, f, before + mine[..j])
    {
      assert before + mine[..j + 1] == before + mine[..j] + [mine[j]];
      GroupBySnoc(PlaceKey, f, before + mine[..j], mine[j]);
      assert mine[j] == Placed(d, rcs[j]);
      more := InsertOne(more, Key(rcs[j]), values[j]);
    }
    assert mine[..|rcs|] == mine;
  }

  lemma AllPlacesSnoc(descriptors: seq<Descriptor>, d: Descriptor)
    ensures AllPlaces(descriptors + [d]) == AllPlaces(descriptors) + Places(d)
  {
    FlatMapAppend(Places, descriptors, [d]);
    assert FlatMap(Places, [d]) == Places(d);
  }

  lemma RoutedSnoc(descriptors: seq<Descriptor>, i: nat)
    requires i < |descriptors|
    ensures var before, after := AllPlaces(Routed(descriptors[..i])), AllPlaces(Routed(descriptors[..i + 1]));
      after == if IsCustom(descriptors[i]) then before else before + Places(descriptors[i])
  {
    var before := Routed(descriptors[..i]);
    FilterSnoc(HasAction, descriptors, i);
    if IsCustom(descriptors[i]) {
      assert before + [] == before;
    } else {
      AllPlacesSnoc(before, descriptors[i]);
    }
  }

  function WithSameAction(rcs: seq<RouteConfig>, action: RouteAction): (r: seq<(RouteConfig, RouteAction)>)
    ensures |r| == |rcs|
    ensures forall i :: 0 <= i < |rcs| ==> r[i] == (rcs[i], action)
  {
    seq(|rcs|, i requires 0 <= i < |rcs| => (rcs[i], action))
  }

  /** Enters one limit in the action pass: every route of it with the action, or nothing if it has none. */
  method AddRouteActions(naming: Naming, groups: map<string, seq<(RouteConfig, RouteAction)>>,
      ghost before: seq<Placed>, d: Descriptor)
    returns (more: map<string, seq<(RouteConfig, RouteAction)>>)
    requires groups == GroupBy(PlaceKey, WithAction(naming), before)
    ensures more == GroupBy(PlaceKey, WithAction(naming), if IsCustom(d) then before else before + Places(d))
  {
    var rcs := GenerateRouteConfigs(d.target);
    var action := GenerateRouteRateLimitAction(naming, d);
    if action.None? {
      return groups;
    }
    var routeConfigs := WithSameAction(rcs, action.value);
    assert forall i :: 0 <= i < |rcs| ==> routeConfigs[i] == WithAction(naming)(Placed(d, rcs[i]));
    more := InsertAll(groups, WithAction(naming), before, d, rcs, routeConfigs);
  }

  method CollectRouteActions(naming: Naming, descriptors: seq<Descriptor>)
    returns (groups: map<string, seq<(RouteConfig, RouteAction)>>)
    ensures groups == GroupBy(PlaceKey, WithAction(naming), AllPlaces(Routed(descriptors)))
  {
    groups := map[];
    for i := 0 to |descriptors|
      invariant groups == GroupBy(PlaceKey, WithAction(naming), AllPlaces(Routed(descriptors[..i])))
    {
      RoutedSnoc(descriptors, i);
      groups := AddRouteActions(naming, groups, AllPlaces(Routed(descriptors[..i])), descriptors[i]);
    }
    assert descriptors[..|descriptors|] == descriptors;
  }

  method GenerateHttpRouterPatch(naming: Naming, descriptors: seq<Descriptor>)
    returns (patches: seq<Patch>, ghost order: seq<string>)
    ensures AreActionPatches(naming, AllPlaces(Routed(descriptors)), order, patches)
  {
    ghost var places := AllPlaces(Routed(descriptors));
    var groups := CollectRouteActions(naming, descriptors);
    GroupByIsFilter(PlaceKey, WithAction(naming), places);
    patches, order := [], [];
    var remaining := groups.Keys;
    while remaining != {}
      invariant remaining <= Keys(places)
      invariant IsOrderOf(order, Keys(places) - remaining)
      invariant ActionPatches(naming, places, order, patches)
    {
      var key :| key in remaining;
      GroupNotEmpty(PlaceKey, places, key);
      var patch := RouteActionPatch(naming, places, key, groups[key]);
      PatchesSnoc(naming, places, order, patches, key, patch);
      patches := patches + [patch];
      OrderSnoc(order, Keys(places), remaining, key);
      order := order + [key];
      remaining := remaining - {key};
    }
  }

  method RouteActionPatch(naming: Naming, ghost places: seq<Placed>, ghost key: string,
      rcs: seq<(RouteConfig, RouteAction)>)
    returns (patch: Patch)
    requires Group(places, key) != []
    requires rcs == Map(WithAction(naming), Group(places, key))
    ensures IsActionPatch(naming, places, key, patch)
  {
    var rateLimits: seq<RouteAction> := [];
    for i := 0 to |rcs|
      invariant |rateLimits| == i
      invariant forall j :: 0 <= j < i ==> rateLimits[j] == rcs[j].1
    {
      rateLimits := rateLimits + [rcs[i].1];
    }
    patch := RouteActions(RouteMatchOf(rcs[0].0), rateLimits);
  }

  /**
   The two maps of the local pass have the same keys and, under each, as many members: the first route config exists.
   */
  method CollectLocalLimits(descriptors: seq<Descriptor>)
    returns (limits: map<string, seq<Descriptor>>, routes: map<string, seq<RouteConfig>>)
    ensures limits == GroupBy(PlaceKey, LimitOf, AllPlaces(descriptors))
    ensures routes == GroupBy(PlaceKey, RouteOf, AllPlaces(descriptors))
    ensures limits.Keys == routes.Keys
    ensures forall key :: key in limits ==> |limits[key]| == |routes[key]| > 0
  {
    limits, routes := map[], map[];
    for i := 0 to |descriptors|
      invariant limits == GroupBy(PlaceKey, LimitOf, AllPlaces(descriptors[..i]))
      invariant routes == GroupBy(PlaceKey, RouteOf, AllPlaces(descriptors[..i]))
    {
      var d := descriptors[i];
      assert descriptors[..i + 1] == descriptors[..i] + [d];
      AllPlacesSnoc(descriptors[..i], d);
      var rcs := GenerateRouteConfigs(d.target);
      limits := InsertAll(limits, LimitOf, AllPlaces(descriptors[..i]), d, rcs, Map(rc => d, rcs));
      routes := InsertAll(routes, RouteOf, AllPlaces(descriptors[..i]), d, rcs, rcs);
    }
    assert descriptors[..|descriptors|] == descriptors;
    GroupByIsFilter(PlaceKey, LimitOf, AllPlaces(descriptors));
    GroupByIsFilter(PlaceKey, RouteOf, AllPlaces(descriptors));
    forall key | key in limits
      ensures |limits[key]| == |routes[key]| > 0
    {
      GroupNotEmpty(PlaceKey, AllPlaces(descriptors), key);
    }
  }

  method GenerateLocalRateLimitPerFilterPatch(naming: Naming, descriptors: seq<Descriptor>)
    returns (patches: seq<Patch>, ghost order: seq<string>)
    requires HaveActions(descriptors)
    ensures AreBucketPatches(naming, AllPlaces(descriptors), order, patches)
  {
    var limits, routes := CollectLocalLimits(descriptors);
    GroupByIsFilter(PlaceKey, LimitOf, AllPlaces(descriptors));
    GroupByIsFilter(PlaceKey, RouteOf, AllPlaces(descriptors));
    forall key | key in limits
      ensures HaveActions(limits[key])
    {
      GroupLimits(descriptors, key, limits[key]);
    }
    patches, order := EmitBucketPatches(naming, AllPlaces(descriptors), limits, routes);
  }

  method EmitBucketPatches(naming: Naming, ghost places: seq<Placed>,
      limits: map<string, seq<Descriptor>>, routes: map<string, seq<RouteConfig>>)
    returns (patches: seq<Patch>, ghost order: seq<string>)
    requires limits.Keys == routes.Keys == Keys(places)
    requires forall key :: key in limits ==> limits[key] == Map(LimitOf, Group(places, key))
    requires forall key :: key in limits ==> routes[key] == Map(RouteOf, Group(places, key))
    requires forall key :: key in limits ==> HaveActions(limits[key])
    ensures AreBucketPatches(naming, places, order, patches)
  {
    patches, order := [], [];
    var remaining := limits.Keys;
    while remaining != {}
      invariant remaining <= Keys(places)
      invariant IsOrderOf(order, Keys(places) - remaining)
      invariant BucketPatches(naming, places, order, patches)
    {
      var key :| key in remaining;
      GroupNotEmpty(PlaceKey, places, key);
      var patch := RouteBucketPatch(naming, places, key, limits[key], routes[key]);
      PatchesSnoc(naming, places, order, patches, key, patch);
      patches := patches + [patch];
      OrderSnoc(order, Keys(places), remaining, key);
      order := order + [key];
      remaining := remaining - {key};
    }
  }

  method GenerateLocalRateLimitDescriptors(naming: Naming,
      descriptors: seq<Descriptor>)
    returns (limits: seq<LocalDescriptor>)
    requires HaveActions(descriptors)
    ensures |limits| == |descriptors|
    ensures forall i :: 0 <= i < |descriptors| ==> limits[i] == LocalDescriptorOf(naming, descriptors[i])
  {
    limits := [];
    for i := 0 to |descriptors|
      invariant |limits| == i
      invariant forall j :: 0 <= j < i ==> limits[j] == LocalDescriptorOf(naming, descriptors[j])
    {
      limits := limits + [LocalDescriptorOf(naming, descriptors[i])];
    }
  }

  method RouteBucketPatch(naming: Naming, ghost places: seq<Placed>, ghost key: string,
      desc: seq<Descriptor>, rcs: seq<RouteConfig>)
    returns (patch: Patch)
    requires Group(places, key) != []
    requires HaveActions(desc)
    requires desc == Map(LimitOf, Group(places, key))
    requires rcs == Map(RouteOf, Group(places, key))
    ensures IsBucketPatch(naming, places, key, patch)
  {
    var local := GenerateLocalRateLimitDescriptors(naming, desc);
    patch := RouteBuckets(RouteMatchOf(rcs[0]), local);
  }

  /** The cluster of the rate-limit service, unless the spec names another. */
  function RateLimiterServerCluster(rls: string): string {
    if rls == "" then RATE_LIMIT_SERVICE else rls
  }

  /** The patches for a list of limits: route actions for all, then what enables the global and the local filter. */
  ghost predicate IsCompiled(naming: Naming, descriptors: seq<Descriptor>, rls: string, patches: seq<Patch>) {
    exists actionPatches, actionOrder, bucketPatches, bucketOrder ::
      IsCompiledFrom(naming, descriptors, rls, patches, actionPatches, actionOrder, bucketPatches, bucketOrder)
  }

  ghost predicate IsCompiledFrom(naming: Naming, descriptors: seq<Descriptor>, rls: string, patches: seq<Patch>,
      actionPatches: seq<Patch>, actionOrder: seq<string>, bucketPatches: seq<Patch>, bucketOrder: seq<string>) {
    && AreActionPatches(naming, AllPlaces(Routed(descriptors)), actionOrder, actionPatches)
    && AreBucketPatches(naming, AllPlaces(Filter(IsLocal, descriptors)), bucketOrder, bucketPatches)
    && patches == actionPatches
      + (if Filter(IsGlobal, descriptors) == [] then [] else [GlobalFilter(RateLimiterServerCluster(rls))])
      + (if Filter(IsLocal, descriptors) == [] then [] else [LocalFilter])
      + bucketPatches
  }

  /** What is placed is a limit of the list on a route of that limit, and the other way round. */
  lemma PlacedFrom(descriptors: seq<Descriptor>, p: Placed)
    ensures p in AllPlaces(descriptors) <==> p.d in descriptors && p.rc in RouteConfigs(p.d.target)
  {
    InFlatMap(Places, descriptors, p);
    if p in AllPlaces(descriptors) {
      var i :| 0 <= i < |descriptors| && p in Places(descriptors[i]);
    }
    if p.d in descriptors && p.rc in RouteConfigs(p.d.target) {
      var i :| 0 <= i < |descriptors| && descriptors[i] == p.d;
      var j :| 0 <= j < |RouteConfigs(p.d.target)| && RouteConfigs(p.d.target)[j] == p.rc;
      assert Places(p.d)[j] == p;
    }
  }

  lemma GroupLimits(descriptors: seq<Descriptor>, key: string, limits: seq<Descriptor>)
    requires HaveActions(descriptors)
    requires limits == Map(LimitOf, Group(AllPlaces(descriptors), key))
    ensures HaveActions(limits)
  {
    var group := Group(AllPlaces(descriptors), key);
    InGroup(PlaceKey, AllPlaces(descriptors), key);
    forall i | 0 <= i < |limits|
      ensures limits[i].action.Some?
    {
      assert group[i] in group;
      PlacedFrom(descriptors, group[i]);
    }
  }

  /** All members of a group have the virtual host and the route that the group's patch is addressed to. */
  lemma GroupSharesRoute(descriptors: seq<Descriptor>, key: string, p: Placed, q: Placed)
    requires p in Group(AllPlaces(descriptors), key) && q in Group(AllPlaces(descriptors), key)
    ensures p.rc.vhost == q.rc.vhost && p.rc.route == q.rc.route
  {
    InGroup(PlaceKey, AllPlaces(descriptors), key);
    PlacedFrom(descriptors, p);
    PlacedFrom(descriptors, q);
    KeyInjective(p.d.target, q.d.target, p.rc, q.rc);
  }
}
