/**
 What the generated patches do to a request, and that this is what the limits ask for.

 A patch applies to the routes its match covers, an empty name in a match covering every name. MERGE appends to the
 repeated field of route actions. The table of local limits is an entry of a map field; Append and Replace are the two
 ways in which patches of one route can be merged into it.
 */
module Meaning {
  import opened Seqs
  import opened Grouping
  import opened Text
  import opened Limiter
  import opened Descriptors
  import opened Routes
  import opened RateLimits
  import opened LocalLimit

  datatype RouteId = RouteId(context: Context, vhost: string, route: string)

  type Headers = map<string, string>

  /** Whether a regular expression accepts a value. */
  type Regex = (string, string) -> bool

  datatype MergeMode = Append | Replace

  datatype RouteState = RouteState(actions: seq<RouteAction>, limits: seq<LocalDescriptor>)

  predicate Applies(at: RouteMatch, r: RouteId) {
    && at.context == r.context
    && (at.vhost == "" || at.vhost == r.vhost)
    && (at.route == "" || at.route == r.route)
  }

  function ActionsAt(r: RouteId, p: Patch): seq<RouteAction> {
    if p.RouteActions? && Applies(p.at, r) then p.actions else []
  }

  function LimitsAt(r: RouteId, p: Patch): seq<LocalDescriptor> {
    if p.RouteBuckets? && Applies(p.at, r) then p.limits else []
  }

  function Apply(mode: MergeMode, r: RouteId, st: RouteState, p: Patch): RouteState {
    RouteState(
      st.actions + ActionsAt(r, p),
      if !p.RouteBuckets? || !Applies(p.at, r) then st.limits
      else if mode == Append then st.limits + p.limits
      else p.limits)
  }

  /** The route after all patches. */
  function ApplyAll(mode: MergeMode, r: RouteId, patches: seq<Patch>): RouteState {
    if patches == [] then
      RouteState([], [])
    else
      Apply(mode, r, ApplyAll(mode, r, patches[..|patches| - 1]), patches[|patches| - 1])
  }

  // ----- A request on the patched route -----

  predicate StartsWith(prefix: string, value: string) {
    prefix <= value
  }

  predicate HeaderHolds(re: Regex, h: HeaderSpec, headers: Headers) {
    match h.specifier
    case Present(present) => ((h.name in headers) == present) != h.invert
    case SafeRegex(regex) => h.name in headers && re(regex, headers[h.name]) != h.invert
    case Exact(value) => h.name in headers && (headers[h.name] == value) != h.invert
    case Prefix(prefix) => h.name in headers && StartsWith(prefix, headers[h.name]) != h.invert
    case Suffix(suffix) => h.name in headers && IsSuffix(suffix, headers[h.name]) != h.invert
  }

  /** The descriptor entry an action produces for a request, if it produces one. */
  function Emit(re: Regex, headers: Headers, a: RouteAction): Option<(string, string)> {
    match a
    case GenericKey(value) => Some(("generic_key", value))
    case HeaderValueMatch(value, specs) =>
      if forall i :: 0 <= i < |specs| ==> HeaderHolds(re, specs[i], headers) then
        Some(("header_match", value))
      else
        None
  }

  /** A local limit is consulted when some action of the route produces its entry. */
  predicate IsConsulted(re: Regex, headers: Headers, actions: seq<RouteAction>, limit: LocalDescriptor) {
    exists i :: 0 <= i < |actions| && Emit(re, headers, actions[i]) == Some((limit.key, limit.value))
  }

  function Consulted(re: Regex, headers: Headers, st: RouteState): seq<LocalDescriptor> {
    Filter((l: LocalDescriptor) => IsConsulted(re, headers, st.actions, l), st.limits)
  }

  // ----- What the limits ask for -----

  /** The side of a sidecar on which a limit works: outbound if it says so, inbound in every other case. */
  function SideOf(rc: RouteConfig): Context {
    if rc.direction == "outbound" then SidecarOutbound else SidecarInbound
  }

  /** A limit covers the routes on its side that have its virtual host and its route, an empty name being any. */
  predicate Covers(r: RouteId, rc: RouteConfig) {
    && (r.context == SidecarOutbound <==> rc.direction == "outbound")
    && (rc.vhost == "" || rc.vhost == r.vhost)
    && (rc.route == "" || rc.route == r.route)
  }

  /** The test on a header's value: the first field that is set, of regex, exact, prefix and suffix. */
  predicate ValueTest(re: Regex, m: HeaderMatcher, value: string) {
    if m.regexMatch != "" then re(m.regexMatch, value)
    else if m.exactMatch != "" then value == m.exactMatch
    else if m.prefixMatch != "" then m.prefixMatch <= value
    else if m.suffixMatch != "" then IsSuffix(m.suffixMatch, value)
    else value == ""
  }

  predicate TestsValue(m: HeaderMatcher) {
    m.regexMatch != "" || m.exactMatch != "" || m.prefixMatch != "" || m.suffixMatch != "" || m.isExactMatchEmpty
  }

  /** Without a test on the value a matcher asks whether the header is there; inversion turns the answer round. */
  predicate MatcherHolds(re: Regex, m: HeaderMatcher, headers: Headers) {
    if TestsValue(m) then m.name in headers && ValueTest(re, m, headers[m.name]) != m.invertMatch
    else ((m.name in headers) == m.presentMatch) != m.invertMatch
  }

  predicate MatchesAll(re: Regex, headers: Headers, d: Descriptor) {
    forall i :: 0 <= i < |d.matches| ==> MatcherHolds(re, d.matches[i], headers)
  }

  /** The places of a list on one route. */
  function Covering(places: seq<Placed>, r: RouteId): seq<Placed> {
    Filter((p: Placed) => Covers(r, p.rc), places)
  }

  /** The local limits that apply to a request: on a route the limit covers, with all its matchers true. */
  function Wanted(re: Regex, descriptors: seq<Descriptor>, r: RouteId, headers: Headers): seq<Placed> {
    Filter((p: Placed) => MatchesAll(re, headers, p.d), Covering(AllPlaces(Filter(IsLocal, descriptors)), r))
  }

  ghost function LimitOn(naming: Naming): Placed -> LocalDescriptor {
    (p: Placed) =>
      if p.d.action.Some? then LocalDescriptorOf(naming, p.d)
      else LocalDescriptor("", "", TokenBucket(0, 0, Duration(0, 0)))
  }

  ghost function ActionOn(naming: Naming): Placed -> RouteAction {
    (p: Placed) => RouteActionOf(naming, p.d)
  }

  /** No two limits of a list have one name. */
  ghost predicate DistinctNames(naming: Naming, descriptors: seq<Descriptor>) {
    forall d, e :: d in descriptors && e in descriptors && naming(d) == naming(e) ==> d == e
  }

  /** Limits that share a route key share a direction. */
  ghost predicate OneDirection(places: seq<Placed>) {
    forall p, q :: p in places && q in places && Key(p.rc) == Key(q.rc) ==>
      SideOf(p.rc) == SideOf(q.rc)
  }

  /** Some route is covered by both. */
  predicate Overlapping(rc: RouteConfig, other: RouteConfig) {
    && SideOf(rc) == SideOf(other)
    && (rc.vhost == "" || other.vhost == "" || rc.vhost == other.vhost)
    && (rc.route == "" || other.route == "" || rc.route == other.route)
  }

  /** No route is covered under two keys. */
  ghost predicate NoOverlap(places: seq<Placed>) {
    forall p, q :: p in places && q in places && Overlapping(p.rc, q.rc) ==>
      Key(p.rc) == Key(q.rc)
  }

  // ----- Routes -----

  /** The generated match applies to exactly the routes that the limit covers. */
  lemma MatchMeaning(rc: RouteConfig, r: RouteId)
    ensures Applies(RouteMatchOf(rc), r) <==> Covers(r, rc)
  {
  }

  /**
   A target that names no route covers the default inbound route of the virtual host of its port, or of every virtual
   host if it names no port.
   */
  lemma DefaultRouteMeaning(target: Option<Target>, r: RouteId)
    requires target.None? || target.value.routes == []
    ensures (exists rc :: rc in RouteConfigs(target) && Covers(r, rc)) <==>
      && r.context == SidecarInbound && r.route == "default"
      && (target.None? || target.value.port == 0 || r.vhost == "inbound|http|" + FormatInt(target.value.port))
  {
    var rc := RouteConfigs(target)[0];
    assert RouteConfigs(target) == [rc];
    var prefix := INBOUND + "|http|";
    assert prefix == "inbound|http|";
    assert Covers(r, rc) <==>
      r.context == SidecarInbound && r.route == "default" && (rc.vhost == "" || rc.vhost == r.vhost);
    assert rc in RouteConfigs(target);
  }

  /** A target that names routes covers exactly those, on its side. */
  lemma NamedRouteMeaning(target: Target, r: RouteId)
    requires target.routes != []
    ensures (exists rc :: rc in RouteConfigs(Some(target)) && Covers(r, rc)) <==>
      && (r.context == SidecarOutbound <==> target.direction == "outbound")
      && exists vhost, route ::
        && NamesRoute(target, vhost, route)
        && (vhost == "" || vhost == r.vhost) && (route == "" || route == r.route)
  {
    hide RouteConfigs, NamesRoute;
    if rc :| rc in RouteConfigs(Some(target)) && Covers(r, rc) {
      RouteNamed(target, rc);
    }
    if vhost, route :|
      && NamesRoute(target, vhost, route)
      && (vhost == "" || vhost == r.vhost) && (route == "" || route == r.route)
    {
      RouteNamed(target, RouteConfig(vhost, route, target.direction));
    }
  }

  // ----- Header matchers -----

  /** The generated header matcher holds exactly when the matcher of the limit does. */
  lemma HeaderMeaning(re: Regex, m: HeaderMatcher, headers: Headers)
    ensures HeaderHolds(re, HeaderSpecOf(m), headers) <==> MatcherHolds(re, m, headers)
  {
  }

  /** A limit's action names the limit exactly for the requests that match it. */
  lemma EmitMeaning(naming: Naming, re: Regex, headers: Headers, d: Descriptor)
    ensures Emit(re, headers, RouteActionOf(naming, d)) ==
      if MatchesAll(re, headers, d) then Some((DescriptorKey(d), naming(d))) else None
  {
    forall i | 0 <= i < |d.matches|
      ensures HeaderHolds(re, HeaderSpecOf(d.matches[i]), headers) <==> MatcherHolds(re, d.matches[i], headers)
    {
      HeaderMeaning(re, d.matches[i], headers);
    }
    if d.matches != [] {
      var specs := Map(HeaderSpecOf, d.matches);
      assert forall i :: 0 <= i < |specs| ==> specs[i] == HeaderSpecOf(d.matches[i]);
    }
  }

  // ----- What a route holds after all patches -----

  lemma {:induction false} ApplyAllActions(mode: MergeMode, r: RouteId, patches: seq<Patch>)
    ensures ApplyAll(mode, r, patches).actions == FlatMap((p: Patch) => ActionsAt(r, p), patches)
  {
    if patches != [] {
      var n := |patches| - 1;
      ApplyAllActions(mode, r, patches[..n]);
      FlatMapSnoc((p: Patch) => ActionsAt(r, p), patches, n);
      assert patches[..n + 1] == patches;
    }
  }

  lemma {:induction false} ApplyAllLimits(r: RouteId, patches: seq<Patch>)
    ensures ApplyAll(Append, r, patches).limits == FlatMap((p: Patch) => LimitsAt(r, p), patches)
  {
    if patches != [] {
      var n := |patches| - 1;
      ApplyAllLimits(r, patches[..n]);
      FlatMapSnoc((p: Patch) => LimitsAt(r, p), patches, n);
      assert patches[..n + 1] == patches;
      assert ApplyAll(Append, r, patches[..n]).limits + [] == ApplyAll(Append, r, patches[..n]).limits;
    }
  }

  /** The group of a key has a patch that applies to the route. */
  ghost predicate Live(places: seq<Placed>, key: string, r: RouteId) {
    Group(places, key) != [] && Covers(r, Group(places, key)[0].rc)
  }

  ghost function LiveGroup(places: seq<Placed>, r: RouteId, key: string): seq<Placed> {
    if Live(places, key, r) then Group(places, key) else []
  }

  /** What the patches of a list of keys attach to a route, as places. */
  ghost function Attached(places: seq<Placed>, order: seq<string>, r: RouteId): seq<Placed> {
    if order == [] then [] else LiveGroup(places, r, order[0]) + Attached(places, order[1..], r)
  }

  lemma LiveGroupCount(places: seq<Placed>, r: RouteId, key: string, p: Placed)
    ensures multiset(LiveGroup(places, r, key))[p] ==
      if key == Key(p.rc) && Live(places, key, r) then multiset(places)[p] else 0
  {
    hide Live, Filter, Key;
    FilterCount(HasKey(PlaceKey, key), places, p);
    assert PlaceKey(p) == Key(p.rc);
    assert HasKey(PlaceKey, key)(p) == (PlaceKey(p) == key);
    assert Group(places, key) == Filter(HasKey(PlaceKey, key), places);
  }

  lemma InHeadOrTail(order: seq<string>, key: string)
    requires Distinct(order) && order != []
    ensures key in order <==> key == order[0] || key in order[1..]
    ensures Distinct(order[1..]) && order[0] !in order[1..]
  {
  }

  /** A place is attached as often as it occurs if its group is live, and not at all otherwise. */
  lemma {:induction false} AttachedCount(places: seq<Placed>, order: seq<string>, r: RouteId, p: Placed)
    requires Distinct(order)
    ensures multiset(Attached(places, order, r))[p] ==
      if Key(p.rc) in order && Live(places, Key(p.rc), r) then multiset(places)[p] else 0
  {
    if order != [] {
      InHeadOrTail(order, Key(p.rc));
      AttachedCount(places, order[1..], r, p);
      LiveGroupCount(places, r, order[0], p);
    }
  }

  /** The patch of a group attaches the group's actions where the group is live. */
  lemma GroupActions(naming: Naming, places: seq<Placed>, key: string, patch: Patch, r: RouteId)
    requires IsActionPatch(naming, places, key, patch)
    ensures ActionsAt(r, patch) == Map(ActionOn(naming), LiveGroup(places, r, key))
  {
    hide Group, Applies, Covers, RouteMatchOf, RouteActionOf;
    MatchMeaning(Group(places, key)[0].rc, r);
  }

  /** And its buckets. */
  lemma GroupBuckets(naming: Naming, places: seq<Placed>, key: string, patch: Patch, r: RouteId)
    requires IsBucketPatch(naming, places, key, patch)
    ensures patch.RouteBuckets? && (Applies(patch.at, r) <==> Live(places, key, r))
    ensures patch.limits == Map(LimitOn(naming), Group(places, key))
  {
    hide Group, Applies, Covers, RouteMatchOf, LocalDescriptorOf;
    MatchMeaning(Group(places, key)[0].rc, r);
  }

  lemma {:induction false} AttachedActions(naming: Naming, places: seq<Placed>, order: seq<string>,
      patches: seq<Patch>, r: RouteId)
    requires ActionPatches(naming, places, order, patches)
    ensures FlatMap((p: Patch) => ActionsAt(r, p), patches) == Map(ActionOn(naming), Attached(places, order, r))
  {
    hide ActionsAt, LiveGroup, IsActionPatch, ActionOn;
    if order != [] {
      assert forall i :: 0 <= i < |order| - 1 ==> IsActionPatch(naming, places, order[1..][i], patches[1..][i]);
      AttachedActions(naming, places, order[1..], patches[1..], r);
      GroupActions(naming, places, order[0], patches[0], r);
      MapAppend(ActionOn(naming), LiveGroup(places, r, order[0]), Attached(places, order[1..], r));
    }
  }

  lemma {:induction false} AttachedLimits(naming: Naming, places: seq<Placed>, order: seq<string>,
      patches: seq<Patch>, r: RouteId)
    requires BucketPatches(naming, places, order, patches)
    ensures FlatMap((p: Patch) => LimitsAt(r, p), patches) == Map(LimitOn(naming), Attached(places, order, r))
  {
    hide Live, IsBucketPatch, LimitOn, Group, Applies;
    if order != [] {
      assert forall i :: 0 <= i < |order| - 1 ==> IsBucketPatch(naming, places, order[1..][i], patches[1..][i]);
      AttachedLimits(naming, places, order[1..], patches[1..], r);
      GroupBuckets(naming, places, order[0], patches[0], r);
      MapAppend(LimitOn(naming), LiveGroup(places, r, order[0]), Attached(places, order[1..], r));
    }
  }

  /** With one direction per key, the members of a group are live on the same routes. */
  lemma LiveIsCovers(descriptors: seq<Descriptor>, r: RouteId, p: Placed)
    requires OneDirection(AllPlaces(descriptors)) && p in AllPlaces(descriptors)
    ensures Live(AllPlaces(descriptors), Key(p.rc), r) <==> Covers(r, p.rc)
  {
    var places := AllPlaces(descriptors);
    var group := Group(places, Key(p.rc));
    InGroup(PlaceKey, places, Key(p.rc));
    assert p in group;
    assert group[0] in group;
    GroupSharesRoute(descriptors, Key(p.rc), group[0], p);
  }

  /**
   Grouped patches, merged in any order of their keys, attach what one patch per place would: the places that cover the
   route.
   */
  lemma MergeIsCovering(descriptors: seq<Descriptor>, order: seq<string>, r: RouteId)
    requires OneDirection(AllPlaces(descriptors))
    requires IsOrderOf(order, Keys(AllPlaces(descriptors)))
    ensures multiset(Attached(AllPlaces(descriptors), order, r)) == multiset(Covering(AllPlaces(descriptors), r))
  {
    var places := AllPlaces(descriptors);
    var a, b := multiset(Attached(places, order, r)), multiset(Covering(places, r));
    forall p: Placed
      ensures a[p] == b[p]
    {
      AttachedCount(places, order, r, p);
      FilterCount((q: Placed) => Covers(r, q.rc), places, p);
      if p in places {
        LiveIsCovers(descriptors, r, p);
      }
    }
    SameCounts(a, b);
  }

  // ----- Custom keys -----

  /**
   A limit with a custom key and value gets no action, and its bucket is the one for that entry, which a plugin of the
   user's has to produce; any other limit's bucket is for the limit's own name.
   */
  lemma CustomMeaning(naming: Naming, d: Descriptor)
    requires d.action.Some?
    ensures IsCustom(d) <==> d.customKey != "" && d.customValue != ""
    ensures var limit := LocalDescriptorOf(naming, d);
      if d.customKey != "" && d.customValue != "" then limit.key == d.customKey && limit.value == d.customValue
      else limit.key == (if d.matches == [] then "generic_key" else "header_match") && limit.value == naming(d)
  {
  }
}
