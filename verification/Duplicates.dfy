/**
 When one entry is told to the rate-limit service twice, or stands twice in a table of local limits: limits that occur
 twice, in one set or in two, and limits that name a route twice.
 */
module Duplicates {
  import opened Seqs
  import opened Grouping
  import opened Limiter
  import opened Descriptors
  import opened Routes
  import opened RateLimits
  import opened LocalLimit
  import opened EnvoyFilters
  import opened Meaning
  import opened Preservation
  import opened RlsConfigMap
  import opened RlsContents

  // ----- The rate-limit service -----

  function KeyValue(e: RlsEntry): (string, string) {
    (e.key, e.value)
  }

  /** No two entries have one key and value. */
  ghost predicate TellsOnce(entries: seq<RlsEntry>) {
    Distinct(Map(KeyValue, entries))
  }

  /** The global limits that the service is told of: those before the first that cannot be expressed. */
  function Told(descriptors: seq<Descriptor>): seq<Descriptor> {
    if descriptors == [] || !Expressible(descriptors[0]) then [] else [descriptors[0]] + Told(descriptors[1..])
  }

  /** The entry by which Envoy asks for a limit. */
  ghost function EntryAsked(naming: Naming): Descriptor -> (string, string) {
    (d: Descriptor) => (DescriptorKey(d), naming(d))
  }

  function ToldOf(ev: Evaluator, spec: SmartLimiterSpec): Subset -> seq<Descriptor> {
    (s: Subset) => Told(Filter(IsGlobal, ValidOf(ev, spec, s.name)))
  }

  lemma {:induction false} EntriesOfTold(naming: Naming, descriptors: seq<Descriptor>)
    ensures Map(KeyValue, RlsEntries(naming, descriptors)) == Map(EntryAsked(naming), Told(descriptors))
  {
    hide DescriptorKey;
    if descriptors != [] && Expressible(descriptors[0]) {
      EntriesOfTold(naming, descriptors[1..]);
      assert KeyValue(RlsEntryOf(naming, descriptors[0])) == EntryAsked(naming)(descriptors[0]);
    }
  }

  lemma {:induction false} AllEntriesOfTold(naming: Naming, ev: Evaluator, spec: SmartLimiterSpec, sets: seq<Subset>)
    ensures Map(KeyValue, FlatMap(EntriesOf(naming, ev, spec), sets)) ==
      Map(EntryAsked(naming), FlatMap(ToldOf(ev, spec), sets))
  {
    hide EntryAsked, Told, RlsEntries, ValidOf;
    if sets != [] {
      var here, limits := EntriesOf(naming, ev, spec)(sets[0]), ToldOf(ev, spec)(sets[0]);
      AllEntriesOfTold(naming, ev, spec, sets[1..]);
      EntriesOfTold(naming, Filter(IsGlobal, ValidOf(ev, spec, sets[0].name)));
      MapAppend(KeyValue, here, FlatMap(EntriesOf(naming, ev, spec), sets[1..]));
      MapAppend(EntryAsked(naming), limits, FlatMap(ToldOf(ev, spec), sets[1..]));
    }
  }

  /** The service is told of a limit once if and only if no limit is among those told of twice, in one set or in two. */
  lemma ToldOnceExactly(naming: Naming, ev: Evaluator, spec: SmartLimiterSpec, selector: map<string, string>,
      sets: seq<Subset>, efs: map<string, Option<EnvoyFilter>>, status: map<string, seq<Descriptor>>,
      global: seq<RlsEntry>)
    requires Agree(naming, ev, spec, selector, sets, efs, status, global)
    requires DistinctNames(naming, FlatMap(ToldOf(ev, spec), sets))
    ensures TellsOnce(global) <==> Distinct(FlatMap(ToldOf(ev, spec), sets))
  {
    hide FiltersAgree, StatusAgrees, FlatMap, Distinct, DescriptorKey;
    AllEntriesOfTold(naming, ev, spec, sets);
    DistinctMap(EntryAsked(naming), FlatMap(ToldOf(ev, spec), sets));
  }

  lemma {:induction false} ToldAll(descriptors: seq<Descriptor>)
    requires forall d :: d in descriptors ==> Expressible(d)
    ensures Told(descriptors) == descriptors
  {
    if descriptors != [] {
      ToldAll(descriptors[1..]);
    }
  }

  /** What two members of a list yield stands twice in the flattened list. */
  lemma YieldedTwice<T, U>(f: T -> seq<U>, s: seq<T>, i: nat, j: nat, x: U)
    requires i < j < |s| && x in f(s[i]) && x in f(s[j])
    ensures !Distinct(FlatMap(f, s))
  {
    hide Distinct;
    var a, b := s[..j], s[j..];
    assert s == a + b && a[i] == s[i] && b[0] == s[j];
    FlatMapAppend(f, a, b);
    InFlatMap(f, a, x);
    InFlatMap(f, b, x);
    DistinctAppend(FlatMap(f, a), FlatMap(f, b));
  }

  lemma MappedTwice<T, U>(f: T -> U, s: seq<T>)
    requires !Distinct(s)
    ensures !Distinct(Map(f, s))
  {
    var i, j :| 0 <= i < j < |s| && s[i] == s[j];
    assert Map(f, s)[i] == Map(f, s)[j];
  }

  /** The same global limit in two sets, such as the base set and a subset, is told of twice. */
  lemma SharedLimitToldTwice(naming: Naming, ev: Evaluator, spec: SmartLimiterSpec, selector: map<string, string>,
      sets: seq<Subset>, efs: map<string, Option<EnvoyFilter>>, status: map<string, seq<Descriptor>>,
      global: seq<RlsEntry>,
      i: nat, j: nat, d: Descriptor)
    requires Agree(naming, ev, spec, selector, sets, efs, status, global) && i < j < |sets|
    requires d in ToldOf(ev, spec)(sets[i]) && d in ToldOf(ev, spec)(sets[j])
    ensures !TellsOnce(global)
  {
    hide FiltersAgree, StatusAgrees, FlatMap, Distinct, DescriptorKey, ToldOf;
    AllEntriesOfTold(naming, ev, spec, sets);
    YieldedTwice(ToldOf(ev, spec), sets, i, j, d);
    MappedTwice(EntryAsked(naming), FlatMap(ToldOf(ev, spec), sets));
  }

  // ----- The shared list -----

  lemma {:induction false} LatestOthers(ops: seq<Op>, gone: Location, loc: Location)
    requires loc != gone
    ensures Latest(Filter(OfOthers(gone), ops), loc) == Latest(ops, loc)
    ensures Mentions(Filter(OfOthers(gone), ops), loc) <==> Mentions(ops, loc)
  {
    if ops != [] {
      var n := |ops| - 1;
      LatestOthers(ops[..n], gone, loc);
      FilterSnoc(OfOthers(gone), ops, n);
      assert ops[..n + 1] == ops;
      MentionsSnoc(ops[..n], ops[n], loc);
      var kept := Filter(OfOthers(gone), ops[..n]);
      if ops[n].loc != gone {
        MentionsSnoc(kept, ops[n], loc);
        assert (kept + [ops[n]])[..|kept|] == kept;
      } else {
        assert kept + [] == kept;
      }
      assert ops[..n] + [ops[n]] == ops;
    }
  }

  lemma MentionsSnoc(ops: seq<Op>, op: Op, loc: Location)
    ensures Mentions(ops + [op], loc) <==> Mentions(ops, loc) || op.loc == loc
  {
    var more := ops + [op];
    if Mentions(ops, loc) {
      var i :| 0 <= i < |ops| && ops[i].loc == loc;
      assert more[i].loc == loc;
    }
    assert more[|ops|] == op;
  }

  /** Some service that is mentioned gives the entry its name. */
  ghost predicate IsNamedAmong(ops: seq<Op>, e: RlsEntry) {
    exists loc :: PlainLocation(loc) && Mentions(ops, loc) && NamedBy(loc, e)
  }

  /** Every latest entry is named by a service that is mentioned. */
  lemma {:induction false} LatestNamed(locs: set<Location>, ops: seq<Op>, e: RlsEntry)
    requires RefreshesOf(locs, ops) && e in LatestOfAll(ops)
    ensures IsNamedAmong(ops, e)
    decreases |ops|
  {
    hide IsNamedAmong, NamedBy, PlainLocation, Filter;
    var init, last := ops[..|ops| - 1], ops[|ops| - 1];
    var others := Filter(OfOthers(last.loc), init);
    assert ops == init + [last];
    OthersKeepRefreshes(locs, init, last.loc);
    if e in last.desc {
      NamedByLast(init, last, e);
    } else {
      assert LatestOfAll(ops) == LatestOfAll(others) + last.desc;
      assert e in LatestOfAll(others);
      LatestNamed(locs, others, e);
      NamedAmongMore(init, last, e);
    }
  }

  lemma NamedByLast(init: seq<Op>, last: Op, e: RlsEntry)
    requires OwnNames(last) && e in last.desc
    ensures IsNamedAmong(init + [last], e)
  {
    hide NamedBy, PlainLocation;
    MentionsSnoc(init, last, last.loc);
  }

  lemma NamedAmongMore(init: seq<Op>, last: Op, e: RlsEntry)
    requires IsNamedAmong(Filter(OfOthers(last.loc), init), e)
    ensures IsNamedAmong(init + [last], e)
  {
    hide NamedBy, PlainLocation, Filter;
    var loc :| PlainLocation(loc) && Mentions(Filter(OfOthers(last.loc), init), loc) && NamedBy(loc, e);
    MentionedOther(init, last.loc, loc);
    MentionsSnoc(init, last, loc);
  }

  lemma MentionedOther(ops: seq<Op>, gone: Location, loc: Location)
    requires Mentions(Filter(OfOthers(gone), ops), loc)
    ensures loc != gone && Mentions(ops, loc)
  {
    var kept := Filter(OfOthers(gone), ops);
    InFilter(OfOthers(gone), ops);
    var i :| 0 <= i < |kept| && kept[i].loc == loc;
    assert kept[i] in kept;
    var j :| 0 <= j < |ops| && ops[j] == kept[i];
  }

  /** Entries of two services never have one value. */
  lemma ServicesApart(a: Location, b: Location, e: RlsEntry, e': RlsEntry)
    requires PlainLocation(a) && PlainLocation(b) && a != b && NamedBy(a, e) && NamedBy(b, e')
    ensures e.value != e'.value
  {
    hide Name, PlainLocation;
    var id: nat :| e.value == Name(a.name, a.namespace, id);
    var id': nat :| e'.value == Name(b.name, b.namespace, id');
    if e.value == e'.value {
      NamesTellServices(a, b, id, id');
    }
  }

  lemma ServiceApart(locs: set<Location>, others: seq<Op>, last: Op)
    requires RefreshesOf(locs, others) && OwnNames(last) && !Mentions(others, last.loc)
    ensures forall x :: x in Map(KeyValue, LatestOfAll(others)) ==> x !in Map(KeyValue, last.desc)
  {
    hide NamedBy, PlainLocation, LatestOfAll;
    var list := LatestOfAll(others);
    forall i, j | 0 <= i < |list| && 0 <= j < |last.desc|
      ensures KeyValue(list[i]) != KeyValue(last.desc[j])
    {
      assert list[i] in list;
      LatestNamed(locs, others, list[i]);
      var loc :| PlainLocation(loc) && Mentions(others, loc) && NamedBy(loc, list[i]);
      ServicesApart(loc, last.loc, list[i], last.desc[j]);
    }
  }

  /** What all services have in the shared list is told once if and only if what each of them has is. */
  lemma {:induction false} ListTellsOnceExactly(locs: set<Location>, ops: seq<Op>)
    requires RefreshesOf(locs, ops)
    ensures TellsOnce(LatestOfAll(ops)) <==> forall loc :: Mentions(ops, loc) ==> TellsOnce(Latest(ops, loc))
    decreases |ops|
  {
    hide NamedBy, PlainLocation, Distinct, Filter;
    if ops == [] {
      NothingTold();
    } else {
      var init, last := ops[..|ops| - 1], ops[|ops| - 1];
      var others := Filter(OfOthers(last.loc), init);
      assert init + [last] == ops;
      OthersKeepRefreshes(locs, init, last.loc);
      ListTellsOnceExactly(locs, others);
      if Mentions(others, last.loc) {
        MentionedOther(init, last.loc, last.loc);
      }
      assert OwnNames(last);
      ServiceApart(locs, others, last);
      MapAppend(KeyValue, LatestOfAll(others), last.desc);
      DistinctAppend(Map(KeyValue, LatestOfAll(others)), Map(KeyValue, last.desc));
      MentionsSnoc(init, last, last.loc);
      forall loc | loc != last.loc
        ensures Mentions(ops, loc) <==> Mentions(others, loc)
        ensures Latest(ops, loc) == Latest(others, loc)
      {
        LatestOthers(init, last.loc, loc);
        MentionsSnoc(init, last, loc);
      }
    }
  }

  lemma NothingTold()
    ensures TellsOnce(LatestOfAll([]))
  {
    assert Map(KeyValue, LatestOfAll([])) == [];
  }

  // ----- Tables of local limits -----

  function EntryIn(l: LocalDescriptor): (string, string) {
    (l.key, l.value)
  }

  ghost function PlaceEntry(naming: Naming): Placed -> (string, string) {
    (p: Placed) => (DescriptorKey(p.d), naming(p.d))
  }

  /** No table of a patch holds an entry twice. */
  ghost predicate TablesOnce(patches: seq<Patch>) {
    forall i :: 0 <= i < |patches| && patches[i].RouteBuckets? ==> Distinct(Map(EntryIn, patches[i].limits))
  }

  /** In one group, places with one entry are one place. */
  lemma EntryTellsPlace(naming: Naming, descriptors: seq<Descriptor>, key: string, p: Placed, q: Placed)
    requires DistinctNames(naming, descriptors)
    requires p in Group(AllPlaces(descriptors), key) && q in Group(AllPlaces(descriptors), key)
    requires naming(p.d) == naming(q.d)
    ensures p == q
  {
    hide AllPlaces, RouteConfigs, GroupOf, Key;
    InGroup(PlaceKey, AllPlaces(descriptors), key);
    PlacedFrom(descriptors, p);
    PlacedFrom(descriptors, q);
    GroupSharesRoute(descriptors, key, p, q);
    RouteConfigsShape(p.d.target, p.rc);
    RouteConfigsShape(q.d.target, q.rc);
  }

  lemma TableOfGroup(naming: Naming, descriptors: seq<Descriptor>, key: string, patch: Patch)
    requires DistinctNames(naming, descriptors) && NoCustom(descriptors)
    requires IsBucketPatch(naming, AllPlaces(descriptors), key, patch)
    ensures Distinct(Map(EntryIn, patch.limits)) <==> Distinct(Group(AllPlaces(descriptors), key))
  {
    hide AllPlaces, GroupOf, Distinct, DescriptorKey, BucketOf, DistinctNames, Key;
    var group := Group(AllPlaces(descriptors), key);
    InGroup(PlaceKey, AllPlaces(descriptors), key);
    forall i | 0 <= i < |group|
      ensures Map(EntryIn, patch.limits)[i] == PlaceEntry(naming)(group[i])
    {
      assert group[i] in group;
      PlacedFrom(descriptors, group[i]);
    }
    assert Map(EntryIn, patch.limits) == Map(PlaceEntry(naming), group);
    forall p, q | p in group && q in group && PlaceEntry(naming)(p) == PlaceEntry(naming)(q)
      ensures p == q
    {
      EntryTellsPlace(naming, descriptors, key, p, q);
    }
    DistinctMap(PlaceEntry(naming), group);
  }

  /** The places are different if and only if those of each key are. */
  lemma GroupsDistinct(places: seq<Placed>)
    ensures Distinct(places) <==> forall key :: key in Keys(places) ==> Distinct(Group(places, key))
  {
    hide Distinct, Key, Filter, GroupOf, KeySet;
    if Distinct(places) {
      forall key | key in Keys(places)
        ensures Distinct(Group(places, key))
      {
        DistinctFilter(HasKey(PlaceKey, key), places);
        GroupIsFilter(places, key);
      }
    } else {
      DistinctCount(places);
      var p: Placed :| multiset(places)[p] > 1;
      RepeatedInGroup(places, p);
    }
  }

  lemma GroupIsFilter(places: seq<Placed>, key: string)
    ensures Group(places, key) == Filter(HasKey(PlaceKey, key), places)
  {
  }

  lemma RepeatedInGroup(places: seq<Placed>, p: Placed)
    requires multiset(places)[p] > 1
    ensures PlaceKey(p) in Keys(places) && !Distinct(Group(places, PlaceKey(p)))
  {
    hide Distinct, Key, Filter;
    assert p in places;
    GroupsPartition(PlaceKey, places, p);
    DistinctCount(Group(places, PlaceKey(p)));
  }

  lemma Distribute(a: int, b: int, n: int)
    ensures (a + b) * n == a * n + b * n
  {
  }

  /** How often a place occurs: as often as its limit, times as often as the limit names the route. */
  lemma {:induction false} PlacesCount(descriptors: seq<Descriptor>, p: Placed)
    ensures multiset(AllPlaces(descriptors))[p] == multiset(descriptors)[p.d] * multiset(RouteConfigs(p.d.target))[p.rc]
  {
    hide RouteConfigs, Places, FlatMap;
    if descriptors == [] {
      NoPlaces();
    } else {
      var d, rest := descriptors[0], descriptors[1..];
      var here, more := multiset([d])[p.d], multiset(rest)[p.d];
      assert descriptors == [d] + rest;
      PlacesCount(rest, p);
      PlacesOfOne(d, p);
      AllPlacesHead(descriptors);
      CountAppend(Places(d), AllPlaces(rest), p);
      CountAppend([d], rest, p.d);
      Distribute(here, more, multiset(RouteConfigs(p.d.target))[p.rc]);
      assert here == if d == p.d then 1 else 0;
    }
  }

  lemma NoPlaces()
    ensures AllPlaces([]) == []
  {
  }

  lemma AllPlacesHead(descriptors: seq<Descriptor>)
    requires descriptors != []
    ensures AllPlaces(descriptors) == Places(descriptors[0]) + AllPlaces(descriptors[1..])
  {
  }

  lemma PlacesOfOne(d: Descriptor, p: Placed)
    ensures multiset(Places(d))[p] == if d == p.d then multiset(RouteConfigs(p.d.target))[p.rc] else 0
  {
    hide RouteConfigs;
    PlaceCount(d, RouteConfigs(d.target), p);
  }

  lemma {:induction false} PlaceCount(d: Descriptor, rcs: seq<RouteConfig>, p: Placed)
    ensures multiset(Map(rc => Placed(d, rc), rcs))[p] == if d == p.d then multiset(rcs)[p.rc] else 0
  {
    if rcs != [] {
      PlaceCount(d, rcs[1..], p);
      assert rcs == [rcs[0]] + rcs[1..];
      assert Map(rc => Placed(d, rc), rcs) == [Placed(d, rcs[0])] + Map(rc => Placed(d, rc), rcs[1..]);
    }
  }

  /** No limit with a route occurs twice, and none names a route twice. */
  ghost predicate PlacedOnce(descriptors: seq<Descriptor>) {
    forall d :: d in descriptors && RouteConfigs(d.target) != [] ==>
      multiset(descriptors)[d] == 1 && Distinct(RouteConfigs(d.target))
  }

  lemma PlacesDistinctExactly(descriptors: seq<Descriptor>)
    ensures Distinct(AllPlaces(descriptors)) <==> PlacedOnce(descriptors)
  {
    hide Distinct, AllPlaces, RouteConfigs;
    DistinctCount(AllPlaces(descriptors));
    if Distinct(AllPlaces(descriptors)) {
      forall d | d in descriptors && RouteConfigs(d.target) != []
        ensures multiset(descriptors)[d] == 1 && Distinct(RouteConfigs(d.target))
      {
        OncePlaced(descriptors, d);
      }
    } else {
      var p: Placed :| multiset(AllPlaces(descriptors))[p] > 1;
      PlacesCount(descriptors, p);
      TwicePlaced(descriptors, p);
    }
  }

  lemma OncePlaced(descriptors: seq<Descriptor>, d: Descriptor)
    requires d in descriptors && RouteConfigs(d.target) != []
    requires forall p: Placed :: multiset(AllPlaces(descriptors))[p] <= 1
    ensures multiset(descriptors)[d] == 1 && Distinct(RouteConfigs(d.target))
  {
    hide Distinct, AllPlaces, RouteConfigs;
    var rcs, m := RouteConfigs(d.target), multiset(descriptors)[d];
    DistinctCount(rcs);
    forall rc
      ensures m * multiset(rcs)[rc] <= 1
    {
      PlacesCount(descriptors, Placed(d, rc));
    }
    assert m >= 1 && multiset(rcs)[rcs[0]] >= 1;
    AtMostOneEach(m, multiset(rcs)[rcs[0]]);
    forall rc
      ensures multiset(rcs)[rc] <= 1
    {
      AtMostOneEach(m, multiset(rcs)[rc]);
    }
  }

  lemma AtMostOneEach(m: nat, n: nat)
    requires m >= 1 && m * n <= 1
    ensures n <= 1 && (n >= 1 ==> m == 1)
  {
    assert m * n == n + (m - 1) * n && (m - 1) * n >= 0;
  }

  lemma TwicePlaced(descriptors: seq<Descriptor>, p: Placed)
    requires multiset(descriptors)[p.d] * multiset(RouteConfigs(p.d.target))[p.rc] > 1
    ensures !PlacedOnce(descriptors)
  {
    hide Distinct, RouteConfigs;
    DistinctCount(RouteConfigs(p.d.target));
    assert multiset(descriptors)[p.d] > 0 && multiset(RouteConfigs(p.d.target))[p.rc] > 0;
    assert p.d in descriptors && p.rc in RouteConfigs(p.d.target);
  }

  /**
   The tables hold every entry once if and only if no local limit with a route occurs twice or names a route twice.
   */
  lemma TablesOnceExactly(naming: Naming, descriptors: seq<Descriptor>, order: seq<string>, patches: seq<Patch>)
    requires DistinctNames(naming, descriptors) && NoCustom(descriptors)
    requires AreBucketPatches(naming, AllPlaces(descriptors), order, patches)
    ensures TablesOnce(patches) <==> PlacedOnce(descriptors)
  {
    hide AllPlaces, Group, Distinct, DistinctNames, Keys, PlacedOnce, NoCustom, IsBucketPatch;
    GroupsDistinct(AllPlaces(descriptors));
    PlacesDistinctExactly(descriptors);
    BucketPatchKind(naming, AllPlaces(descriptors), order, patches);
    forall i | 0 <= i < |order|
      ensures patches[i].RouteBuckets?
      ensures Distinct(Map(EntryIn, patches[i].limits)) <==> Distinct(Group(AllPlaces(descriptors), order[i]))
    {
      assert IsBucketPatch(naming, AllPlaces(descriptors), order[i], patches[i]);
      TableOfGroup(naming, descriptors, order[i], patches[i]);
    }
    if PlacedOnce(descriptors) {
      assert forall i :: 0 <= i < |order| ==> order[i] in order;
    } else {
      var key :| key in Keys(AllPlaces(descriptors)) && !Distinct(Group(AllPlaces(descriptors), key));
      assert key in order;
    }
  }

  /** So it is for the tables of a generated filter. */
  lemma FilterTablesOnceExactly(naming: Naming, descriptors: seq<Descriptor>, rls: string, patches: seq<Patch>)
    requires IsCompiled(naming, descriptors, rls, patches)
    requires DistinctNames(naming, descriptors) && NoCustom(descriptors)
    ensures TablesOnce(patches) <==> PlacedOnce(Filter(IsLocal, descriptors))
  {
    hide AreActionPatches, AreBucketPatches, AllPlaces, PlacedOnce, TablesOnce, DistinctNames, NoCustom,
      RateLimiterServerCluster;
    var actionPatches: seq<Patch>, actionOrder: seq<string>, bucketPatches: seq<Patch>, bucketOrder: seq<string> :|
      IsCompiledFrom(naming, descriptors, rls, patches, actionPatches, actionOrder, bucketPatches, bucketOrder);
    LocalNames(naming, descriptors);
    TablesOnceExactly(naming, Filter(IsLocal, descriptors), bucketOrder, bucketPatches);
    ActionKind(naming, AllPlaces(Routed(descriptors)), actionOrder, actionPatches);
    LastTables(actionPatches,
      if Filter(IsGlobal, descriptors) == [] then [] else [GlobalFilter(RateLimiterServerCluster(rls))],
      if Filter(IsLocal, descriptors) == [] then [] else [LocalFilter],
      bucketPatches);
  }

  lemma LocalNames(naming: Naming, descriptors: seq<Descriptor>)
    requires DistinctNames(naming, descriptors) && NoCustom(descriptors)
    ensures DistinctNames(naming, Filter(IsLocal, descriptors)) && NoCustom(Filter(IsLocal, descriptors))
  {
    InFilter(IsLocal, descriptors);
  }

  lemma ActionKind(naming: Naming, places: seq<Placed>, order: seq<string>, patches: seq<Patch>)
    requires AreActionPatches(naming, places, order, patches)
    ensures forall i :: 0 <= i < |patches| ==> patches[i].RouteActions?
  {
    ActionPatchKind(naming, places, order, patches);
  }

  lemma LastTables(a: seq<Patch>, b: seq<Patch>, c: seq<Patch>, tables: seq<Patch>)
    requires forall i :: 0 <= i < |a| ==> a[i].RouteActions?
    requires forall i :: 0 <= i < |b| ==> b[i].GlobalFilter?
    requires forall i :: 0 <= i < |c| ==> c[i].LocalFilter?
    ensures TablesOnce(a + b + c + tables) <==> TablesOnce(tables)
  {
    hide Distinct;
    var all := a + b + c + tables;
    if TablesOnce(all) {
      assert forall i :: 0 <= i < |tables| ==> tables[i] == all[|a + b + c| + i];
    }
  }

  // ----- Routes that are named twice -----

  predicate IsAccepted(name: string) {
    multiset(name)['/'] == 1
  }

  lemma {:induction false} KeysOfRoutes(direction: string, routes: seq<string>)
    ensures Map(Key, FlatMap(name => NamedRoute(direction, name), routes)) == Filter(IsAccepted, routes)
  {
    hide NamedRoute, IsAccepted;
    if routes != [] {
      var named := name => NamedRoute(direction, name);
      KeysOfRoutes(direction, routes[1..]);
      KeysOfOne(direction, routes[0]);
      MapAppend(Key, named(routes[0]), FlatMap(named, routes[1..]));
    }
  }

  lemma KeysOfOne(direction: string, name: string)
    ensures Map(Key, NamedRoute(direction, name)) == if IsAccepted(name) then [name] else []
  {
    hide Key;
    NamedRouteRoundTrip(direction, name);
    var rcs := NamedRoute(direction, name);
    assert forall i :: 0 <= i < |rcs| ==> rcs[i] in rcs;
    assert |rcs| <= 1;
  }

  /** A target names no route twice exactly if none of its accepted route strings is repeated. */
  lemma RoutesOnceExactly(t: Target)
    requires t.routes != []
    ensures Distinct(RouteConfigs(Some(t))) <==> Distinct(Filter(IsAccepted, t.routes))
  {
    hide Distinct, NamedRoute, IsAccepted, Key;
    var rcs := RouteConfigs(Some(t));
    KeysOfRoutes(t.direction, t.routes);
    forall a, b | a in rcs && b in rcs && Key(a) == Key(b)
      ensures a == b
    {
      KeyInjective(Some(t), Some(t), a, b);
      RouteConfigsShape(Some(t), a);
      RouteConfigsShape(Some(t), b);
    }
    DistinctMap(Key, rcs);
  }
}
