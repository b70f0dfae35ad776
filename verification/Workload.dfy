/**
 A workload meets every filter whose labels it carries: that of its service's base set and those of its subsets. The
 filters' patches are merged one filter after another, in some order.
 */
module Workload {
  import opened Seqs
  import opened Limiter
  import opened Descriptors
  import opened Routes
  import opened LocalLimit
  import opened EnvoyFilters
  import opened Meaning
  import opened Preservation
  import opened Agreement

  type Labels = map<string, string>

  predicate Selects(labels: Labels, workload: Labels) {
    forall k :: k in labels ==> k in workload && workload[k] == labels[k]
  }

  /** A list of limits with the patches it was compiled to. */
  datatype Compiled = Compiled(descriptors: seq<Descriptor>, rls: string, patches: seq<Patch>)

  function PatchesOf(c: Compiled): seq<Patch> {
    c.patches
  }

  function LimitsOf(c: Compiled): seq<Descriptor> {
    c.descriptors
  }

  ghost predicate IsGood(naming: Naming, c: Compiled) {
    && IsCompiled(naming, c.descriptors, c.rls, c.patches)
    && NoCustom(c.descriptors) && OneDirection(AllPlaces(c.descriptors))
  }

  ghost predicate AreGood(naming: Naming, cs: seq<Compiled>) {
    forall i :: 0 <= i < |cs| ==> IsGood(naming, cs[i])
  }

  function LocalPlacesOf(c: Compiled): seq<Placed> {
    AllPlaces(Filter(IsLocal, c.descriptors))
  }

  /** The local limits that cover a route. */
  function LocalOn(descriptors: seq<Descriptor>, r: RouteId): seq<Placed> {
    Covering(AllPlaces(Filter(IsLocal, descriptors)), r)
  }

  lemma CoveringAppend(a: seq<Descriptor>, b: seq<Descriptor>, r: RouteId)
    ensures Covering(AllPlaces(a + b), r) == Covering(AllPlaces(a), r) + Covering(AllPlaces(b), r)
    ensures LocalOn(a + b, r) == LocalOn(a, r) + LocalOn(b, r)
  {
    FlatMapAppend(Places, a, b);
    FilterAppend((p: Placed) => Covers(r, p.rc), AllPlaces(a), AllPlaces(b));
    FilterAppend(IsLocal, a, b);
    FlatMapAppend(Places, Filter(IsLocal, a), Filter(IsLocal, b));
    FilterAppend((p: Placed) => Covers(r, p.rc), AllPlaces(Filter(IsLocal, a)), AllPlaces(Filter(IsLocal, b)));
  }

  /** A mapped concatenation, as a multiset. */
  lemma MapJoined<T, U>(f: T -> U, a: seq<T>, b: seq<T>)
    ensures multiset(Map(f, a + b)) == multiset(Map(f, a)) + multiset(Map(f, b))
  {
    MapAppend(f, a, b);
  }

  ghost function ActionsOn(r: RouteId): Patch -> seq<RouteAction> {
    (p: Patch) => ActionsAt(r, p)
  }

  ghost function LimitsOn(r: RouteId): Patch -> seq<LocalDescriptor> {
    (p: Patch) => LimitsAt(r, p)
  }

  /** The route actions of several filters are those of all their limits. */
  lemma {:induction false} JoinedActions(naming: Naming, cs: seq<Compiled>, r: RouteId)
    requires AreGood(naming, cs)
    ensures multiset(FlatMap(ActionsOn(r), FlatMap(PatchesOf, cs))) ==
      multiset(Map(ActionOn(naming), Covering(AllPlaces(FlatMap(LimitsOf, cs)), r)))
  {
    hide IsCompiled, NoCustom, OneDirection, AllPlaces, Covering, ActionOn, ActionsAt;
    if cs == [] {
      NothingCovers(r);
    } else {
      var c, rest := cs[0], cs[1..];
      JoinedActions(naming, rest, r);
      CompiledRoute(naming, c.descriptors, c.rls, c.patches, r);
      assert ActionsOn(r) == (p: Patch) => ActionsAt(r, p);
      FlatMapAppend(ActionsOn(r), c.patches, FlatMap(PatchesOf, rest));
      CoveringAppend(c.descriptors, FlatMap(LimitsOf, rest), r);
      MapJoined(ActionOn(naming), Covering(AllPlaces(c.descriptors), r),
        Covering(AllPlaces(FlatMap(LimitsOf, rest)), r));
    }
  }

  lemma NothingCovers(r: RouteId)
    ensures Covering(AllPlaces([]), r) == [] && LocalOn([], r) == []
  {
  }

  /** With tables that append, so are the local limits. */
  lemma {:induction false} JoinedLimits(naming: Naming, cs: seq<Compiled>, r: RouteId)
    requires AreGood(naming, cs)
    ensures multiset(FlatMap(LimitsOn(r), FlatMap(PatchesOf, cs))) ==
      multiset(Map(LimitOn(naming), LocalOn(FlatMap(LimitsOf, cs), r)))
  {
    hide IsCompiled, NoCustom, OneDirection, AllPlaces, Covering, LimitOn, LimitsAt;
    if cs == [] {
      NothingCovers(r);
    } else {
      var c, rest := cs[0], cs[1..];
      JoinedLimits(naming, rest, r);
      CompiledRoute(naming, c.descriptors, c.rls, c.patches, r);
      FlatMapAppend(LimitsOn(r), c.patches, FlatMap(PatchesOf, rest));
      CoveringAppend(c.descriptors, FlatMap(LimitsOf, rest), r);
      MapJoined(LimitOn(naming), LocalOn(c.descriptors, r), LocalOn(FlatMap(LimitsOf, rest), r));
    }
  }

  // ----- Tables that replace -----

  /** No patch sets an empty table. */
  ghost predicate TablesHoldLimits(patches: seq<Patch>) {
    forall i :: 0 <= i < |patches| && patches[i].RouteBuckets? ==> patches[i].limits != []
  }

  /** Some patch sets the table of limits of the route. */
  ghost predicate SetsTable(r: RouteId, patches: seq<Patch>) {
    FlatMap(LimitsOn(r), patches) != []
  }

  /** When tables replace, the last patches that set the table decide. */
  lemma {:induction false} LastTableDecides(r: RouteId, a: seq<Patch>, b: seq<Patch>)
    requires TablesHoldLimits(b)
    ensures ApplyAll(Replace, r, a + b).limits == ApplyAll(Replace, r, if SetsTable(r, b) then b else a).limits
  {
    hide FlatMap, Applies;
    if b == [] {
      assert a + b == a;
      SetsNone(r);
    } else {
      var n := |b| - 1;
      assert (a + b)[..|a + b| - 1] == a + b[..n] && (a + b)[|a + b| - 1] == b[n];
      LastTableDecides(r, a, b[..n]);
      FlatMapSnoc(LimitsOn(r), b, n);
      assert b[..n + 1] == b;
    }
  }

  lemma SetsNone(r: RouteId)
    ensures !SetsTable(r, [])
  {
  }

  lemma BucketsHoldLimits(naming: Naming, c: Compiled)
    requires IsGood(naming, c)
    ensures TablesHoldLimits(c.patches)
  {
    hide LocalDescriptorOf, Group, AllPlaces, IsOrderOf;
    var actionPatches: seq<Patch>, actionOrder: seq<string>, bucketPatches: seq<Patch>, bucketOrder: seq<string> :|
      IsCompiledFrom(naming, c.descriptors, c.rls, c.patches, actionPatches, actionOrder, bucketPatches, bucketOrder);
    ActionPatchKind(naming, AllPlaces(Routed(c.descriptors)), actionOrder, actionPatches);
    forall k | 0 <= k < |bucketPatches|
      ensures bucketPatches[k].RouteBuckets? && bucketPatches[k].limits != []
    {
      assert IsBucketPatch(naming, LocalPlacesOf(c), bucketOrder[k], bucketPatches[k]);
    }
  }

  /** A compilation sets the table of a route exactly if a local limit covers the route. */
  lemma SetsTableExactly(naming: Naming, c: Compiled, r: RouteId)
    requires IsGood(naming, c)
    ensures SetsTable(r, c.patches) <==> LocalOn(c.descriptors, r) != []
  {
    hide IsCompiled, NoCustom, OneDirection, AllPlaces, Covering, LimitOn, LimitsAt, FlatMap;
    CompiledRoute(naming, c.descriptors, c.rls, c.patches, r);
    SameEmptiness(FlatMap(LimitsOn(r), c.patches), Map(LimitOn(naming), LocalOn(c.descriptors, r)));
  }

  lemma SameEmptiness<T>(a: seq<T>, b: seq<T>)
    requires multiset(a) == multiset(b)
    ensures |a| == |b|
  {
    assert |multiset(a)| == |a| && |multiset(b)| == |b|;
  }

  /** The number of compilations with a local limit on the route. */
  function Coverers(cs: seq<Compiled>, r: RouteId): nat {
    if cs == [] then 0
    else Coverers(cs[..|cs| - 1], r) + if LocalOn(cs[|cs| - 1].descriptors, r) == [] then 0 else 1
  }

  ghost predicate TablesGood(cs: seq<Compiled>) {
    forall i :: 0 <= i < |cs| ==> NoOverlap(LocalPlacesOf(cs[i]))
  }

  lemma OwnTable(naming: Naming, c: Compiled, r: RouteId)
    requires IsGood(naming, c) && NoOverlap(LocalPlacesOf(c))
    ensures multiset(ApplyAll(Replace, r, c.patches).limits) ==
      multiset(Map(LimitOn(naming), LocalOn(c.descriptors, r)))
  {
    hide IsCompiledFrom, OneDirection, NoOverlap, AllPlaces, Covering, LimitOn, ApplyAll;
    var actionPatches: seq<Patch>, actionOrder: seq<string>, bucketPatches: seq<Patch>, bucketOrder: seq<string> :|
      IsCompiledFrom(naming, c.descriptors, c.rls, c.patches, actionPatches, actionOrder, bucketPatches, bucketOrder);
    LimitsAfterReplacing(naming, c.descriptors, c.rls, c.patches, actionPatches, actionOrder, bucketPatches,
      bucketOrder, r);
  }

  lemma JoinedSnoc(cs: seq<Compiled>, c: Compiled)
    ensures FlatMap(PatchesOf, cs + [c]) == FlatMap(PatchesOf, cs) + c.patches
    ensures FlatMap(LimitsOf, cs + [c]) == FlatMap(LimitsOf, cs) + c.descriptors
  {
    FlatMapAppend(PatchesOf, cs, [c]);
    FlatMapAppend(LimitsOf, cs, [c]);
    assert FlatMap(PatchesOf, [c]) == c.patches + [] == c.patches;
    assert FlatMap(LimitsOf, [c]) == c.descriptors + [] == c.descriptors;
  }

  /**
   The table that several filters leave: all local limits that cover the route if no two of the filters have such, and
   fewer than there are otherwise.
   */
  lemma {:induction false} JoinedTable(naming: Naming, cs: seq<Compiled>, r: RouteId)
    requires AreGood(naming, cs) && TablesGood(cs)
    ensures var all := LocalOn(FlatMap(LimitsOf, cs), r);
      var table := ApplyAll(Replace, r, FlatMap(PatchesOf, cs)).limits;
      && (Coverers(cs, r) == 0 <==> all == [])
      && (Coverers(cs, r) <= 1 ==> multiset(table) == multiset(Map(LimitOn(naming), all)))
      && (Coverers(cs, r) >= 2 ==> |table| < |all|)
  {
    hide IsGood, NoOverlap, LocalPlacesOf, LocalOn, LimitOn, ApplyAll, FlatMap, SetsTable;
    if cs == [] {
      NoTable(r);
    } else {
      var init, c := cs[..|cs| - 1], cs[|cs| - 1];
      assert cs == init + [c];
      JoinedTable(naming, init, r);
      JoinedSnoc(init, c);
      CoveringAppend(FlatMap(LimitsOf, init), c.descriptors, r);
      BucketsHoldLimits(naming, c);
      LastTableDecides(r, FlatMap(PatchesOf, init), c.patches);
      SetsTableExactly(naming, c, r);
      OwnTable(naming, c, r);
      SameEmptiness(ApplyAll(Replace, r, c.patches).limits, Map(LimitOn(naming), LocalOn(c.descriptors, r)));
      MapJoined(LimitOn(naming), LocalOn(FlatMap(LimitsOf, init), r), LocalOn(c.descriptors, r));
    }
  }

  lemma NoTable(r: RouteId)
    ensures ApplyAll(Replace, r, FlatMap(PatchesOf, [])).limits == [] && LocalOn(FlatMap(LimitsOf, []), r) == []
  {
  }

  /** The merged filters leave the table of all local limits that cover the route. */
  ghost predicate TableFaithful(naming: Naming, cs: seq<Compiled>, r: RouteId) {
    multiset(ApplyAll(Replace, r, FlatMap(PatchesOf, cs)).limits) ==
      multiset(Map(LimitOn(naming), LocalOn(FlatMap(LimitsOf, cs), r)))
  }

  /** If tables replace, filters that are right on their own are right together on exactly the routes of at most one. */
  lemma ApartExactly(naming: Naming, cs: seq<Compiled>, r: RouteId)
    requires AreGood(naming, cs) && TablesGood(cs)
    ensures TableFaithful(naming, cs, r) <==> Coverers(cs, r) <= 1
  {
    hide AreGood, TablesGood, LocalOn, LimitOn, ApplyAll, FlatMap, Coverers;
    JoinedTable(naming, cs, r);
    var table, all := ApplyAll(Replace, r, FlatMap(PatchesOf, cs)).limits, LocalOn(FlatMap(LimitsOf, cs), r);
    if TableFaithful(naming, cs, r) {
      SameEmptiness(table, Map(LimitOn(naming), all));
    }
  }

  lemma {:induction false} TwoCoverers(cs: seq<Compiled>, i: nat, j: nat, r: RouteId)
    requires i < j < |cs| && LocalOn(cs[i].descriptors, r) != [] && LocalOn(cs[j].descriptors, r) != []
    ensures Coverers(cs, r) >= 2
  {
    hide LocalOn;
    if j < |cs| - 1 {
      TwoCoverers(cs[..|cs| - 1], i, j, r);
    } else {
      OneCoverer(cs[..|cs| - 1], i, r);
    }
  }

  lemma {:induction false} OneCoverer(cs: seq<Compiled>, i: nat, r: RouteId)
    requires i < |cs| && LocalOn(cs[i].descriptors, r) != []
    ensures Coverers(cs, r) >= 1
  {
    hide LocalOn;
    if i < |cs| - 1 {
      OneCoverer(cs[..|cs| - 1], i, r);
    }
  }

  lemma PlacedCovers(descriptors: seq<Descriptor>, d: Descriptor, rc: RouteConfig, r: RouteId)
    requires d in descriptors && IsLocal(d) && rc in RouteConfigs(d.target) && Covers(r, rc)
    ensures LocalOn(descriptors, r) != []
  {
    hide RouteConfigs;
    var p := Placed(d, rc);
    InFilter(IsLocal, descriptors);
    PlacedFrom(Filter(IsLocal, descriptors), p);
    InCovering(AllPlaces(Filter(IsLocal, descriptors)), r);
    assert p in LocalOn(descriptors, r);
  }

  /** The case in which they are not: two sets of a workload, each with a limit for all ports. */
  lemma AnyPortInTwoSets(naming: Naming, cs: seq<Compiled>, i: nat, j: nat, d: Descriptor, e: Descriptor)
    requires AreGood(naming, cs) && TablesGood(cs) && i < j < |cs|
    requires d in cs[i].descriptors && e in cs[j].descriptors && IsLocal(d) && IsLocal(e)
    requires d.target.None? && e.target.None?
    ensures exists r :: !TableFaithful(naming, cs, r)
  {
    hide LocalOn, AreGood, TablesGood, TableFaithful;
    var rc := RouteConfig(ALLOW_ALL_PORT, INBOUND_DEFAULT_ROUTE, INBOUND);
    var r := RouteIdOf(rc);
    PlacedCovers(cs[i].descriptors, d, rc, r);
    PlacedCovers(cs[j].descriptors, e, rc, r);
    TwoCoverers(cs, i, j, r);
    ApartExactly(naming, cs, r);
  }

  lemma JoinedDescriptors(naming: Naming, cs: seq<Compiled>)
    requires AreGood(naming, cs)
    ensures NoCustom(FlatMap(LimitsOf, cs))
  {
    forall d | d in FlatMap(LimitsOf, cs)
      ensures !IsCustom(d)
    {
      InFlatMap(LimitsOf, cs, d);
      var i :| 0 <= i < |cs| && d in LimitsOf(cs[i]);
      assert IsGood(naming, cs[i]);
    }
  }

  /** Several filters on one workload preserve meaning together. */
  lemma JoinedMeaning(mode: MergeMode, naming: Naming, re: Regex, cs: seq<Compiled>, r: RouteId,
      headers: Headers)
    requires AreGood(naming, cs) && DistinctNames(naming, FlatMap(LimitsOf, cs))
    requires mode == Replace ==> TablesGood(cs) && Coverers(cs, r) <= 1
    ensures multiset(Consulted(re, headers, ApplyAll(mode, r, FlatMap(PatchesOf, cs)))) ==
      multiset(Map(LimitOn(naming), Wanted(re, FlatMap(LimitsOf, cs), r, headers)))
  {
    hide AreGood, TablesGood, DistinctNames, LimitOn, ActionOn, ApplyAll, FlatMap, Coverers, Wanted, Consulted,
      Covering, NoCustom;
    var patches, all := FlatMap(PatchesOf, cs), FlatMap(LimitsOf, cs);
    JoinedDescriptors(naming, cs);
    ApplyAllActions(mode, r, patches);
    JoinedActions(naming, cs, r);
    assert ActionsOn(r) == (p: Patch) => ActionsAt(r, p);
    if mode == Append {
      ApplyAllLimits(r, patches);
      JoinedLimits(naming, cs, r);
      assert LimitsOn(r) == (p: Patch) => LimitsAt(r, p);
    } else {
      JoinedTable(naming, cs, r);
    }
    ConsultedOf(naming, re, headers, all, r, ApplyAll(mode, r, patches));
    SharedIsWanted(naming, re, all, r, headers);
  }

  // ----- The filters of a service -----

  /** What the filter of a set was generated from. */
  datatype Origin = Origin(descriptors: seq<Descriptor>, rls: string)

  /** The sets of a spec as it is evaluated. */
  function SpecOrigins(ev: Evaluator, spec: SmartLimiterSpec): string -> Origin {
    name => Origin(ValidOf(ev, spec, name), spec.rls)
  }

  /** The compilation of a set, if its filter selects the workload. */
  function OnWorkload(origins: string -> Origin, efs: map<string, Option<EnvoyFilter>>, workload: Labels):
    string -> seq<Compiled>
  {
    name =>
      if name in efs && efs[name].Some? && Selects(efs[name].value.labels, workload) then
        [Compiled(origins(name).descriptors, origins(name).rls, efs[name].value.patches)]
      else
        []
  }

  /** The compilations that a workload meets, in the order in which the filters are applied. */
  function Met(origins: string -> Origin, efs: map<string, Option<EnvoyFilter>>, workload: Labels, order: seq<string>):
    seq<Compiled>
  {
    FlatMap(OnWorkload(origins, efs, workload), order)
  }

  /** The limits that the filters of a workload were generated from. */
  function LimitsMet(origins: string -> Origin, efs: map<string, Option<EnvoyFilter>>, workload: Labels,
      order: seq<string>): seq<Descriptor>
  {
    FlatMap(LimitsOf, Met(origins, efs, workload, order))
  }

  /** The patches of a set's filter, if it selects the workload. */
  function PatchesOn(efs: map<string, Option<EnvoyFilter>>, workload: Labels): string -> seq<Patch> {
    name =>
      if name in efs && efs[name].Some? && Selects(efs[name].value.labels, workload) then efs[name].value.patches
      else []
  }

  /** The patches of the filters that select a workload, one filter after another. */
  function MergedOn(efs: map<string, Option<EnvoyFilter>>, workload: Labels, order: seq<string>): seq<Patch> {
    FlatMap(PatchesOn(efs, workload), order)
  }

  lemma {:induction false} MergedIsMet(origins: string -> Origin, efs: map<string, Option<EnvoyFilter>>,
      workload: Labels, order: seq<string>)
    ensures MergedOn(efs, workload, order) == FlatMap(PatchesOf, Met(origins, efs, workload, order))
  {
    if order != [] {
      var here, rest := OnWorkload(origins, efs, workload)(order[0]), Met(origins, efs, workload, order[1..]);
      MergedIsMet(origins, efs, workload, order[1..]);
      FlatMapAppend(PatchesOf, here, rest);
      if here != [] {
        assert FlatMap(PatchesOf, here) == here[0].patches + [] == here[0].patches;
      }
    }
  }

  /**
   The workload belongs to the set: it carries the set's labels, and of the service's those that the set leaves alone.
   */
  predicate IsOf(selector: Labels, labels: Labels, workload: Labels) {
    && (forall k :: k in labels ==> k in workload && workload[k] == labels[k])
    && (forall k :: k in selector && k !in labels ==> k in workload && workload[k] == selector[k])
  }

  /** The labels of a generated filter select exactly the workloads of its set. */
  lemma SelectsSet(selector: Labels, labels: Labels, workload: Labels)
    ensures Selects(selector + labels, workload) <==> IsOf(selector, labels, workload)
  {
    var all := selector + labels;
    assert forall k :: k in all <==> k in selector || k in labels;
    if Selects(all, workload) {
      forall k | k in labels
        ensures k in workload && workload[k] == labels[k]
      {
        assert k in all && all[k] == labels[k];
      }
      forall k | k in selector && k !in labels
        ensures k in workload && workload[k] == selector[k]
      {
        assert k in all && all[k] == selector[k];
      }
    }
  }

  /** What the spec asks for on a workload: the limits of each set whose labels it carries. */
  function SpecOn(naming: Naming, ev: Evaluator, spec: SmartLimiterSpec, re: Regex, r: RouteId, headers: Headers,
      selector: Labels, sets: seq<Subset>, workload: Labels): string -> seq<LocalDescriptor>
  {
    name =>
      if spec.sets.Some? && name in spec.sets.value && IsOf(selector, LabelsOf(sets, name), workload) then
        FlatMap(SpecLimitsOf(naming, ev, re, r, headers), spec.sets.value[name])
      else
        []
  }

  /** Of the workloads of a service, the base filter selects all, and a subset's filter those that carry its labels. */
  lemma WorkloadsOfSet(selector: Labels, labels: Labels, workload: Labels)
    requires Selects(selector, workload)
    ensures IsOf(selector, map[], workload)
    ensures IsOf(selector, labels, workload) <==> Selects(labels, workload)
  {
  }

  /** The limits of each set have one direction per route key. */
  ghost predicate OneDirectionEach(ev: Evaluator, spec: SmartLimiterSpec, names: seq<string>) {
    forall name :: name in names ==> OneDirection(AllPlaces(ValidOf(ev, spec, name)))
  }

  lemma {:induction false} AllMetGood(naming: Naming, origins: string -> Origin, efs: map<string, Option<EnvoyFilter>>,
      workload: Labels, order: seq<string>)
    requires forall name :: name in order ==> AreGood(naming, OnWorkload(origins, efs, workload)(name))
    ensures AreGood(naming, Met(origins, efs, workload, order))
  {
    hide OnWorkload, IsGood;
    if order != [] {
      AllMetGood(naming, origins, efs, workload, order[1..]);
    }
  }

  /** A generated filter is a good compilation of the set that it was generated from. */
  lemma GeneratedGood(naming: Naming, ev: Evaluator, spec: SmartLimiterSpec, selector: Labels, sets: seq<Subset>,
      efs: map<string, Option<EnvoyFilter>>, workload: Labels, name: string)
    requires FiltersAgree(naming, ev, spec, selector, sets, efs)
    requires OneDirection(AllPlaces(ValidOf(ev, spec, name)))
    ensures AreGood(naming, OnWorkload(SpecOrigins(ev, spec), efs, workload)(name))
  {
    hide IsCompiled, OneDirection, Valid, LabelsOf, Names, Selects, AllPlaces;
    if name in efs && efs[name].Some? {
      assert IsFilterOf(naming, ValidOf(ev, spec, name), spec.rls, selector + LabelsOf(sets, name), efs[name]);
      ValidShape(ev, spec.sets.value[name]);
    }
  }

  lemma MetGood(naming: Naming, ev: Evaluator, spec: SmartLimiterSpec, selector: Labels, sets: seq<Subset>,
      efs: map<string, Option<EnvoyFilter>>, workload: Labels, order: seq<string>)
    requires FiltersAgree(naming, ev, spec, selector, sets, efs) && OneDirectionEach(ev, spec, order)
    ensures AreGood(naming, Met(SpecOrigins(ev, spec), efs, workload, order))
  {
    hide FiltersAgree, OnWorkload, AreGood, OneDirection, AllPlaces, Met;
    forall name | name in order
      ensures AreGood(naming, OnWorkload(SpecOrigins(ev, spec), efs, workload)(name))
    {
      GeneratedGood(naming, ev, spec, selector, sets, efs, workload, name);
    }
    AllMetGood(naming, SpecOrigins(ev, spec), efs, workload, order);
  }

  lemma WantedIsAsked(naming: Naming, re: Regex, descriptors: seq<Descriptor>, r: RouteId, headers: Headers)
    ensures Map(LimitOn(naming), Wanted(re, descriptors, r, headers)) ==
      Asked(naming, re, r, headers, AllPlaces(Filter(IsLocal, descriptors)))
  {
  }

  /** What a list of limits asks for on a route. */
  ghost function AskedBy(naming: Naming, re: Regex, r: RouteId, headers: Headers, descriptors: seq<Descriptor>):
    seq<LocalDescriptor>
  {
    Asked(naming, re, r, headers, AllPlaces(Filter(IsLocal, descriptors)))
  }

  lemma AskedJoined(naming: Naming, re: Regex, r: RouteId, headers: Headers, a: seq<Descriptor>, b: seq<Descriptor>)
    ensures AskedBy(naming, re, r, headers, a + b) ==
      AskedBy(naming, re, r, headers, a) + AskedBy(naming, re, r, headers, b)
  {
    hide Asked;
    FilterAppend(IsLocal, a, b);
    FlatMapAppend(Places, Filter(IsLocal, a), Filter(IsLocal, b));
    AskedAppend(naming, re, r, headers, AllPlaces(Filter(IsLocal, a)), AllPlaces(Filter(IsLocal, b)));
  }

  /** What the compilation of one set asks for on a workload. */
  ghost function AskedOn(naming: Naming, re: Regex, r: RouteId, headers: Headers, origins: string -> Origin,
      efs: map<string, Option<EnvoyFilter>>, workload: Labels): string -> seq<LocalDescriptor>
  {
    (name: string) => AskedBy(naming, re, r, headers, FlatMap(LimitsOf, OnWorkload(origins, efs, workload)(name)))
  }

  /** What the limits of a set that take effect ask for. */
  lemma AskedOfValid(naming: Naming, ev: Evaluator, spec: SmartLimiterSpec, re: Regex, r: RouteId, headers: Headers,
      name: string)
    ensures AskedBy(naming, re, r, headers, ValidOf(ev, spec, name)) ==
      if spec.sets.Some? && name in spec.sets.value then
        FlatMap(SpecLimitsOf(naming, ev, re, r, headers), spec.sets.value[name])
      else
        []
  {
    hide Valid, Asked, SpecLimits;
    NoneAsked(naming, re, r, headers);
    if spec.sets.Some? && name in spec.sets.value {
      AskedOfSpec(naming, ev, re, r, headers, spec.sets.value[name]);
    }
  }

  /** One set: the limits of its compilation ask for what the spec asks for, on the workloads its filter selects. */
  lemma AskedOfSet(naming: Naming, ev: Evaluator, spec: SmartLimiterSpec, re: Regex, r: RouteId, headers: Headers,
      selector: Labels, sets: seq<Subset>, efs: map<string, Option<EnvoyFilter>>, workload: Labels, name: string)
    requires FiltersAgree(naming, ev, spec, selector, sets, efs) && name in efs
    ensures AskedOn(naming, re, r, headers, SpecOrigins(ev, spec), efs, workload)(name) ==
      SpecOn(naming, ev, spec, re, r, headers, selector, sets, workload)(name)
  {
    hide IsCompiled, ValidOf, AskedBy, SpecLimits, LabelsOf, Names, Selects, FlatMap, IsOf;
    var valid := ValidOf(ev, spec, name);
    assert IsFilterOf(naming, valid, spec.rls, selector + LabelsOf(sets, name), efs[name]);
    NoneAsked(naming, re, r, headers);
    AskedOfValid(naming, ev, spec, re, r, headers, name);
    SelectsSet(selector, LabelsOf(sets, name), workload);
    var here := OnWorkload(SpecOrigins(ev, spec), efs, workload)(name);
    if here == [] {
      assert AskedOn(naming, re, r, headers, SpecOrigins(ev, spec), efs, workload)(name) == [];
    } else {
      OneCompiled(here[0]);
      assert AskedOn(naming, re, r, headers, SpecOrigins(ev, spec), efs, workload)(name) ==
        AskedBy(naming, re, r, headers, valid);
    }
  }

  lemma NoneAsked(naming: Naming, re: Regex, r: RouteId, headers: Headers)
    ensures AskedBy(naming, re, r, headers, []) == [] && FlatMap(LimitsOf, []) == []
  {
    NothingAsked(naming, re, r, headers);
    assert AllPlaces(Filter(IsLocal, [])) == [];
  }

  lemma OneCompiled(c: Compiled)
    ensures FlatMap(LimitsOf, [c]) == c.descriptors
  {
    assert FlatMap(LimitsOf, [c]) == c.descriptors + [];
  }

  /** What several sets ask for together is what they ask for one by one. */
  lemma {:induction false} AskedByNames(naming: Naming, re: Regex, r: RouteId, headers: Headers,
      origins: string -> Origin, efs: map<string, Option<EnvoyFilter>>, workload: Labels, order: seq<string>)
    ensures AskedBy(naming, re, r, headers, LimitsMet(origins, efs, workload, order)) ==
      FlatMap(AskedOn(naming, re, r, headers, origins, efs, workload), order)
  {
    hide AskedBy, OnWorkload;
    if order == [] {
      NoneAsked(naming, re, r, headers);
    } else {
      var here, rest := OnWorkload(origins, efs, workload)(order[0]), Met(origins, efs, workload, order[1..]);
      AskedByNames(naming, re, r, headers, origins, efs, workload, order[1..]);
      FlatMapAppend(LimitsOf, here, rest);
      AskedJoined(naming, re, r, headers, FlatMap(LimitsOf, here), FlatMap(LimitsOf, rest));
    }
  }

  lemma AskedOfSets(naming: Naming, ev: Evaluator, spec: SmartLimiterSpec, re: Regex, r: RouteId,
      headers: Headers, selector: Labels, sets: seq<Subset>, efs: map<string, Option<EnvoyFilter>>, workload: Labels,
      order: seq<string>)
    requires FiltersAgree(naming, ev, spec, selector, sets, efs) && forall name :: name in order ==> name in efs
    ensures FlatMap(AskedOn(naming, re, r, headers, SpecOrigins(ev, spec), efs, workload), order) ==
      FlatMap(SpecOn(naming, ev, spec, re, r, headers, selector, sets, workload), order)
  {
    hide FiltersAgree, AskedOn, SpecOn, FlatMap;
    var asked := AskedOn(naming, re, r, headers, SpecOrigins(ev, spec), efs, workload);
    var spec' := SpecOn(naming, ev, spec, re, r, headers, selector, sets, workload);
    forall name | name in order
      ensures asked(name) == spec'(name)
    {
      AskedOfSet(naming, ev, spec, re, r, headers, selector, sets, efs, workload, name);
    }
    FlatMapCongruence(asked, spec', order);
  }

  /** The filters that select a workload, whatever they were generated from, make a request meet what those ask for. */
  lemma MetMeaning(mode: MergeMode, naming: Naming, origins: string -> Origin, efs: map<string, Option<EnvoyFilter>>,
      workload: Labels, order: seq<string>, re: Regex, r: RouteId, headers: Headers)
    requires AreGood(naming, Met(origins, efs, workload, order))
    requires DistinctNames(naming, LimitsMet(origins, efs, workload, order))
    requires var met := Met(origins, efs, workload, order); mode == Replace ==> TablesGood(met) && Coverers(met, r) <= 1
    ensures multiset(Consulted(re, headers, ApplyAll(mode, r, MergedOn(efs, workload, order)))) ==
      multiset(FlatMap(AskedOn(naming, re, r, headers, origins, efs, workload), order))
  {
    hide AreGood, DistinctNames, TablesGood, Coverers, Met, Consulted, ApplyAll, FlatMap, Asked, Wanted, LimitOn,
      MergedOn, AskedOn;
    MergedIsMet(origins, efs, workload, order);
    JoinedMeaning(mode, naming, re, Met(origins, efs, workload, order), r, headers);
    WantedIsAsked(naming, re, LimitsMet(origins, efs, workload, order), r, headers);
    AskedByNames(naming, re, r, headers, origins, efs, workload, order);
  }

  /**
   From the spec to a workload: the local limits that a request to a workload meets, under all generated filters that
   select it and in whatever order they are applied, are those of the spec's limits that take effect, cover its route
   and match, of every set whose labels the workload carries. If tables replace, one filter only may have limits on the
   route.
   */
  lemma WorkloadMeaning(mode: MergeMode, naming: Naming, ev: Evaluator, spec: SmartLimiterSpec, selector: Labels,
      sets: seq<Subset>, efs: map<string, Option<EnvoyFilter>>, workload: Labels, order: seq<string>,
      re: Regex, r: RouteId, headers: Headers)
    requires FiltersAgree(naming, ev, spec, selector, sets, efs) && IsOrderOf(order, efs.Keys)
    requires OneDirectionEach(ev, spec, order)
    requires DistinctNames(naming, LimitsMet(SpecOrigins(ev, spec), efs, workload, order))
    requires var met := Met(SpecOrigins(ev, spec), efs, workload, order);
      mode == Replace ==> TablesGood(met) && Coverers(met, r) <= 1
    ensures multiset(Consulted(re, headers, ApplyAll(mode, r, MergedOn(efs, workload, order)))) ==
      multiset(FlatMap(SpecOn(naming, ev, spec, re, r, headers, selector, sets, workload), order))
  {
    hide FiltersAgree, OneDirectionEach, DistinctNames, TablesGood, Coverers, Met, LimitsMet, Consulted, ApplyAll,
      SpecOn, FlatMap, AskedOn, AreGood, MergedOn;
    MetGood(naming, ev, spec, selector, sets, efs, workload, order);
    MetMeaning(mode, naming, SpecOrigins(ev, spec), efs, workload, order, re, r, headers);
    AskedOfSets(naming, ev, spec, re, r, headers, selector, sets, efs, workload, order);
  }
}
