/**
 Filters that are left behind. A refresh does not know the subsets that have been removed from the service, and their
 filters stay in the API server, where they go on selecting workloads.
 */
module Leftover {
  import opened Seqs
  import opened Limiter
  import opened Descriptors
  import opened Routes
  import opened LocalLimit
  import opened EnvoyFilters
  import opened Meaning
  import opened Preservation
  import opened Agreement
  import opened Workload
  import FS = FilterStore

  /** The sets of a pass as they were generated, the others as they were when they were left behind. */
  function OriginsOf(ev: Evaluator, spec: SmartLimiterSpec, names: set<string>,
      left: string -> Origin): string -> Origin {
    name => if name in names then SpecOrigins(ev, spec)(name) else left(name)
  }

  function Among(names: set<string>): string -> bool {
    name => name in names
  }

  /** Filters and origins that are the same on some names are met in the same way. */
  lemma MetSame(a: string -> Origin, b: string -> Origin, efs: map<string, Option<EnvoyFilter>>,
      efs': map<string, Option<EnvoyFilter>>, workload: Labels, order: seq<string>)
    requires forall name :: name in order ==> a(name) == b(name)
    requires forall name :: name in order ==> name in efs && name in efs' && efs[name] == efs'[name]
    ensures Met(a, efs, workload, order) == Met(b, efs', workload, order)
  {
    hide FlatMap, Selects;
    FlatMapCongruence(OnWorkload(a, efs, workload), OnWorkload(b, efs', workload), order);
  }

  lemma AskedSame(naming: Naming, re: Regex, r: RouteId, headers: Headers, a: string -> Origin, b: string -> Origin,
      efs: map<string, Option<EnvoyFilter>>, efs': map<string, Option<EnvoyFilter>>, workload: Labels,
      order: seq<string>)
    requires forall name :: name in order ==> a(name) == b(name)
    requires forall name :: name in order ==> name in efs && name in efs' && efs[name] == efs'[name]
    ensures FlatMap(AskedOn(naming, re, r, headers, a, efs, workload), order) ==
      FlatMap(AskedOn(naming, re, r, headers, b, efs', workload), order)
  {
    hide FlatMap, Met, AskedOn, LimitsOf;
    MetSame(a, b, efs, efs', workload, order);
    AskedByNames(naming, re, r, headers, a, efs, workload, order);
    AskedByNames(naming, re, r, headers, b, efs', workload, order);
  }

  /**
   The filters that were left behind and select the workload are good compilations of what they were generated from.
   */
  ghost predicate LeftGood(naming: Naming, left: string -> Origin, stored: map<string, Option<EnvoyFilter>>,
      workload: Labels, gone: seq<string>)
  {
    forall name :: name in gone ==> AreGood(naming, OnWorkload(left, stored, workload)(name))
  }

  lemma AllGood(naming: Naming, ev: Evaluator, spec: SmartLimiterSpec, selector: Labels, sets: seq<Subset>,
      efs: map<string, Option<EnvoyFilter>>, stored: map<string, Option<EnvoyFilter>>, left: string -> Origin,
      workload: Labels, order: seq<string>)
    requires FiltersAgree(naming, ev, spec, selector, sets, efs)
    requires forall name :: name in efs ==> name in stored && stored[name] == efs[name]
    requires OneDirectionEach(ev, spec, Filter(Among(efs.Keys), order))
    requires LeftGood(naming, left, stored, workload, Filter(Not(Among(efs.Keys)), order))
    ensures AreGood(naming, Met(OriginsOf(ev, spec, efs.Keys, left), stored, workload, order))
  {
    hide FiltersAgree, AreGood, OneDirection, AllPlaces, Met, Filter;
    var origins := OriginsOf(ev, spec, efs.Keys, left);
    InFilter(Among(efs.Keys), order);
    InFilter(Not(Among(efs.Keys)), order);
    forall name | name in order
      ensures AreGood(naming, OnWorkload(origins, stored, workload)(name))
    {
      if name in efs {
        GeneratedGood(naming, ev, spec, selector, sets, efs, workload, name);
        assert OnWorkload(origins, stored, workload)(name) == OnWorkload(SpecOrigins(ev, spec), efs, workload)(name);
      } else {
        assert OnWorkload(origins, stored, workload)(name) == OnWorkload(left, stored, workload)(name);
      }
    }
    AllMetGood(naming, origins, stored, workload, order);
  }

  /** Filters that an earlier refresh generated are good compilations. */
  lemma LeftIsGood(naming: Naming, ev: Evaluator, spec: SmartLimiterSpec, selector: Labels, sets: seq<Subset>,
      efs: map<string, Option<EnvoyFilter>>, stored: map<string, Option<EnvoyFilter>>, workload: Labels,
      gone: seq<string>)
    requires FiltersAgree(naming, ev, spec, selector, sets, efs) && OneDirectionEach(ev, spec, gone)
    requires forall name :: name in gone ==> name in stored && name in efs && stored[name] == efs[name]
    ensures LeftGood(naming, SpecOrigins(ev, spec), stored, workload, gone)
  {
    hide FiltersAgree, AreGood, OneDirection, AllPlaces;
    forall name | name in gone
      ensures AreGood(naming, OnWorkload(SpecOrigins(ev, spec), stored, workload)(name))
    {
      GeneratedGood(naming, ev, spec, selector, sets, efs, workload, name);
      assert OnWorkload(SpecOrigins(ev, spec), stored, workload)(name) ==
        OnWorkload(SpecOrigins(ev, spec), efs, workload)(name);
    }
  }

  /** What all stored filters ask for is what the spec asks for and what the filters that were left behind ask for. */
  lemma AskedSplit(naming: Naming, ev: Evaluator, spec: SmartLimiterSpec, selector: Labels, sets: seq<Subset>,
      efs: map<string, Option<EnvoyFilter>>, stored: map<string, Option<EnvoyFilter>>, left: string -> Origin,
      workload: Labels, order: seq<string>, re: Regex, r: RouteId, headers: Headers)
    requires FiltersAgree(naming, ev, spec, selector, sets, efs)
    requires forall name :: name in efs ==> name in stored && stored[name] == efs[name]
    requires forall name :: name in order ==> name in stored
    ensures var kept, gone := Filter(Among(efs.Keys), order), Filter(Not(Among(efs.Keys)), order);
      var origins := OriginsOf(ev, spec, efs.Keys, left);
      multiset(FlatMap(AskedOn(naming, re, r, headers, origins, stored, workload), order)) ==
        multiset(FlatMap(SpecOn(naming, ev, spec, re, r, headers, selector, sets, workload), kept))
        + multiset(FlatMap(AskedOn(naming, re, r, headers, left, stored, workload), gone))
  {
    hide FiltersAgree, FlatMap, AskedOn, SpecOn, Filter, SpecOrigins;
    var origins, now := OriginsOf(ev, spec, efs.Keys, left), Among(efs.Keys);
    InFilter(now, order);
    InFilter(Not(now), order);
    FlatMapSplit(AskedOn(naming, re, r, headers, origins, stored, workload), now, order);
    AskedSame(naming, re, r, headers, origins, SpecOrigins(ev, spec), stored, efs, workload, Filter(now, order));
    AskedSame(naming, re, r, headers, origins, left, stored, stored, workload, Filter(Not(now), order));
    AskedOfSets(naming, ev, spec, re, r, headers, selector, sets, efs, workload, Filter(now, order));
  }

  lemma AddsNothing<T>(a: multiset<T>, b: multiset<T>)
    ensures a + b == a <==> b == multiset{}
  {
    assert |a + b| == |a| + |b|;
  }

  /** What filters ask for is nothing exactly if no limit of theirs covers the route and matches the request. */
  lemma AsksNothing(naming: Naming, re: Regex, r: RouteId, headers: Headers, origins: string -> Origin,
      efs: map<string, Option<EnvoyFilter>>, workload: Labels, order: seq<string>)
    ensures multiset(FlatMap(AskedOn(naming, re, r, headers, origins, efs, workload), order)) == multiset{} <==>
      Wanted(re, LimitsMet(origins, efs, workload, order), r, headers) == []
  {
    hide AskedOn, LimitsMet, Wanted, Asked, FlatMap, LimitOn;
    AskedByNames(naming, re, r, headers, origins, efs, workload, order);
    WantedIsAsked(naming, re, LimitsMet(origins, efs, workload, order), r, headers);
    var asked := FlatMap(AskedOn(naming, re, r, headers, origins, efs, workload), order);
    assert |multiset(asked)| == |asked|;
  }

  /**
   With filters left behind, a request to a workload meets exactly what the spec asks for on it if and only if no limit
   that these filters were generated from covers the request's route and matches it.
   */
  lemma SplitExactly(mode: MergeMode, naming: Naming, ev: Evaluator, spec: SmartLimiterSpec, selector: Labels,
      sets: seq<Subset>, efs: map<string, Option<EnvoyFilter>>, stored: map<string, Option<EnvoyFilter>>,
      left: string -> Origin, workload: Labels, order: seq<string>, re: Regex, r: RouteId, headers: Headers)
    requires FiltersAgree(naming, ev, spec, selector, sets, efs)
    requires forall name :: name in efs ==> name in stored && stored[name] == efs[name]
    requires IsOrderOf(order, stored.Keys)
    requires OneDirectionEach(ev, spec, Filter(Among(efs.Keys), order))
    requires LeftGood(naming, left, stored, workload, Filter(Not(Among(efs.Keys)), order))
    requires DistinctNames(naming, LimitsMet(OriginsOf(ev, spec, efs.Keys, left), stored, workload, order))
    requires var met := Met(OriginsOf(ev, spec, efs.Keys, left), stored, workload, order);
      mode == Replace ==> TablesGood(met) && Coverers(met, r) <= 1
    ensures var kept, gone := Filter(Among(efs.Keys), order), Filter(Not(Among(efs.Keys)), order);
      (multiset(Consulted(re, headers, ApplyAll(mode, r, MergedOn(stored, workload, order)))) ==
        multiset(FlatMap(SpecOn(naming, ev, spec, re, r, headers, selector, sets, workload), kept)))
      <==> Wanted(re, LimitsMet(left, stored, workload, gone), r, headers) == []
  {
    hide FiltersAgree, OneDirectionEach, LeftGood, DistinctNames, TablesGood, Coverers, Met, LimitsMet, Consulted,
      ApplyAll, SpecOn, FlatMap, AskedOn, AreGood, MergedOn, Filter, Wanted;
    AllGood(naming, ev, spec, selector, sets, efs, stored, left, workload, order);
    MetMeaning(mode, naming, OriginsOf(ev, spec, efs.Keys, left), stored, workload, order, re, r, headers);
    AskedSplit(naming, ev, spec, selector, sets, efs, stored, left, workload, order, re, r, headers);
    var kept, gone := Filter(Among(efs.Keys), order), Filter(Not(Among(efs.Keys)), order);
    AddsNothing(multiset(FlatMap(SpecOn(naming, ev, spec, re, r, headers, selector, sets, workload), kept)),
      multiset(FlatMap(AskedOn(naming, re, r, headers, left, stored, workload), gone)));
    AsksNothing(naming, re, r, headers, left, stored, workload, gone);
  }

  // ----- Where stored filters come from -----

  /** The pass drives the filters to what was generated from some spec. */
  ghost predicate IsGenerated(sum: Checksum, p: FS.Pass) {
    exists ev: Evaluator, spec: SmartLimiterSpec, selector: Labels, sets: seq<Subset> ::
      FiltersAgree(NamingOf(sum, p.loc), ev, spec, selector, sets, p.efs)
  }

  ghost predicate HasOrigin(naming: Naming, ef: EnvoyFilter) {
    exists o: Origin :: IsCompiled(naming, o.descriptors, o.rls, ef.patches) && NoCustom(o.descriptors)
  }

  lemma GeneratedHasOrigin(sum: Checksum, p: FS.Pass, name: string)
    requires IsGenerated(sum, p) && name in p.efs && p.efs[name].Some?
    ensures HasOrigin(NamingOf(sum, p.loc), p.efs[name].value)
  {
    hide IsCompiled, Valid, LabelsOf, Names;
    var naming := NamingOf(sum, p.loc);
    var ev: Evaluator, spec: SmartLimiterSpec, selector: Labels, sets: seq<Subset> :|
      FiltersAgree(naming, ev, spec, selector, sets, p.efs);
    var o := Origin(ValidOf(ev, spec, name), spec.rls);
    assert IsFilterOf(naming, o.descriptors, spec.rls, selector + LabelsOf(sets, name), p.efs[name]);
    ValidShape(ev, spec.sets.value[name]);
    assert IsCompiled(naming, o.descriptors, o.rls, p.efs[name].value.patches);
  }

  /** In every run of refreshes each filter of a service that is stored was generated from some limits. */
  lemma {:induction false} RunHasOrigins(sum: Checksum, passes: seq<FS.Pass>, loc: Location, name: string)
    requires FS.DotFree(loc)
    requires forall i :: 0 <= i < |passes| ==> FS.DotFree(passes[i].loc) && IsGenerated(sum, passes[i])
    ensures var found := FS.Find(FS.AfterPasses(map[], passes), FS.FilterKeyOf(loc, name));
      found.Some? ==> HasOrigin(NamingOf(sum, loc), found.value.spec)
  {
    hide IsGenerated, HasOrigin, FS.AfterPass, FS.FilterKeyOf;
    if passes != [] {
      var n := |passes| - 1;
      var before, last := FS.AfterPasses(map[], passes[..n]), passes[n];
      RunHasOrigins(sum, passes[..n], loc, name);
      if last.loc == loc && name in last.efs {
        FS.ResultOfSet(before, last, name);
        if last.efs[name].Some? {
          GeneratedHasOrigin(sum, last, name);
        }
      } else {
        FS.OthersUntouched(before, last, loc, name);
      }
    }
  }

  /** A limit for all ports without matchers is wanted by every request on the default inbound route. */
  lemma AlwaysWanted(re: Regex, descriptors: seq<Descriptor>, d: Descriptor, headers: Headers)
    requires d in descriptors && IsLocal(d) && d.matches == [] && d.target.None?
    ensures var r := RouteIdOf(RouteConfig(ALLOW_ALL_PORT, INBOUND_DEFAULT_ROUTE, INBOUND));
      Wanted(re, descriptors, r, headers) != []
  {
    hide Filter, FlatMap;
    var rc := RouteConfig(ALLOW_ALL_PORT, INBOUND_DEFAULT_ROUTE, INBOUND);
    var r, p, local := RouteIdOf(rc), Placed(d, rc), Filter(IsLocal, descriptors);
    InFilter(IsLocal, descriptors);
    PlacedFrom(local, p);
    InCovering(AllPlaces(local), r);
    InFilter((q: Placed) => MatchesAll(re, headers, q.d), Covering(AllPlaces(local), r));
    assert p in Wanted(re, descriptors, r, headers);
  }

  /** The limits of a filter that selects the workload are met. */
  lemma {:induction false} LimitMet(origins: string -> Origin, efs: map<string, Option<EnvoyFilter>>, workload: Labels,
      order: seq<string>, name: string, d: Descriptor)
    requires name in order && name in efs && efs[name].Some? && Selects(efs[name].value.labels, workload)
    requires d in origins(name).descriptors
    ensures d in LimitsMet(origins, efs, workload, order)
  {
    hide Selects;
    var here, rest := OnWorkload(origins, efs, workload)(order[0]), Met(origins, efs, workload, order[1..]);
    FlatMapAppend(LimitsOf, here, rest);
    if order[0] == name {
      OneCompiled(here[0]);
    } else {
      LimitMet(origins, efs, workload, order[1..], name, d);
    }
  }
}
