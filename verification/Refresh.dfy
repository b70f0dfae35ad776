/** One refresh of a limiter from end to end: its filters, its entries in the shared ConfigMap, and its status. */
module Refresh {
  import opened Seqs
  import opened Limiter
  import opened Descriptors
  import opened Routes
  import opened RateLimits
  import opened LocalLimit
  import opened EnvoyFilters
  import opened Meaning
  import opened Preservation
  import opened Agreement
  import W = Workload
  import L = Leftover
  import FS = FilterStore
  import CM = RlsConfigMap
  import RlsContents

  /** What the API server refuses during a refresh. */
  datatype Trouble = Trouble(filters: string -> FS.Fault, configMapRead: bool, configMapUpdate: bool, status: bool)

  /** The artefacts agree with each other, and the status, when it was written, with them. */
  ghost predicate Generated(naming: Naming, ev: Evaluator, spec: SmartLimiterSpec, selector: map<string, string>,
      sets: seq<Subset>, efs: map<string, Option<EnvoyFilter>>, written: Option<map<string, seq<Descriptor>>>,
      global: seq<RlsEntry>)
  {
    exists status ::
      && Agree(naming, ev, spec, selector, sets, efs, status, global)
      && (written.Some? ==> written.value == status)
  }

  /**
   An invalid spec or a service that cannot be looked up ends the refresh before anything is written. Otherwise the
   filters, then the shared ConfigMap, then the status are written, and only the last can make the refresh fail.
   */
  method RefreshLimiter(api: FS.ApiServer, shared: CM.ConfigMapStore, sum: Checksum, ev: Evaluator,
      spec: SmartLimiterSpec,
      loc: Location, revision: string, subsets: seq<Subset>, service: ServiceLookup, globalEnabled: bool,
      trouble: Trouble)
    returns (failed: bool, status: Option<map<string, seq<Descriptor>>>,
      ghost efs: map<string, Option<EnvoyFilter>>, ghost global: seq<RlsEntry>)
    modifies api, shared
    ensures spec.sets.None? || service.LookupFailed? ==>
      failed && status.None? && api.filters == old(api.filters) && shared.data == old(shared.data)
    ensures spec.sets.Some? && service.Selector? ==>
      && Generated(NamingOf(sum, loc), ev, spec, service.labels, AllSets(subsets), efs, status, global)
      && (status.None? <==> trouble.status)
      && api.filters == FS.AfterPass(old(api.filters), FS.Pass(loc, revision, efs, trouble.filters))
      && shared.data == (if !globalEnabled || trouble.configMapRead || trouble.configMapUpdate then old(shared.data)
        else CM.Apply(CM.Op(loc, global), old(shared.data)))
      && failed == trouble.status
  {
    efs, global := map[], [];
    if spec.sets.None? {
      return true, None, efs, global;
    }
    var filters, st, entries, lookupFailed := GenerateEnvoyConfigs(sum, ev, spec, loc, subsets, service);
    if lookupFailed {
      return true, None, efs, global;
    }
    efs, global := filters, entries;
    api.RefreshAll(loc, revision, filters, trouble.filters);
    if globalEnabled {
      shared.RefreshConfigMap(CM.Op(loc, entries), trouble.configMapRead, trouble.configMapUpdate);
    }
    failed, status := trouble.status, if trouble.status then None else Some(st);
  }

  /** Every entry that a set contributes is named by one of its limits. */
  lemma EntryNamed(naming: Naming, descriptors: seq<Descriptor>, e: RlsEntry)
    requires e in RlsEntries(naming, descriptors)
    ensures exists d: Descriptor :: e.value == naming(d)
  {
    RlsEntriesArePrefix(naming, descriptors);
    var j :| 0 <= j < |RlsEntries(naming, descriptors)| && RlsEntries(naming, descriptors)[j] == e;
    assert e.value == naming(descriptors[j]);
  }

  /** The entries generated for a service are its own. */
  lemma GeneratedNames(sum: Checksum, ev: Evaluator, spec: SmartLimiterSpec, loc: Location,
      selector: map<string, string>, sets: seq<Subset>, efs: map<string, Option<EnvoyFilter>>,
      status: map<string, seq<Descriptor>>, global: seq<RlsEntry>)
    requires PlainLocation(loc)
    requires Agree(NamingOf(sum, loc), ev, spec, selector, sets, efs, status, global)
    ensures RlsContents.OwnNames(CM.Op(loc, global))
  {
    hide FiltersAgree, StatusAgrees, RlsEntries, ValidOf, FlatMap;
    var op := CM.Op(loc, global);
    forall i | 0 <= i < |op.desc|
      ensures RlsContents.NamedBy(loc, op.desc[i])
    {
      var e := op.desc[i];
      assert e in global;
      InGlobalList(NamingOf(sum, loc), ev, spec, sets, e);
      var s :| s in sets && e in RlsEntries(NamingOf(sum, loc), Filter(IsGlobal, ValidOf(ev, spec, s.name)));
      EntryNamed(NamingOf(sum, loc), Filter(IsGlobal, ValidOf(ev, spec, s.name)), e);
      var d: Descriptor :| e.value == NamingOf(sum, loc)(d);
      assert e.value == Name(loc.name, loc.namespace, sum(d, loc));
    }
    assert RlsContents.OwnNames(op);
  }

  /**
   What a refresh without trouble establishes. A request to the workloads of a set meets the local limits that the spec
   asks for, under the filter that is stored; and the part of the shared list that the service claims is the entries of
   all its sets. The filter has to be of the limiter's revision, or not to exist before.
   */
  lemma RefreshEstablishes(mode: MergeMode, sum: Checksum, ev: Evaluator, spec: SmartLimiterSpec, loc: Location,
      revision: string,
      selector: map<string, string>, sets: seq<Subset>, efs: map<string, Option<EnvoyFilter>>,
      status: map<string, seq<Descriptor>>, global: seq<RlsEntry>,
      before: FS.Store, faults: string -> FS.Fault, data: Option<CM.Data>,
      name: string, re: Regex, r: RouteId, headers: Headers)
    requires Agree(NamingOf(sum, loc), ev, spec, selector, sets, efs, status, global)
    requires PlainLocation(loc) && CM.ListOf(data).Some?
    requires name in efs && efs[name].Some? && faults(name) == FS.NO_FAULT
    requires var found := FS.Find(before, FS.FilterKeyOf(loc, name)); found.None? || found.value.revision == revision
    requires DistinctNames(NamingOf(sum, loc), ValidOf(ev, spec, name)) &&
      OneDirection(AllPlaces(ValidOf(ev, spec, name)))
    requires mode == Replace ==> NoOverlap(AllPlaces(Filter(IsLocal, ValidOf(ev, spec, name))))
    ensures spec.sets.Some? && name in spec.sets.value
    ensures var stored := FS.Find(FS.AfterPass(before, FS.Pass(loc, revision, efs, faults)), FS.FilterKeyOf(loc, name));
      && stored.Some?
      && multiset(Consulted(re, headers, ApplyAll(mode, r, stored.value.spec.patches))) ==
        multiset(FlatMap(SpecLimitsOf(NamingOf(sum, loc), ev, re, r, headers), spec.sets.value[name]))
    ensures var list := CM.ListOf(CM.Apply(CM.Op(loc, global), data));
      list.Some? && Filter(RlsContents.ClaimedBy(loc), list.value) == global
    ensures forall e :: e in global ==> exists set', d :: ComesFrom(NamingOf(sum, loc), ev, spec, efs, set', d, e)
  {
    hide ComesFrom, Agree, Consulted, ApplyAll, CM.Apply, FS.FilterKeyOf, FS.AfterPass;
    SpecPreservesMeaning(mode, NamingOf(sum, loc), ev, spec, selector, sets, efs, status, global, name, re, r, headers);
    FS.DrivenExactly(before, FS.Pass(loc, revision, efs, faults), name);
    GeneratedNames(sum, ev, spec, loc, selector, sets, efs, status, global);
    OwnPartOfList(CM.Op(loc, global), data);
    forall e | e in global
      ensures exists set', d :: ComesFrom(NamingOf(sum, loc), ev, spec, efs, set', d, e)
    {
      GlobalListIsAsked(NamingOf(sum, loc), ev, spec, selector, sets, efs, status, global, e);
    }
  }

  /** All sets for which the service has a filter in the API server, or is given one. */
  ghost predicate AreAllSets(store: FS.Store, p: FS.Pass, names: set<string>) {
    p.efs.Keys <= names && forall name :: FS.FilterKeyOf(p.loc, name) in store ==> name in names
  }

  /**
   After a refresh without trouble, a request to a workload meets, under all filters of the service that are stored and
   select the workload, the limits that the spec asks for on it, if and only if it meets none under the filters that
   were left behind: those of subsets that the pass no longer knows. Their limits may be any that they were once
   generated from.
   */
  lemma RefreshedWorkload(mode: MergeMode, sum: Checksum, ev: Evaluator, spec: SmartLimiterSpec,
      selector: map<string, string>, sets: seq<Subset>, status: map<string, seq<Descriptor>>, global: seq<RlsEntry>,
      before: FS.Store, p: FS.Pass, names: set<string>, left: string -> W.Origin,
      workload: W.Labels, order: seq<string>, re: Regex, r: RouteId, headers: Headers)
    requires Agree(NamingOf(sum, p.loc), ev, spec, selector, sets, p.efs, status, global)
    requires FS.IsClean(before, p) && AreAllSets(before, p, names) && IsOrderOf(order, names)
    requires W.OneDirectionEach(ev, spec, Filter(L.Among(p.efs.Keys), order))
    requires var stored := FS.StoredFilters(FS.AfterPass(before, p), p.loc, names);
      var origins := L.OriginsOf(ev, spec, p.efs.Keys, left);
      && L.LeftGood(NamingOf(sum, p.loc), left, stored, workload, Filter(Not(L.Among(p.efs.Keys)), order))
      && DistinctNames(NamingOf(sum, p.loc), W.LimitsMet(origins, stored, workload, order))
      && var met := W.Met(origins, stored, workload, order);
         mode == Replace ==> W.TablesGood(met) && W.Coverers(met, r) <= 1
    ensures var stored := FS.StoredFilters(FS.AfterPass(before, p), p.loc, names);
      var kept, gone := Filter(L.Among(p.efs.Keys), order), Filter(Not(L.Among(p.efs.Keys)), order);
      (multiset(Consulted(re, headers, ApplyAll(mode, r, W.MergedOn(stored, workload, order)))) ==
        multiset(FlatMap(W.SpecOn(NamingOf(sum, p.loc), ev, spec, re, r, headers, selector, sets, workload), kept)))
      <==> Wanted(re, W.LimitsMet(left, stored, workload, gone), r, headers) == []
  {
    hide FiltersAgree, FS.FilterKeyOf, FS.AfterPass, FS.IsClean, Consulted, ApplyAll, W.MergedOn, W.SpecOn,
      W.LimitsMet, W.Met, Filter, FlatMap;
    var stored := FS.StoredFilters(FS.AfterPass(before, p), p.loc, names);
    FS.StoredAsGenerated(before, p);
    assert forall name :: name in p.efs ==>
      stored[name] == FS.StoredFilters(FS.AfterPass(before, p), p.loc, p.efs.Keys)[name];
    L.SplitExactly(mode, NamingOf(sum, p.loc), ev, spec, selector, sets, p.efs, stored, left, workload, order,
      re, r, headers);
  }

  /** Two refreshes without trouble, the second of which no longer knows some of the sets. */
  ghost predicate IsSecond(first: FS.Pass, p: FS.Pass) {
    && first.loc == p.loc && first.revision == p.revision
    && (forall name :: name in first.efs ==> first.faults(name) == FS.NO_FAULT)
    && (forall name :: name in p.efs ==> p.faults(name) == FS.NO_FAULT)
  }

  /** What is stored after the two for the sets of either. */
  ghost function StoredAfterBoth(first: FS.Pass, p: FS.Pass): map<string, Option<EnvoyFilter>> {
    FS.StoredFilters(FS.AfterPass(FS.AfterPass(map[], first), p), p.loc, first.efs.Keys + p.efs.Keys)
  }

  /** What the first of them generated for a set that the second does not know is still stored. */
  lemma LeftBehind(first: FS.Pass, p: FS.Pass, names: set<string>)
    requires IsSecond(first, p) && names == first.efs.Keys + p.efs.Keys
    ensures var before := FS.AfterPass(map[], first);
      && FS.IsClean(before, p) && AreAllSets(before, p, names)
      && forall name :: name in names && name !in p.efs ==>
        FS.StoredFilters(FS.AfterPass(before, p), p.loc, names)[name] == first.efs[name]
  {
    hide FS.FilterKeyOf, FS.AfterPass;
    var before := FS.AfterPass(map[], first);
    FS.StoredAsGenerated(map[], first);
    forall key | key in before
      ensures before[key].revision == p.revision
      ensures exists name :: name in first.efs && FS.FilterKeyOf(p.loc, name) == key
    {
      FS.FirstPass(first, key);
    }
    forall name | FS.FilterKeyOf(p.loc, name) in before
      ensures name in names
    {
      var n :| n in first.efs && FS.FilterKeyOf(p.loc, n) == FS.FilterKeyOf(p.loc, name);
      SameKey(p.loc, n, name);
    }
    forall name | name in names && name !in p.efs
      ensures FS.StoredFilters(FS.AfterPass(before, p), p.loc, names)[name] == first.efs[name]
    {
      FS.OtherSetsUntouched(before, p, name);
      assert FS.StoredFilters(before, p.loc, first.efs.Keys)[name] == first.efs[name];
    }
  }

  lemma SameKey(loc: Location, name: string, other: string)
    requires FS.FilterKeyOf(loc, name) == FS.FilterKeyOf(loc, other)
    ensures name == other
  {
    FS.SetNamesInjective(loc, name, other);
  }

  /**
   The run in which a removed subset goes on limiting: its filter was generated from a limit for all ports, the next
   refresh does not know the subset, and a request to a workload with its labels meets a limit that the spec does not
   ask for.
   */
  lemma RemovedSubsetStillLimits(sum: Checksum, ev: Evaluator, spec: SmartLimiterSpec, selector: map<string, string>,
      sets: seq<Subset>, status: map<string, seq<Descriptor>>, global: seq<RlsEntry>,
      evBefore: Evaluator, specBefore: SmartLimiterSpec, selectorBefore: map<string, string>, setsBefore: seq<Subset>,
      first: FS.Pass, p: FS.Pass, removed: string, d: Descriptor,
      workload: W.Labels, order: seq<string>, re: Regex, headers: Headers)
    requires FiltersAgree(NamingOf(sum, p.loc), evBefore, specBefore, selectorBefore, setsBefore, first.efs)
    requires Agree(NamingOf(sum, p.loc), ev, spec, selector, sets, p.efs, status, global)
    requires IsSecond(first, p) && IsOrderOf(order, first.efs.Keys + p.efs.Keys)
    requires removed in first.efs && removed !in p.efs
    requires d in ValidOf(evBefore, specBefore, removed) && IsLocal(d) && d.matches == [] && d.target.None?
    requires first.efs[removed].Some? && W.Selects(first.efs[removed].value.labels, workload)
    requires W.OneDirectionEach(ev, spec, order) && W.OneDirectionEach(evBefore, specBefore, order)
    requires var stored := StoredAfterBoth(first, p);
      DistinctNames(NamingOf(sum, p.loc), W.LimitsMet(
        L.OriginsOf(ev, spec, p.efs.Keys, W.SpecOrigins(evBefore, specBefore)), stored, workload, order))
    ensures var stored := StoredAfterBoth(first, p);
      var r := RouteIdOf(RouteConfig(ALLOW_ALL_PORT, INBOUND_DEFAULT_ROUTE, INBOUND));
      multiset(Consulted(re, headers, ApplyAll(Append, r, W.MergedOn(stored, workload, order)))) !=
        multiset(FlatMap(W.SpecOn(NamingOf(sum, p.loc), ev, spec, re, r, headers, selector, sets, workload),
          Filter(L.Among(p.efs.Keys), order)))
  {
    hide FiltersAgree, FS.FilterKeyOf, FS.AfterPass, FS.IsClean, AreAllSets, Consulted, ApplyAll, W.MergedOn, W.SpecOn,
      W.LimitsMet, W.Met, Filter, FlatMap, W.OnWorkload, Wanted, IsSecond, FS.Find, DistinctNames, W.AreGood,
      OneDirection, AllPlaces;
    var names, naming := first.efs.Keys + p.efs.Keys, NamingOf(sum, p.loc);
    var stored := FS.StoredFilters(FS.AfterPass(FS.AfterPass(map[], first), p), p.loc, names);
    var gone := Filter(Not(L.Among(p.efs.Keys)), order);
    var left := W.SpecOrigins(evBefore, specBefore);
    LeftBehind(first, p, names);
    InFilter(L.Among(p.efs.Keys), order);
    InFilter(Not(L.Among(p.efs.Keys)), order);
    L.LeftIsGood(naming, evBefore, specBefore, selectorBefore, setsBefore, first.efs, stored, workload, gone);
    var r := RouteIdOf(RouteConfig(ALLOW_ALL_PORT, INBOUND_DEFAULT_ROUTE, INBOUND));
    RefreshedWorkload(Append, sum, ev, spec, selector, sets, status, global, FS.AfterPass(map[], first), p, names, left,
      workload, order, re, r, headers);
    L.LimitMet(left, stored, workload, gone, removed, d);
    L.AlwaysWanted(re, W.LimitsMet(left, stored, workload, gone), d, headers);
  }

  lemma OwnPartOfList(op: CM.Op, data: Option<CM.Data>)
    requires RlsContents.OwnNames(op) && CM.ListOf(data).Some?
    ensures var list := CM.ListOf(CM.Apply(op, data));
      list.Some? && Filter(RlsContents.ClaimedBy(op.loc), list.value) == op.desc
  {
    var old_ := CM.ListOf(data).value;
    CM.ApplyList(op, data);
    RlsContents.OwnEntries(op, op.loc);
    RlsContents.ClaimedNotClaimed(op.loc, old_);
    FilterAppend(RlsContents.ClaimedBy(op.loc), Filter(CM.NotClaimedBy(op.loc), old_), op.desc);
  }
}
