/**
 From metrics to requests: the quotas that a request meets are those evaluated over the metrics that are remembered.
 */
module Metrics {
  import opened Seqs
  import opened Limiter
  import opened Descriptors
  import opened RateLimits
  import opened LocalLimit
  import opened EnvoyFilters
  import opened Meaning
  import opened Refresh
  import R = Reconciler
  import W = Workload
  import L = Leftover
  import FS = FilterStore
  import CM = RlsConfigMap

  /** The evaluation of templates over the metrics of a service. */
  type Templates = R.Info -> Evaluator

  /**
   A refresh that the metric loop starts: the metrics are remembered, and only then the limiter is read; if it is found,
   it is refreshed with its templates evaluated over all metrics of its service that are remembered.
   */
  method RefreshOnMetrics(rec: R.SmartLimiterReconciler, api: FS.ApiServer, shared: CM.ConfigMapStore, sum: Checksum,
      templates: Templates, loc: Location, args: R.Info, answer: R.Answer, revision: string, subsets: seq<Subset>,
      service: ServiceLookup, globalEnabled: bool, trouble: Trouble)
    returns (failed: bool, status: Option<map<string, seq<Descriptor>>>,
      ghost efs: map<string, Option<EnvoyFilter>>, ghost global: seq<RlsEntry>)
    modifies rec, api, shared
    ensures rec.Remembered() == R.Refreshed(old(rec.Remembered()), R.KeyOf(loc), args)
    ensures !answer.Found? ==>
      failed == answer.ReadError? && status.None? && api.filters == old(api.filters) && shared.data == old(shared.data)
    ensures answer.Found? && (answer.spec.sets.None? || service.LookupFailed?) ==>
      failed && status.None? && api.filters == old(api.filters) && shared.data == old(shared.data)
    ensures answer.Found? && answer.spec.sets.Some? && service.Selector? ==>
      && Generated(NamingOf(sum, loc), templates(rec.metricInfo[R.KeyOf(loc)]), answer.spec, service.labels,
        AllSets(subsets), efs, status, global)
      && (status.None? <==> trouble.status)
      && api.filters == FS.AfterPass(old(api.filters), FS.Pass(loc, revision, efs, trouble.filters))
      && shared.data == (if !globalEnabled || trouble.configMapRead || trouble.configMapUpdate then old(shared.data)
        else CM.Apply(CM.Op(loc, global), old(shared.data)))
      && failed == trouble.status
  {
    efs, global := map[], [];
    var readFailed, material := rec.Refresh(loc, args, answer);
    if material.None? {
      return readFailed, None, efs, global;
    }
    failed, status, efs, global := RefreshLimiter(api, shared, sum, templates(material.value), answer.spec, loc,
      revision, subsets, service, globalEnabled, trouble);
  }

  function Arrivals(key: string, maps: seq<R.Info>): seq<R.Event> {
    Map((args: R.Info) => R.Event.Refresh(key, args), maps)
  }

  /** One more refresh: its map lies on top of those since the last reconciled deletion. */
  lemma OneMoreMap(events: seq<R.Event>, key: string, args: R.Info)
    ensures R.MapsSince(events + [R.Event.Refresh(key, args)], key) == R.MapsSince(events, key) + [args]
  {
    assert (events + [R.Event.Refresh(key, args)])[..|events|] == events;
  }

  /**
   Metrics that arrive after the deletion was reconciled are remembered, for whatever limiter comes next by the name.
   */
  lemma {:induction false} LateMetricsStay(events: seq<R.Event>, key: string, late: seq<R.Info>)
    ensures R.MapsSince(events + [R.Event.Reconcile(key, R.NotFound)] + Arrivals(key, late), key) == late
  {
    var deleted := events + [R.Event.Reconcile(key, R.NotFound)];
    if late == [] {
      assert deleted + Arrivals(key, late) == deleted;
      assert deleted[..|events|] == events;
    } else {
      var n := |late| - 1;
      LateMetricsStay(events, key, late[..n]);
      OneMoreMap(deleted + Arrivals(key, late[..n]), key, late[n]);
      MapAppend((args: R.Info) => R.Event.Refresh(key, args), late[..n], [late[n]]);
      assert late == late[..n] + [late[n]];
      assert deleted + Arrivals(key, late) == deleted + Arrivals(key, late[..n]) + [R.Event.Refresh(key, late[n])];
    }
  }

  /** What a refresh evaluates its templates over: all maps since the last reconciled deletion, the new one on top. */
  lemma MaterialIsOverlay(events: seq<R.Event>, key: string, args: R.Info)
    ensures var after := R.Run(events + [R.Event.Refresh(key, args)]);
      key in after.metricInfo && after.metricInfo[key] == R.Overlay(R.MapsSince(events, key) + [args])
  {
    hide R.Overlay, R.Run, R.MapsSince;
    OneMoreMap(events, key, args);
    R.MetricsAreOverlay(events + [R.Event.Refresh(key, args)], key);
  }

  /**
   From a run of metrics to a request: after a refresh without trouble, a request to a workload meets the limits of the
   spec with conditions and quotas evaluated over the overlay of all maps since the service's last reconciled deletion,
   if and only if it meets none under filters that were left behind.
   */
  lemma MetricsReachRequests(mode: MergeMode, sum: Checksum, templates: Templates, events: seq<R.Event>, args: R.Info,
      spec: SmartLimiterSpec, selector: map<string, string>, sets: seq<Subset>, status: map<string, seq<Descriptor>>,
      global: seq<RlsEntry>, before: FS.Store, p: FS.Pass, names: set<string>, left: string -> W.Origin,
      workload: W.Labels, order: seq<string>, re: Regex, r: RouteId, headers: Headers)
    requires var key := R.KeyOf(p.loc); var after := R.Run(events + [R.Event.Refresh(key, args)]);
      key in after.metricInfo
      && Agree(NamingOf(sum, p.loc), templates(after.metricInfo[key]), spec, selector, sets, p.efs, status, global)
    requires FS.IsClean(before, p) && AreAllSets(before, p, names) && IsOrderOf(order, names)
    requires var ev := templates(R.Overlay(R.MapsSince(events, R.KeyOf(p.loc)) + [args]));
      && W.OneDirectionEach(ev, spec, Filter(L.Among(p.efs.Keys), order))
      && var stored := FS.StoredFilters(FS.AfterPass(before, p), p.loc, names);
         var origins := L.OriginsOf(ev, spec, p.efs.Keys, left);
         && L.LeftGood(NamingOf(sum, p.loc), left, stored, workload, Filter(Not(L.Among(p.efs.Keys)), order))
         && DistinctNames(NamingOf(sum, p.loc), W.LimitsMet(origins, stored, workload, order))
         && var met := W.Met(origins, stored, workload, order);
            mode == Replace ==> W.TablesGood(met) && W.Coverers(met, r) <= 1
    ensures var ev := templates(R.Overlay(R.MapsSince(events, R.KeyOf(p.loc)) + [args]));
      var stored := FS.StoredFilters(FS.AfterPass(before, p), p.loc, names);
      var kept, gone := Filter(L.Among(p.efs.Keys), order), Filter(Not(L.Among(p.efs.Keys)), order);
      (multiset(Consulted(re, headers, ApplyAll(mode, r, W.MergedOn(stored, workload, order)))) ==
        multiset(FlatMap(W.SpecOn(NamingOf(sum, p.loc), ev, spec, re, r, headers, selector, sets, workload), kept)))
      <==> Wanted(re, W.LimitsMet(left, stored, workload, gone), r, headers) == []
  {
    hide Agree, FS.FilterKeyOf, FS.AfterPass, FS.IsClean, AreAllSets, Consulted, ApplyAll, W.MergedOn, W.SpecOn,
      W.LimitsMet, W.Met, Filter, FlatMap, R.Run, R.Overlay, R.MapsSince, Wanted, W.TablesGood, W.Coverers, L.LeftGood,
      W.OneDirectionEach, FS.StoredFilters, DistinctNames;
    MaterialIsOverlay(events, R.KeyOf(p.loc), args);
    RefreshedWorkload(mode, sum, templates(R.Overlay(R.MapsSince(events, R.KeyOf(p.loc)) + [args])), spec, selector,
      sets, status, global, before, p, names, left, workload, order, re, r, headers);
  }
}
