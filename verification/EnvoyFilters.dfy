/**
 From the spec of a SmartLimiter to one Envoy filter per set, the status, and the entries for the rate-limit service.
 */
module EnvoyFilters {
  import opened Seqs
  import opened Text
  import opened Limiter
  import opened Descriptors
  import opened RateLimits
  import opened LocalLimit

  datatype EnvoyFilter = EnvoyFilter(labels: map<string, string>, patches: seq<Patch>)

  /** Evaluation of templates over the metrics collected for a service; None is an evaluation error. */
  datatype Evaluator = Evaluator(condition: string -> Option<bool>, quota: string -> Option<int64>)

  /** The limit as it takes effect: nothing unless its condition is true and its quota can be evaluated. */
  function Evaluated(ev: Evaluator, d: Descriptor): seq<Descriptor> {
    if ev.condition(d.condition) == Some(true) && d.action.Some? && ev.quota(d.action.value.quota).Some? then
      var quota := FormatInt(ev.quota(d.action.value.quota).value);
      var action := Action(quota, d.action.value.fillInterval, d.action.value.strategy);
      [Descriptor("", Some(action), d.matches, d.target, "", "")]
    else
      []
  }

  function EvaluatedBy(ev: Evaluator): Descriptor -> seq<Descriptor> {
    d => Evaluated(ev, d)
  }

  function Valid(ev: Evaluator, descriptors: seq<Descriptor>): seq<Descriptor> {
    FlatMap(EvaluatedBy(ev), descriptors)
  }

  /** The limits of a set that take effect; a set that the spec does not mention has none. */
  function ValidOf(ev: Evaluator, spec: SmartLimiterSpec, name: string): seq<Descriptor> {
    if spec.sets.Some? && name in spec.sets.value then Valid(ev, spec.sets.value[name]) else []
  }

  method EvaluateDescriptors(ev: Evaluator, descriptors: seq<Descriptor>) returns (valid: seq<Descriptor>)
    ensures valid == Valid(ev, descriptors)
  {
    valid := [];
    for i := 0 to |descriptors|
      invariant valid == Valid(ev, descriptors[..i])
    {
      FlatMapSnoc(EvaluatedBy(ev), descriptors, i);
      var des := descriptors[i];
      var shouldUpdate := ev.condition(des.condition);
      if shouldUpdate.None? {
        continue;
      }
      if shouldUpdate.value && des.action.Some? {
        var rateLimitValue := ev.quota(des.action.value.quota);
        if rateLimitValue.Some? {
          var action := Action(FormatInt(rateLimitValue.value), des.action.value.fillInterval,
            des.action.value.strategy);
          valid := valid + [Descriptor("", Some(action), des.matches, des.target, "", "")];
        }
      }
    }
    assert descriptors[..|descriptors|] == descriptors;
  }

  lemma ValidShape(ev: Evaluator, descriptors: seq<Descriptor>)
    ensures forall d :: d in Valid(ev, descriptors) ==> d.action.Some? && !IsCustom(d)
    ensures HaveActions(Valid(ev, descriptors))
  {
    forall d | d in Valid(ev, descriptors)
      ensures d.action.Some? && !IsCustom(d)
    {
      InFlatMap(EvaluatedBy(ev), descriptors, d);
    }
  }

  method SplitByStrategy(descriptors: seq<Descriptor>) returns (global: seq<Descriptor>, local: seq<Descriptor>)
    ensures global == Filter(IsGlobal, descriptors) && local == Filter(IsLocal, descriptors)
  {
    global, local := [], [];
    for i := 0 to |descriptors|
      invariant global == Filter(IsGlobal, descriptors[..i])
      invariant local == Filter(IsLocal, descriptors[..i])
    {
      FilterSnoc(IsGlobal, descriptors, i);
      FilterSnoc(IsLocal, descriptors, i);
      var d := descriptors[i];
      if d.action.Some? {
        if d.action.value.strategy == GLOBAL_SMART_LIMITER {
          global := global + [d];
        } else {
          local := local + [d];
        }
      }
    }
    assert descriptors[..|descriptors|] == descriptors;
  }

  lemma SplitHaveActions(descriptors: seq<Descriptor>)
    ensures HaveActions(Filter(IsGlobal, descriptors)) && HaveActions(Filter(IsLocal, descriptors))
  {
    InFilter(IsGlobal, descriptors);
    InFilter(IsLocal, descriptors);
    var global, local := Filter(IsGlobal, descriptors), Filter(IsLocal, descriptors);
    assert forall i :: 0 <= i < |global| ==> global[i] in global;
    assert forall i :: 0 <= i < |local| ==> local[i] in local;
  }

  lemma CompiledParts(naming: Naming, descriptors: seq<Descriptor>, rls: string,
      actionPatches: seq<Patch>, actionOrder: seq<string>, bucketPatches: seq<Patch>, bucketOrder: seq<string>)
    requires AreActionPatches(naming, AllPlaces(Routed(descriptors)), actionOrder, actionPatches)
    requires AreBucketPatches(naming, AllPlaces(Filter(IsLocal, descriptors)), bucketOrder, bucketPatches)
    ensures IsCompiled(naming, descriptors, rls, actionPatches
      + (if Filter(IsGlobal, descriptors) == [] then [] else [GlobalFilter(RateLimiterServerCluster(rls))])
      + (if Filter(IsLocal, descriptors) == [] then [] else [LocalFilter])
      + bucketPatches)
  {
    var patches := actionPatches
      + (if Filter(IsGlobal, descriptors) == [] then [] else [GlobalFilter(RateLimiterServerCluster(rls))])
      + (if Filter(IsLocal, descriptors) == [] then [] else [LocalFilter])
      + bucketPatches;
    assert IsCompiledFrom(naming, descriptors, rls, patches, actionPatches, actionOrder, bucketPatches, bucketOrder);
  }

  lemma NoBucketPatches(naming: Naming)
    ensures AreBucketPatches(naming, AllPlaces([]), [], [])
  {
    assert Keys(AllPlaces([])) == {};
  }

  method DescriptorsToEnvoyFilter(naming: Naming, descriptors: seq<Descriptor>, labels: map<string, string>,
      rls: string)
    returns (ef: EnvoyFilter)
    ensures ef.labels == labels && IsCompiled(naming, descriptors, rls, ef.patches)
  {
    var global, local := SplitByStrategy(descriptors);
    SplitHaveActions(descriptors);
    var patches, routerOrder := GenerateHttpRouterPatch(naming, descriptors);
    ghost var httpRouterPatches := patches;
    if |global| > 0 {
      patches := patches + [GlobalFilter(RateLimiterServerCluster(rls))];
    } else {
      assert patches + [] == patches;
    }
    if |local| > 0 {
      patches := patches + [LocalFilter];
      var perFilterPatch, perFilterOrder := GenerateLocalRateLimitPerFilterPatch(naming, local);
      patches := patches + perFilterPatch;
      CompiledParts(naming, descriptors, rls, httpRouterPatches, routerOrder, perFilterPatch, perFilterOrder);
    } else {
      assert patches + [] + [] == patches;
      NoBucketPatches(naming);
      CompiledParts(naming, descriptors, rls, httpRouterPatches, routerOrder, [], []);
    }
    ef := EnvoyFilter(labels, patches);
  }

  method DescriptorsToGlobalRateLimit(naming: Naming, descriptors: seq<Descriptor>) returns (desc: seq<RlsEntry>)
    requires HaveActions(descriptors)
    ensures desc == RlsEntries(naming, Filter(IsGlobal, descriptors))
  {
    var global, local := SplitByStrategy(descriptors);
    SplitHaveActions(descriptors);
    desc := GenerateGlobalRateLimitDescriptor(naming, global);
    RlsEntriesUnique(naming, global, desc);
  }

  // ----- All sets of a service -----

  ghost function EntriesOf(naming: Naming, ev: Evaluator, spec: SmartLimiterSpec): Subset -> seq<RlsEntry> {
    (s: Subset) => RlsEntries(naming, Filter(IsGlobal, ValidOf(ev, spec, s.name)))
  }

  function Names(sets: seq<Subset>): set<string> {
    set s | s in sets :: s.name
  }

  /** Of subsets with one name the last one decides on the labels. */
  function LabelsOf(sets: seq<Subset>, name: string): map<string, string> {
    if sets == [] then map[]
    else if sets[|sets| - 1].name == name then sets[|sets| - 1].labels
    else LabelsOf(sets[..|sets| - 1], name)
  }

  /** The filter of a set: none if no limit of the set takes effect, else the compilation of those that do. */
  ghost predicate IsFilterOf(naming: Naming, valid: seq<Descriptor>, rls: string, labels: map<string, string>,
      ef: Option<EnvoyFilter>) {
    if valid == [] then ef == None
    else ef.Some? && ef.value.labels == labels && IsCompiled(naming, valid, rls, ef.value.patches)
  }

  ghost predicate FiltersAgree(naming: Naming, ev: Evaluator, spec: SmartLimiterSpec, selector: map<string, string>,
      sets: seq<Subset>, efs: map<string, Option<EnvoyFilter>>) {
    && efs.Keys == Names(sets)
    && forall name :: name in efs ==>
      IsFilterOf(naming, ValidOf(ev, spec, name), spec.rls, selector + LabelsOf(sets, name), efs[name])
  }

  ghost predicate StatusAgrees(ev: Evaluator, spec: SmartLimiterSpec, sets: seq<Subset>,
      status: map<string, seq<Descriptor>>) {
    && (forall name :: name in status <==> name in Names(sets) && ValidOf(ev, spec, name) != [])
    && forall name :: name in status ==> status[name] == ValidOf(ev, spec, name)
  }

  /** How the three artefacts agree on a list of sets. */
  ghost predicate Agree(naming: Naming, ev: Evaluator, spec: SmartLimiterSpec, selector: map<string, string>,
      sets: seq<Subset>, efs: map<string, Option<EnvoyFilter>>, status: map<string, seq<Descriptor>>,
      global: seq<RlsEntry>) {
    && FiltersAgree(naming, ev, spec, selector, sets, efs)
    && StatusAgrees(ev, spec, sets, status)
    && global == FlatMap(EntriesOf(naming, ev, spec), sets)
  }

  /** The selector of the service, or a failure to look the service up. */
  datatype ServiceLookup = Selector(labels: map<string, string>) | LookupFailed

  function AllSets(subsets: seq<Subset>): seq<Subset> {
    subsets + [Subset(BASE_SET, map[])]
  }

  method GenerateSet(naming: Naming, ev: Evaluator, spec: SmartLimiterSpec, name: string, labels: map<string, string>)
    returns (ef: Option<EnvoyFilter>, valid: seq<Descriptor>, desc: seq<RlsEntry>)
    ensures valid == ValidOf(ev, spec, name)
    ensures IsFilterOf(naming, valid, spec.rls, labels, ef)
    ensures desc == RlsEntries(naming, Filter(IsGlobal, valid))
  {
    if spec.sets.None? || name !in spec.sets.value {
      return None, [], [];
    }
    valid := EvaluateDescriptors(ev, spec.sets.value[name]);
    if |valid| == 0 {
      return None, valid, [];
    }
    ValidShape(ev, spec.sets.value[name]);
    var filter := DescriptorsToEnvoyFilter(naming, valid, labels, spec.rls);
    ef := Some(filter);
    desc := DescriptorsToGlobalRateLimit(naming, valid);
  }

  lemma NamesSnoc(sets: seq<Subset>, s: Subset)
    ensures Names(sets + [s]) == Names(sets) + {s.name}
    ensures forall name :: LabelsOf(sets + [s], name) == if name == s.name then s.labels else LabelsOf(sets, name)
  {
    assert (sets + [s])[..|sets|] == sets;
  }

  lemma FiltersAgreeSnoc(naming: Naming, ev: Evaluator, spec: SmartLimiterSpec, selector: map<string, string>,
      sets: seq<Subset>, s: Subset, efs: map<string, Option<EnvoyFilter>>, ef: Option<EnvoyFilter>)
    requires FiltersAgree(naming, ev, spec, selector, sets, efs)
    requires IsFilterOf(naming, ValidOf(ev, spec, s.name), spec.rls, selector + s.labels, ef)
    ensures FiltersAgree(naming, ev, spec, selector, sets + [s], efs[s.name := ef])
  {
    hide IsFilterOf, ValidOf, LabelsOf, Names;
    NamesSnoc(sets, s);
  }

  lemma StatusAgreesSnoc(ev: Evaluator, spec: SmartLimiterSpec, sets: seq<Subset>, s: Subset,
      status: map<string, seq<Descriptor>>)
    requires StatusAgrees(ev, spec, sets, status)
    ensures ValidOf(ev, spec, s.name) == [] ==> StatusAgrees(ev, spec, sets + [s], status)
    ensures ValidOf(ev, spec, s.name) != [] ==>
      StatusAgrees(ev, spec, sets + [s], status[s.name := ValidOf(ev, spec, s.name)])
  {
    NamesSnoc(sets, s);
  }

  lemma EntriesSnoc(naming: Naming, ev: Evaluator, spec: SmartLimiterSpec, sets: seq<Subset>, s: Subset)
    ensures FlatMap(EntriesOf(naming, ev, spec), sets + [s]) ==
      FlatMap(EntriesOf(naming, ev, spec), sets) + RlsEntries(naming, Filter(IsGlobal, ValidOf(ev, spec, s.name)))
  {
    FlatMapAppend(EntriesOf(naming, ev, spec), sets, [s]);
    assert FlatMap(EntriesOf(naming, ev, spec), [s]) == EntriesOf(naming, ev, spec)(s);
  }

  lemma NoSetsAgree(naming: Naming, ev: Evaluator, spec: SmartLimiterSpec, selector: map<string, string>)
    ensures FiltersAgree(naming, ev, spec, selector, [], map[]) && StatusAgrees(ev, spec, [], map[])
  {
  }

  method GenerateSets(naming: Naming, ev: Evaluator, spec: SmartLimiterSpec, selector: map<string, string>,
      sets: seq<Subset>)
    returns (efs: map<string, Option<EnvoyFilter>>, status: map<string, seq<Descriptor>>, global: seq<RlsEntry>)
    ensures Agree(naming, ev, spec, selector, sets, efs, status, global)
  {
    efs, status, global := map[], map[], [];
    hide FiltersAgree, StatusAgrees, IsFilterOf, ValidOf, RlsEntries;
    assert FiltersAgree(naming, ev, spec, selector, sets[..0], efs) && StatusAgrees(ev, spec, sets[..0], status) by {
      NoSetsAgree(naming, ev, spec, selector);
    }
    for i := 0 to |sets|
      invariant FiltersAgree(naming, ev, spec, selector, sets[..i], efs)
      invariant StatusAgrees(ev, spec, sets[..i], status)
      invariant global == FlatMap(EntriesOf(naming, ev, spec), sets[..i])
    {
      var s := sets[i];
      var ef, valid, desc := GenerateSet(naming, ev, spec, s.name, selector + s.labels);
      assert sets[..i + 1] == sets[..i] + [s];
      FiltersAgreeSnoc(naming, ev, spec, selector, sets[..i], s, efs, ef);
      StatusAgreesSnoc(ev, spec, sets[..i], s, status);
      EntriesSnoc(naming, ev, spec, sets[..i], s);
      efs := efs[s.name := ef];
      if |valid| > 0 {
        status := status[s.name := valid];
      }
      global := global + desc;
    }
    assert sets[..|sets|] == sets;
  }

  /** Everything a refresh needs; nothing at all when the service cannot be looked up. */
  method GenerateEnvoyConfigs(sum: Checksum, ev: Evaluator, spec: SmartLimiterSpec, loc: Location,
      subsets: seq<Subset>, service: ServiceLookup)
    returns (efs: map<string, Option<EnvoyFilter>>, status: map<string, seq<Descriptor>>,
      global: seq<RlsEntry>, failed: bool)
    ensures failed <==> service.LookupFailed?
    ensures failed ==> efs == map[] && status == map[] && global == []
    ensures !failed ==> Agree(NamingOf(sum, loc), ev, spec, service.labels, AllSets(subsets), efs, status, global)
  {
    if service.LookupFailed? {
      return map[], map[], [], true;
    }
    failed := false;
    efs, status, global := GenerateSets(NamingOf(sum, loc), ev, spec, service.labels, AllSets(subsets));
  }

  /** The sets of a service are its subsets and the base set, which adds no labels of its own. */
  lemma AllSetsMeaning(subsets: seq<Subset>, name: string)
    ensures name in Names(AllSets(subsets)) <==> name == "_base" || exists s :: s in subsets && s.name == name
    ensures LabelsOf(AllSets(subsets), name) == if name == "_base" then map[] else LabelsOf(subsets, name)
  {
    NamesSnoc(subsets, Subset(BASE_SET, map[]));
  }
}
